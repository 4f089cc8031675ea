# OneBotGateway log bridge

This project models the logging bridge in OneBotGateway's `app.py` and proves properties of it. The bridge sends three kinds of logging through one loguru logger:

- records from the stdlib `logging` module, via `InterceptHandler.emit`;
- text printed to standard output, via `StreamToLogger`;
- the sink set-up done once at startup, via `init_logger`.

loguru itself is not modelled. In its place is a `Logger` class with three fields:

- a list of registered sinks;
- the id the next sink will get;
- the list of emitted records. Each record holds its level, message, depth and exception. It also holds the ids of the sinks registered when it was emitted.

The stdlib root logger is a `Root` class that holds its handlers and its level.

Modules:

- `PyText` (pytext.dfy): Python's `str.isspace`, `str.rstrip()`, `str.splitlines()` and `"\n".join`, over characters. It includes the split/join round trip.
- `Levels` (levels.dfy): loguru's level table, the stdlib's level names, and the level resolution in `emit`, which uses the name when loguru knows it and falls back to the number otherwise.
- `Frames` (frames.dfy): the frame-walking loop of `emit`. The frame stack is a sequence of file names, and index 0 is `emit`'s own frame.
- `Loguru` (loguru.dfy): the logger state and its operations `add`, `remove` and `log`.
- `StdLogging` (stdlogging.dfy): stdlib records and `logging.basicConfig`.
- `Intercept` (intercept.dfy): `InterceptHandler.emit`.
- `Stream` (stream.dfy): `StreamToLogger`.
- `Bootstrap` (bootstrap.dfy): `init_logger`.

A Python exception raised by loguru is modelled as a `false` result. The operation stops at that point, and the state stays as it was when the exception was raised.

Three behaviours of `app.py` are easy to miss, and the model follows the code:

- `write` does not drop interior blank lines. `"a\n  \nb"` logs `"a"`, `""` and `"b"`. Only trailing blank lines disappear, because of the first `rstrip()`.
- `OBGW_LOGLEVEL` goes to loguru exactly as written. It is not upper-cased. Only the package's `__init__.py` upper-cases its own `LOGLEVEL`. So a lower-case name such as `info` makes `add` fail after the default sink has already been removed. `InitLogger` models this failure.
- Debug mode is on only when `OBGW_DEBUG_MODE` is exactly the string `"True"`. Any other value, and an unset variable, leave it off.

## Model

| member | source | states |
|---|---|---|
| `PyText.IsWhitespace` | app.py:42-43 | the characters `rstrip()` removes: Python's `isspace` set (tab to carriage return, `\x1c` to space, `\x85`, `\xa0`, `\u1680`, `\u2000`-`\u200a`, `\u2028`, `\u2029`, `\u202f`, `\u205f`, `\u3000`) |
| `PyText.IsLineBreak` | app.py:42 | the boundaries `splitlines()` splits on: `\n`, `\r`, `\v`, `\f`, `\x1c`-`\x1e`, `\x85`, `\u2028`, `\u2029` |
| `PyText.RStrip` | app.py:42-43 | `rstrip()` returns a prefix of its input that does not end in whitespace, and everything it removes is whitespace (Python's `isspace` set) |
| `PyText.RStripUnique` | app.py:42-43 | those three properties determine the result of `rstrip()` |
| `PyText.RStripIdempotent` | app.py:42-43 | `rstrip()` of an `rstrip()`ed string changes nothing, so the second `rstrip()` of the last line is a no-op |
| `PyText.RStripIgnoresWhitespaceSuffix` | app.py:42 | appending whitespace to a string does not change its `rstrip()` |
| `PyText.SplitLines` | app.py:42 | `splitlines()` returns no lines exactly for the empty string; no line contains a line boundary; if the text does not end in a boundary, the last line is not empty and ends with the text's last character |
| `PyText.SplitLinesCons` | app.py:42 | a boundary-free line followed by any one boundary character (other than a `\r` that starts `\r\n`) is split off as the first line, and the split goes on with the rest |
| `PyText.SplitLinesCrLf` | app.py:42 | `\r\n` is a single boundary: the line before it is split off with no empty line between |
| `PyText.SplitLinesOfJoin` | app.py:42 | `splitlines()` undoes `"\n".join` for lines without boundaries when the last line is not empty |
| `PyText.JoinOfSplitLines` | app.py:42 | `"\n".join` undoes `splitlines()` for a text whose only boundaries are `\n` and that does not end in one: the lines are exactly the text between the boundaries |
| `Stream.WriteMessages` | app.py:42-43 | the messages `write` logs: `buffer.rstrip().splitlines()`, each line `rstrip()`ed, in order |
| `Stream.WriteMessagesAreLines` | app.py:42-43 | no message `write` logs contains a line boundary or ends in whitespace, and the last message is never empty, so trailing blank lines are dropped |
| `Stream.BlankBufferWritesNothing` | app.py:42 | `write` logs nothing if and only if the buffer is empty or all whitespace |
| `Stream.WriteOfJoinedLines` | app.py:42-43 | writing lines joined by `"\n"`, whose last line keeps a character after `rstrip()`, logs one message per line, in order, each equal to that line `rstrip()`ed; interior blank lines are kept |
| `Stream.WriteOfCleanLines` | app.py:42-43 | lines without boundaries or trailing whitespace, joined by `"\n"` and written at once, are logged back exactly, in order |
| `Stream.WriteIgnoresTrailingWhitespace` | app.py:42 | whitespace appended to any buffer changes nothing that `write` logs |
| `Stream.WriteIgnoresTrailingBlankLines` | app.py:42 | lines followed by any number of whitespace-only lines log the same messages as the lines alone |
| `Stream.WriteDropsTrailingBlankLines` | app.py:42 | `"a\nb\n\n"` logs exactly `"a"` then `"b"` |
| `Stream.WriteOfWhitespaceOnly` | app.py:42 | `"   \n"` logs nothing |
| `Stream.WriteKeepsInteriorBlankLine` | app.py:42-43 | `"a\n  \nb"` logs `"a"`, `""`, `"b"` |
| `Stream.StreamToLogger.constructor` | app.py:38-39 | the stream keeps the level it is given |
| `Stream.StreamToLogger.WithDefaultLevel` | app.py:38-39 | without an argument the level is `"INFO"` |
| `Stream.StreamToLogger.Write` | app.py:41-43 | with sinks registered and a known level, appends one record per message of `WriteMessages(buffer)`, in order, each at the stream's level, depth 1, with no exception; with sinks and an unknown level, loguru raises on the first line and nothing is logged; with no sinks nothing is logged and nothing raises; the sinks do not change |
| `Stream.StreamToLogger.Flush` | app.py:45-46 | `flush` changes nothing |
| `Levels.Resolve` | app.py:23-26 | the record's level name is used exactly when loguru knows it, and otherwise its number; resolution never fails, and loguru accepts the result unless the name is unknown and the number is negative |
| `Levels.ResolveKeepsSeverity` | app.py:23-26 | for every record the stdlib names (its standard names, or `Level <n>`), the resolved level has the record's own numeric severity |
| `Levels.ResolvePreservesOrder` | app.py:23-26 | resolution preserves the order of the stdlib's levels |
| `Frames.IsCallerDepth` | app.py:29-32 | the depth the walk yields: 0 for an empty stack; otherwise at least 1, every frame from 1 below it in the logging file, and it is the stack's length or a frame outside that file |
| `Frames.FindCallerDepth` | app.py:29-32 | the loop always steps past `emit`'s own frame, then past every frame of the stdlib `logging` file, and stops at the first other frame or at the end of the stack; an empty stack gives 0 |
| `Frames.CallerDepthUnique` | app.py:29-32 | the stack determines that depth: only one value satisfies the loop's postcondition |
| `Frames.AttributesToCaller` | app.py:29-34 | for `emit`, then n logging frames, then a client frame, the depth is n + 1, which is the client's frame |
| `Frames.CallerDepthInsideStack` | app.py:29-32 | when the bottom frame of a stack of two or more frames is not the logging file's, the depth names an existing frame outside that file |
| `Intercept.Emit` | app.py:20-34 | with sinks registered, logs exactly one record, with the resolved level, the caller's depth, the record's message and exception, and raises only when the name is unknown and the number negative; with no sinks it logs nothing and does not raise; the sinks do not change |
| `Loguru.Without` | app.py:49 | removing an id leaves every other sink, no sink with that id, and the list unchanged when the id was absent |
| `Loguru.Logger.constructor` | app.py:10 | the imported logger has only the default sink (id 0) and no records |
| `Loguru.Logger.Add` | app.py:50-56 | `add` always uses up the next id; it raises when the destination cannot be opened or the level name is unknown, and otherwise appends the sink with that id |
| `Loguru.Logger.Remove` | app.py:49 | `remove` reports whether the id was registered and removes that sink |
| `Loguru.Logger.Log` | app.py:34 | with no sinks, `log` returns at once without raising; otherwise it appends one record when the level is accepted and raises when it is not |
| `StdLogging.Root.BasicConfig` | app.py:59 | with `force` the given handlers replace all others and the level is set; without it, a root that already has handlers is left alone |
| `Bootstrap.ConfiguredLevel` | app.py:50-52 | the sink level is `OBGW_LOGLEVEL` as written, or `"INFO"` when it is unset |
| `Bootstrap.DebugMode` | app.py:54 | debug mode is on exactly when `OBGW_DEBUG_MODE` is the string `"True"` |
| `Bootstrap.BootstrapSinks` | app.py:50-56 | the sinks `init_logger` plans to add: console and log file at the configured level, then the debug file at `TRACE` in debug mode, with consecutive ids |
| `Bootstrap.SinksRegistered` | app.py:50-56 | how many planned sinks are added before the first `add` that raises: none on a missing console or an unknown level, one when the log file cannot be opened, else two, or three in debug mode when the debug file opens |
| `Bootstrap.AddsAttempted` | app.py:50-56 | how many `add` calls run before one raises or all are done, each using up an id: one on a missing console or an unknown level, two when the log file cannot be opened, three in debug mode, else two |
| `Bootstrap.AddsAttemptedCount` | app.py:50-56 | the ids used up are the sinks added, plus one for the `add` that raised when not every `add` succeeds |
| `Bootstrap.ConsoleAdded` | app.py:50 | the console `add` succeeds exactly when `sys.__stdout__` exists and the level name is known |
| `Bootstrap.Completes` | app.py:50-56 | every `add` of `init_logger` succeeds: an existing console stream, a known level, an openable log file, and in debug mode an openable debug file |
| `Bootstrap.ReachesWarning` | app.py:54-55 | the warning is logged exactly in debug mode once the console and file sinks were added |
| `Bootstrap.SinksRegisteredBound` | app.py:50-56 | `init_logger` never adds more than the planned sinks, and adds all of them exactly when every `add` succeeds |
| `Bootstrap.BootstrapSinksShape` | app.py:50-56 | init adds two sinks at the configured level, console then file, plus a third at `TRACE` on the debug file in debug mode, with consecutive ids |
| `Bootstrap.FreshBootstrap` | app.py:49-56 | from the imported logger, init leaves no default sink, and two sinks or, in debug mode, three, the third at `TRACE` |
| `Bootstrap.AddConfiguredSinks` | app.py:50-56 | once the default sink is gone, succeeds exactly when every `add` succeeds; appends the planned sinks up to the first `add` that raises; uses up one id per `add` attempted, the raising one included; in debug mode, once both first sinks are added, logs one warning that reaches exactly the sinks then registered |
| `Bootstrap.InitLogger` | app.py:48-59 | raises when sink 0 is missing, when `sys.__stdout__` does not exist, when the configured level is unknown, or when a log file cannot be opened, leaving the sinks added so far and the ids used up by the `add` calls attempted; otherwise removes the default sink, appends the console and file sinks (and the trace sink in debug mode), logs the debug warning while only the first two are registered, and installs the intercept handler at level 0 |

In more detail, `Bootstrap.InitLogger` states:

- It succeeds exactly when sink 0 exists and every `add` succeeds. Which targets can be written to is a parameter, `openable`: the console stream when `sys.__stdout__` exists (it is `None` in a process started without a console), and each log file that can be opened.
- Without sink 0 it raises at once and changes no sink.
- Otherwise the default sink is removed. Then the sinks of `BootstrapSinks` are appended up to the first `add` that raises, as `SinksRegistered` counts.
- Each `add` attempted uses up one id, including an `add` that raises, so the next id grows by `AddsAttempted`. Without sink 0 it does not change.
- In debug mode, once the console and file sinks are registered, exactly one warning is logged. At that moment exactly those two sinks are registered, and the trace sink is not yet.
- On success, the intercept handler becomes the root's only handler, at level 0. On failure the root is left as it was.

## Left out

- The Flask app, its route and `run()` (app.py:13-17, 71-73): HTTP service plumbing.
- `splash()` and the `__main__` block (app.py:61-69, 75-83): console output, `.env` loading, environment mutation and the `redirect_stdout` wiring. The environment is a parameter of `InitLogger`.
- loguru internals:
  - format templates, colour tags, time formatting, file naming and rotation;
  - threshold fan-out to sinks. A record only lists the sinks that were registered when it was emitted.
  - what a failed `add` leaves behind, such as a log file created before an unknown level name is rejected.
  - registering extra levels. The level table is loguru's built-in table.
- `Stream.StreamToLogger.Write` and `Intercept.Emit`: Python frame objects become a sequence of file names, and `exc_info` becomes an opaque payload.
- `Intercept.Emit`: `record.getMessage()` `%`-formatting is not modelled. The record carries the formatted message.
- `Loguru.Logger.Log`: loguru also returns at once, emitting nothing, when the level is below every sink's minimum. That is threshold filtering, which is not modelled, so `records` holds every record handed to the sinks.
- `Intercept.Emit`: when the walk runs off the end of the stack (depth equal to the stack's length), loguru cannot find the frame to attribute to. Depending on the loguru release it raises `ValueError` or attributes the record to an unknown file. The model records the depth and does not raise. `Frames.CallerDepthInsideStack` shows this cannot happen when the bottom frame is not the logging module's.
- Thread safety of concurrent `write` calls. That is concurrency, and it depends on loguru's sinks.
- `__init__.py`: its import-time reconfiguration of loguru (remove the default sink, add a stdout sink at the upper-cased `LOGLEVEL`) is not part of this model.
