/** init_logger: the sink registration sequence run once at startup. */
module Bootstrap {
  import opened Wrappers
  import opened Levels
  import opened Loguru
  import opened StdLogging

  const LogLevelVar := "OBGW_LOGLEVEL"
  const DebugModeVar := "OBGW_DEBUG_MODE"
  const DebugWarning := "调试模式已启用。请谨慎在生产环境下使用！"

  /** os.getenv(name, default). */
  function GetEnv(env: map<string, string>, name: string, default: string): string
  {
    if name in env then env[name] else default
  }

  /** The level of the console and file sinks, passed to loguru as written. */
  function ConfiguredLevel(env: map<string, string>): string
  {
    GetEnv(env, LogLevelVar, "INFO")
  }

  /** Debug mode is on only when the variable is exactly the string "True". */
  predicate DebugMode(env: map<string, string>)
  {
    DebugModeVar in env && env[DebugModeVar] == "True"
  }

  /** The sinks init_logger adds, in order, starting from id `firstId`. */
  function BootstrapSinks(env: map<string, string>, firstId: nat): seq<Sink>
  {
    var level := ConfiguredLevel(env);
    [Sink(firstId, Stdout, level, Standard), Sink(firstId + 1, LogFile, level, Standard)]
    + (if DebugMode(env) then [Sink(firstId + 2, DebugLogFile, "TRACE", Extended)] else [])
  }

  /**
   * Two sinks at the configured level, console then file; in debug mode a third,
   * the trace file at TRACE. All of them get ids from `firstId` on.
   */
  lemma BootstrapSinksShape(env: map<string, string>, firstId: nat)
    ensures var sinks := BootstrapSinks(env, firstId);
      && |sinks| == (if DebugMode(env) then 3 else 2)
      && (forall k :: 0 <= k < |sinks| ==> sinks[k].id == firstId + k)
      && sinks[0].target == Stdout && sinks[1].target == LogFile
      && sinks[0].level == sinks[1].level == ConfiguredLevel(env)
      && (DebugMode(env) ==> sinks[2].target == DebugLogFile && sinks[2].level == "TRACE")
  {
  }

  /**
   * From the logger as imported, init_logger leaves no default sink and two sinks,
   * or three in debug mode, when it succeeds.
   */
  lemma FreshBootstrap(env: map<string, string>)
    ensures var sinks := Without([DefaultSink], 0) + BootstrapSinks(env, 1);
      && !HasSink(sinks, 0)
      && |sinks| == (if DebugMode(env) then 3 else 2)
      && (DebugMode(env) ==> sinks[2].level == "TRACE")
  {
    assert Without([DefaultSink], 0) == [];
  }

  /**
   * The console add succeeds: sys.__stdout__ exists (it is None in a process started
   * without a console, and loguru rejects a None sink) and the level name is known.
   * `openable` holds the targets that can be written to: the console stream when it
   * exists, and each log file that can be opened.
   */
  predicate ConsoleAdded(env: map<string, string>, openable: set<Target>)
  {
    Stdout in openable && ConfiguredLevel(env) in LoguruLevels
  }

  /**
   * How many of BootstrapSinks(env, _) init_logger registers once sink 0 is gone:
   * it stops at the first add that raises, on a missing console, an unknown level
   * name or a log file in `openable`'s complement.
   */
  function SinksRegistered(env: map<string, string>, openable: set<Target>): nat
  {
    if !ConsoleAdded(env, openable) then 0
    else if LogFile !in openable then 1
    else if DebugMode(env) && DebugLogFile in openable then 3
    else 2
  }

  /**
   * How many adds init_logger attempts once sink 0 is gone; each uses up an id,
   * also the one that raises: it stops after the console add on a missing console
   * or an unknown level name, after the file add when the log file cannot be opened, and otherwise
   * attempts the trace add in debug mode.
   */
  function AddsAttempted(env: map<string, string>, openable: set<Target>): nat
  {
    if !ConsoleAdded(env, openable) then 1
    else if LogFile !in openable then 2
    else if DebugMode(env) then 3
    else 2
  }

  /** Every add of init_logger succeeds. */
  predicate Completes(env: map<string, string>, openable: set<Target>)
  {
    ConsoleAdded(env, openable) && LogFile in openable && (DebugMode(env) ==> DebugLogFile in openable)
  }

  /** init_logger reaches the debug warning: debug mode, and both first sinks were added. */
  predicate ReachesWarning(env: map<string, string>, openable: set<Target>)
  {
    DebugMode(env) && ConsoleAdded(env, openable) && LogFile in openable
  }

  /**
   * init_logger registers every planned sink exactly when all its adds succeed, and
   * otherwise stops short of the plan.
   */
  lemma SinksRegisteredBound(env: map<string, string>, openable: set<Target>, firstId: nat)
    ensures SinksRegistered(env, openable) <= |BootstrapSinks(env, firstId)|
    ensures Completes(env, openable) <==> SinksRegistered(env, openable) == |BootstrapSinks(env, firstId)|
  {
  }

  /**
   * Every add init_logger attempts registers its sink except, when some add
   * raises, that last one: the ids used up are the sinks added plus one failure.
   */
  lemma AddsAttemptedCount(env: map<string, string>, openable: set<Target>)
    ensures AddsAttempted(env, openable) == SinksRegistered(env, openable) + (if Completes(env, openable) then 0 else 1)
  {
  }

  lemma SinkIdsAppend(xs: seq<Sink>, ys: seq<Sink>)
    ensures SinkIds(xs + ys) == SinkIds(xs) + SinkIds(ys)
  {
  }

  /**
   * The adds of init_logger, after the default sink is gone: the console and file
   * sinks, then in debug mode the warning, logged while exactly those two new sinks
   * are registered, and the trace sink. It stops at the first add that raises.
   */
  method AddConfiguredSinks(logger: Logger, env: map<string, string>, openable: set<Target>) returns (ok: bool)
    requires logger.Valid()
    modifies logger
    ensures logger.Valid()
    ensures ok <==> Completes(env, openable)
    ensures logger.sinks == old(logger.sinks) + BootstrapSinks(env, old(logger.nextId))[..SinksRegistered(env, openable)]
    ensures logger.nextId == old(logger.nextId) + AddsAttempted(env, openable)
    ensures logger.records == old(logger.records) +
      (if ReachesWarning(env, openable)
       then [Record(Named("WARNING"), DebugWarning, 0, None,
                    SinkIds(old(logger.sinks)) + [old(logger.nextId), old(logger.nextId) + 1])]
       else [])
  {
    ghost var kept := logger.sinks;
    ghost var first := logger.nextId;
    ghost var planned := BootstrapSinks(env, first);
    var level := ConfiguredLevel(env);
    ok := logger.Add(Stdout, level, Standard, Stdout in openable);
    if !ok {
      return;
    }
    ok := logger.Add(LogFile, level, Standard, LogFile in openable);
    if !ok {
      assert logger.sinks == kept + planned[..1];
      return;
    }
    assert logger.sinks == kept + planned[..2];
    if DebugMode(env) {
      var warned := logger.Log(Named("WARNING"), DebugWarning, 0, None);
      SinkIdsAppend(kept, planned[..2]);
      assert SinkIds(planned[..2]) == [first, first + 1];
      ok := logger.Add(DebugLogFile, "TRACE", Extended, DebugLogFile in openable);
      if !ok {
        return;
      }
      assert logger.sinks == kept + planned[..3];
    }
  }

  /**
   * init_logger. remove(0) raises when there is no sink 0; each add raises on an
   * unknown level name or a target that cannot be written to (not in `openable`:
   * a missing console stream or a log file that cannot be opened), leaving the state of that moment. In order: the default sink goes,
   * the console and file sinks are added, in debug mode one warning is logged while
   * exactly those are registered and then the trace sink is added, and finally the
   * intercept handler replaces the stdlib root's handlers at level 0.
   */
  method InitLogger(logger: Logger, root: Root, env: map<string, string>, openable: set<Target>) returns (ok: bool)
    requires logger.Valid()
    modifies logger, root
    ensures logger.Valid()
    ensures ok <==> HasSink(old(logger.sinks), 0) && Completes(env, openable)
    ensures !HasSink(old(logger.sinks), 0) ==> logger.sinks == old(logger.sinks)
    ensures HasSink(old(logger.sinks), 0) ==>
      logger.sinks == Without(old(logger.sinks), 0) + BootstrapSinks(env, old(logger.nextId))[..SinksRegistered(env, openable)]
    ensures logger.nextId == old(logger.nextId) + (if HasSink(old(logger.sinks), 0) then AddsAttempted(env, openable) else 0)
    ensures ok ==> !HasSink(logger.sinks, 0)
    ensures logger.records == old(logger.records) +
      (if HasSink(old(logger.sinks), 0) && ReachesWarning(env, openable)
       then [Record(Named("WARNING"), DebugWarning, 0, None,
                    SinkIds(Without(old(logger.sinks), 0)) + [old(logger.nextId), old(logger.nextId) + 1])]
       else [])
    ensures ok ==> root.handlers == [InterceptHandler] && root.level == 0
    ensures !ok ==> root.handlers == old(root.handlers) && root.level == old(root.level)
  {
    ok := logger.Remove(0);
    if !ok {
      return;
    }
    ok := AddConfiguredSinks(logger, env, openable);
    if ok {
      root.BasicConfig([InterceptHandler], 0, true);
    }
  }
}
