/** The part of the stdlib logging module the bridge touches: records and the root logger's configuration. */
module StdLogging {
  import opened Wrappers

  /** A stdlib LogRecord as emit reads it; `message` is what getMessage() returns. */
  datatype LogRecord = LogRecord(levelname: string, levelno: int, message: string, excInfo: Option<string>)

  datatype Handler = InterceptHandler | OtherHandler(name: string)

  class Root {
    var handlers: seq<Handler>
    var level: int

    constructor (handlers: seq<Handler>, level: int)
      ensures this.handlers == handlers && this.level == level
    {
      this.handlers := handlers;
      this.level := level;
    }

    /**
     * logging.basicConfig(handlers=..., level=..., force=...): does nothing when the
     * root logger already has handlers, unless force is set; then the given
     * handlers replace all others and the root level is set.
     */
    method BasicConfig(hs: seq<Handler>, lvl: int, force: bool)
      modifies this
      ensures if force || old(handlers) == [] then handlers == hs && level == lvl
              else handlers == old(handlers) && level == old(level)
    {
      if force || handlers == [] {
        handlers := hs;
        level := lvl;
      }
    }
  }
}
