/** InterceptHandler.emit: re-emits a stdlib record through loguru. */
module Intercept {
  import opened Levels
  import opened Frames
  import opened Loguru
  import opened StdLogging

  /**
   * Resolves the level, finds the caller's depth in `stack` (stack[0] being emit's
   * own frame, `loggingFile` the stdlib logging module's file) and logs one record
   * with the record's message and exception. With no sink registered nothing is
   * emitted; otherwise loguru raises only when the name is unknown and the number
   * negative.
   */
  method Emit(logger: Logger, record: LogRecord, stack: seq<string>, loggingFile: string) returns (ok: bool)
    modifies logger
    ensures ok <==> logger.sinks == [] || record.levelname in LoguruLevels || record.levelno >= 0
    ensures logger.sinks == old(logger.sinks) && logger.nextId == old(logger.nextId)
    ensures |logger.records| ==
      |old(logger.records)| + (if logger.sinks != [] && ok then 1 else 0)
    ensures logger.records[..|old(logger.records)|] == old(logger.records)
    ensures logger.sinks != [] && ok ==>
      var r := logger.records[|old(logger.records)|];
      && r.level == Resolve(LoguruLevels, record.levelname, record.levelno)
      && IsCallerDepth(stack, loggingFile, r.depth)
      && r.message == record.message
      && r.exception == record.excInfo
      && r.sinkIds == SinkIds(logger.sinks)
  {
    var level := Resolve(LoguruLevels, record.levelname, record.levelno);
    var depth := FindCallerDepth(stack, loggingFile);
    ok := logger.Log(level, record.message, depth, record.excInfo);
  }
}
