/** The caller search of InterceptHandler.emit, over a stack of frame file names. */
module Frames {

  /**
   * d is the depth emit hands to loguru for `stack` (stack[0] is emit's own frame,
   * stack[k + 1] the caller of stack[k]): emit's frame is always passed over, then
   * every frame of the stdlib logging module's file, stopping at the first other
   * frame or at the bottom of the stack.
   */
  predicate IsCallerDepth(stack: seq<string>, loggingFile: string, d: nat)
  {
    && d <= |stack|
    && (stack != [] ==> 1 <= d)
    && (forall k :: 1 <= k < d ==> stack[k] == loggingFile)
    && (d == |stack| || (1 <= d && stack[d] != loggingFile))
  }

  /** The frame-walking loop of emit. */
  method FindCallerDepth(stack: seq<string>, loggingFile: string) returns (depth: nat)
    ensures IsCallerDepth(stack, loggingFile, depth)
  {
    depth := 0;
    while depth < |stack| && (depth == 0 || stack[depth] == loggingFile)
      invariant depth <= |stack|
      invariant forall k :: 1 <= k < depth ==> stack[k] == loggingFile
    {
      depth := depth + 1;
    }
  }

  /** The depth is determined by the stack: the loop's answer is the only one. */
  lemma CallerDepthUnique(stack: seq<string>, loggingFile: string, d1: nat, d2: nat)
    requires IsCallerDepth(stack, loggingFile, d1) && IsCallerDepth(stack, loggingFile, d2)
    ensures d1 == d2
  {
  }

  /**
   * A record logged from client code through the stdlib: emit's frame, the logging
   * module's frames, then the caller. The depth points at the caller's frame.
   */
  lemma AttributesToCaller(emitFile: string, loggingFile: string, n: nat, caller: string, rest: seq<string>, d: nat)
    requires caller != loggingFile
    requires IsCallerDepth([emitFile] + seq(n, _ => loggingFile) + [caller] + rest, loggingFile, d)
    ensures d == n + 1
    ensures ([emitFile] + seq(n, _ => loggingFile) + [caller] + rest)[d] == caller
  {
    var stack := [emitFile] + seq(n, _ => loggingFile) + [caller] + rest;
    assert IsCallerDepth(stack, loggingFile, n + 1);
    CallerDepthUnique(stack, loggingFile, d, n + 1);
  }

  /**
   * When the bottom frame of a stack of at least two frames is not the logging
   * module's, the walk stops inside the stack: the depth names an existing frame.
   */
  lemma CallerDepthInsideStack(stack: seq<string>, loggingFile: string, d: nat)
    requires |stack| >= 2 && stack[|stack| - 1] != loggingFile
    requires IsCallerDepth(stack, loggingFile, d)
    ensures d < |stack| && stack[d] != loggingFile
  {
  }
}
