/**
 * The two severity vocabularies InterceptHandler.emit bridges: loguru's named
 * levels and the stdlib logging module's numeric levels.
 */
module Levels {

  /** What emit hands to loguru's log: a level name, or a bare number. */
  datatype Level = Named(name: string) | Numeric(no: int)

  /** The levels loguru knows from import time, with their severities. */
  const LoguruLevels: map<string, int> :=
    map["TRACE" := 5, "DEBUG" := 10, "INFO" := 20, "SUCCESS" := 25,
        "WARNING" := 30, "ERROR" := 40, "CRITICAL" := 50]

  /** The names the stdlib logging module gives its standard numeric levels. */
  const StdlibNames: map<int, string> :=
    map[0 := "NOTSET", 10 := "DEBUG", 20 := "INFO", 30 := "WARNING", 40 := "ERROR", 50 := "CRITICAL"]

  /**
   * The levelname the stdlib gives a record of level `no`: the standard name, or
   * "Level <no>" for a number without one.
   */
  predicate IsStdlibName(name: string, no: int)
  {
    if no in StdlibNames then name == StdlibNames[no] else |name| >= 6 && name[..6] == "Level "
  }

  /** loguru's log accepts a known level name, or a number that is not negative. */
  predicate Accepted(known: map<string, int>, l: Level)
  {
    match l
    case Named(n) => n in known
    case Numeric(no) => no >= 0
  }

  /** The numeric severity loguru files a record of level l under. */
  function Severity(known: map<string, int>, l: Level): int
    requires Accepted(known, l)
  {
    match l
    case Named(n) => known[n]
    case Numeric(no) => no
  }

  /**
   * Level resolution in InterceptHandler.emit: the record's level name when the
   * logger knows it, and the record's number otherwise. It never fails, and the
   * result is accepted by log whenever the number is not negative.
   */
  function Resolve(known: map<string, int>, levelname: string, levelno: int): (l: Level)
    ensures l == Named(levelname) <==> levelname in known
    ensures l == Numeric(levelno) <==> levelname !in known
    ensures Accepted(known, l) <==> levelname in known || levelno >= 0
  {
    if levelname in known then Named(levelname) else Numeric(levelno)
  }

  lemma LevelPrefixNotLoguru(name: string)
    requires |name| >= 6 && name[..6] == "Level "
    ensures name !in LoguruLevels
  {
    assert name[0] == 'L';
    assert "DEBUG"[0] == 'D' && "SUCCESS"[0] == 'S' && "WARNING"[0] == 'W';
    assert "ERROR"[0] == 'E' && "CRITICAL"[0] == 'C';
  }

  /**
   * For every record the stdlib names, resolving against loguru's table keeps the
   * record's severity: a name both vocabularies share has the same number in both,
   * and any other name falls back to the number itself.
   */
  lemma ResolveKeepsSeverity(levelname: string, levelno: int)
    requires IsStdlibName(levelname, levelno)
    ensures Accepted(LoguruLevels, Resolve(LoguruLevels, levelname, levelno)) <==> levelno >= 0
    ensures levelno >= 0 ==> Severity(LoguruLevels, Resolve(LoguruLevels, levelname, levelno)) == levelno
  {
    if levelno !in StdlibNames {
      LevelPrefixNotLoguru(levelname);
    }
  }

  /** Resolution preserves the stdlib's order between any two records it names. */
  lemma ResolvePreservesOrder(name1: string, no1: int, name2: string, no2: int)
    requires IsStdlibName(name1, no1) && IsStdlibName(name2, no2)
    requires 0 <= no1 <= no2
    ensures Severity(LoguruLevels, Resolve(LoguruLevels, name1, no1)) <= Severity(LoguruLevels, Resolve(LoguruLevels, name2, no2))
  {
    ResolveKeepsSeverity(name1, no1);
    ResolveKeepsSeverity(name2, no2);
  }
}
