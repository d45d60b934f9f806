/** Level filtering and line format of the logger (src/utils/logger.ts). Console output
    and its ANSI colours are not modelled; the clock's ISO timestamp is a parameter, and
    each extra argument is the string `String(arg)` or `JSON.stringify` made of it. */
module Logger {
  import opened Wrappers
  import opened Strings

  datatype Level = Debug | Info | Warn | Error

  /** The `levels` array of `shouldLog`, least severe first. */
  const LEVELS: seq<string> := ["debug", "info", "warn", "error"]
  const DEFAULT_LEVEL: string := "info"

  function Name(l: Level): (s: string)
    ensures s in LEVELS
  {
    match l
    case Debug => "debug"
    case Info => "info"
    case Warn => "warn"
    case Error => "error"
  }

  /** `level.toUpperCase()` for the four level names. */
  function Upper(l: Level): string {
    match l
    case Debug => "DEBUG"
    case Info => "INFO"
    case Warn => "WARN"
    case Error => "ERROR"
  }

  /** `levels.indexOf(s)`: the position of `s`, or -1 for any other string. */
  function IndexOf(s: string): (i: int)
    ensures -1 <= i < |LEVELS|
    ensures i >= 0 ==> LEVELS[i] == s
    ensures i == -1 <==> s !in LEVELS
  {
    if s == "debug" then 0
    else if s == "info" then 1
    else if s == "warn" then 2
    else if s == "error" then 3
    else -1
  }

  /** Severity rank of a level. */
  function Rank(l: Level): (i: nat)
    ensures i < |LEVELS| && LEVELS[i] == Name(l)
  {
    match l
    case Debug => 0
    case Info => 1
    case Warn => 2
    case Error => 3
  }

  /** The configured level: `LOG_LEVEL`, unless unset or empty, then 'info'. The cast
      in the source does not check it, so any string can end up configured. */
  function ConfiguredLevel(logLevelVar: Option<string>): (s: string)
    ensures logLevelVar.Some? && logLevelVar.value != "" ==> s == logLevelVar.value
    ensures logLevelVar.None? || logLevelVar.value == "" ==> s == DEFAULT_LEVEL
  {
    if logLevelVar.Some? && logLevelVar.value != "" then logLevelVar.value else DEFAULT_LEVEL
  }

  /** `shouldLog(level)`. */
  function ShouldLog(configured: string, l: Level): (b: bool)
    ensures configured in LEVELS ==> (b <==> Rank(l) >= IndexOf(configured))
    ensures configured !in LEVELS ==> b
  {
    IndexOf(Name(l)) >= IndexOf(configured)
  }

  /** Filtering is monotone in severity: a level that logs makes every more severe one log. */
  lemma ShouldLogMonotone(configured: string, l: Level, m: Level)
    requires Rank(l) <= Rank(m)
    requires ShouldLog(configured, l)
    ensures ShouldLog(configured, m)
  {
  }

  /** Errors always log. */
  lemma ErrorAlwaysLogs(configured: string)
    ensures ShouldLog(configured, Error)
  {
  }

  /** With nothing configured `info` is the threshold: debug lines are dropped and
      everything else is written. */
  lemma DefaultSuppressesOnlyDebug(l: Level)
    ensures ShouldLog(ConfiguredLevel(None), l) <==> l != Debug
  {
  }

  /** The fixed part of a line: `[timestamp] [LEVEL] message`. */
  function Header(timestamp: string, l: Level, message: string): string {
    "[" + timestamp + "] [" + Upper(l) + "] " + message
  }

  /** `formatMessage(level, message, ...args)` at time `timestamp`. */
  function FormatMessage(timestamp: string, l: Level, message: string, args: seq<string>): (r: string)
    ensures |args| == 0 ==> r == Header(timestamp, l, message)
    ensures |args| > 0 ==> r == Header(timestamp, l, message) + " " + Join(args, ' ')
  {
    var formattedArgs := if |args| > 0 then " " + Join(args, ' ') else "";
    "[" + timestamp + "] [" + Upper(l) + "] " + message + formattedArgs
  }

  /** A line opens with its bracketed timestamp, and its argument part splits
      back into the arguments when none holds a space. */
  lemma LineIsRecoverable(timestamp: string, l: Level, message: string, args: seq<string>)
    requires |args| > 0
    requires forall i :: 0 <= i < |args| ==> ' ' !in args[i]
    ensures var line := FormatMessage(timestamp, l, message, args);
      var head := Header(timestamp, l, message);
      && line[..|timestamp| + 2] == "[" + timestamp + "]"
      && line[..|head|] == head
      && Split(line[|head| + 1..], ' ') == args
  {
    SplitJoin(args, ' ');
    var line := FormatMessage(timestamp, l, message, args);
    var head := Header(timestamp, l, message);
    assert line[|head| + 1..] == Join(args, ' ');
  }
}
