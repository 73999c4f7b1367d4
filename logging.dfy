/**
 * The logging options of pkg/logging/logging.go: defaulting and checking
 * the "level" and "format" options, checking a driver's options against
 * its whitelists, picking one driver's options out of all of them, the
 * driver loop of SetupLogging, CanLogAt and MultiLine.
 *
 * logrus itself is not part of this model: its level parser is a parameter
 * (an arbitrary partial function from strings to levels), and a logger is
 * reduced to the level and format SetupLogging gives it.
 */
module Logging {
  import opened Wrappers
  import opened Text

  /** logrus.Level, a uint32: a larger level logs more. */
  newtype Level = x: int | 0 <= x < 0x1_0000_0000

  const PanicLevel: Level := 0
  const FatalLevel: Level := 1
  const ErrorLevel: Level := 2
  const WarnLevel: Level := 3
  const InfoLevel: Level := 4
  const DebugLevel: Level := 5
  const TraceLevel: Level := 6

  datatype LogFormat = FormatText | FormatJson

  const Syslog := "syslog"
  const LevelOpt := "level"
  const FormatOpt := "format"

  const DefaultLogFormat := FormatText
  const DefaultLogLevel := InfoLevel

  /** Configuration key-value pairs related to logging. */
  type LogOptions = map<string, string>

  datatype OptError =
    | UnsupportedKey(key: string, driver: string)
    | InvalidValue(value: string, key: string, driver: string, validValues: seq<string>)

  datatype LogError =
    | SyslogFailed(reason: string)        // "failed to set up syslog"
    | UnsupportedDriver(name: string)     // "is not a supported log driver"

  // -------------------------------------------------------------------
  // GetLogLevel and GetLogFormat
  // -------------------------------------------------------------------

  /**
   * GetLogLevel, with logrus.ParseLevel as parseLevel: the configured level
   * when there is one that parses, the default level otherwise.
   */
  function GetLogLevel(o: LogOptions, parseLevel: string -> Option<Level>): (level: Level)
    ensures LevelOpt !in o ==> level == DefaultLogLevel
    ensures LevelOpt in o && parseLevel(o[LevelOpt]).None? ==> level == DefaultLogLevel
    ensures LevelOpt in o && parseLevel(o[LevelOpt]).Some? ==> level == parseLevel(o[LevelOpt]).value
  {
    if LevelOpt !in o then DefaultLogLevel
    else
      match parseLevel(o[LevelOpt])
      case None => DefaultLogLevel
      case Some(l) => l
  }

  /**
   * strings.ToLower on the ASCII letters. Other characters are left as
   * they are; none of them lowers to a letter of "text" or "json", so this
   * decides the format test exactly as the full Unicode mapping does.
   */
  function ToLower(s: string): (r: string)
    ensures |r| == |s|
    ensures forall i :: 0 <= i < |s| ==> r[i] == LowerChar(s[i])
  {
    if s == [] then []
    else [LowerChar(s[0])] + ToLower(s[1..])
  }

  /** An upper-case ASCII letter lowered, any other character unchanged. */
  function LowerChar(c: char): char {
    if 'A' <= c <= 'Z' then (c as int + 32) as char else c
  }

  /** The name of a format, the string that selects it. */
  function FormatName(f: LogFormat): string {
    match f
    case FormatText => "text"
    case FormatJson => "json"
  }

  /** `^(text|json)$`: Go's `$` matches only at the very end of the text. */
  predicate IsFormatName(s: string) {
    s == "text" || s == "json"
  }

  /**
   * GetLogFormat: the configured format, lower-cased, when it is "text" or
   * "json"; the default format when it is absent or anything else.
   */
  function GetLogFormat(o: LogOptions): (f: LogFormat)
    ensures FormatOpt !in o ==> f == DefaultLogFormat
    ensures FormatOpt in o ==> (f == FormatJson <==> ToLower(o[FormatOpt]) == "json")
    ensures FormatOpt in o && IsFormatName(ToLower(o[FormatOpt])) ==> FormatName(f) == ToLower(o[FormatOpt])
  {
    if FormatOpt !in o then DefaultLogFormat
    else
      var formatOpt := ToLower(o[FormatOpt]);
      if !IsFormatName(formatOpt) then DefaultLogFormat
      else if formatOpt == "json" then FormatJson
      else FormatText
  }

  lemma {:induction false} ToLowerIdempotent(s: string)
    ensures ToLower(ToLower(s)) == ToLower(s)
  {
    if s != [] {
      ToLowerIdempotent(s[1..]);
      assert ToLower(s)[1..] == ToLower(s[1..]);
    }
  }

  /**
   * The format test ignores case: a value and its lower-cased form select
   * the same format.
   */
  lemma {:induction false} GetLogFormatIgnoresCase(o: LogOptions, v: string)
    ensures GetLogFormat(o[FormatOpt := v]) == GetLogFormat(o[FormatOpt := ToLower(v)])
  {
    ToLowerIdempotent(v);
  }

  /** Every format is selected by its own name, in any case. */
  lemma {:induction false} FormatNameSelects(o: LogOptions, f: LogFormat)
    ensures GetLogFormat(o[FormatOpt := FormatName(f)]) == f
    ensures GetLogFormat(o[FormatOpt := "JSON"]) == FormatJson
    ensures GetLogFormat(o[FormatOpt := "Text"]) == FormatText
  {
    Lowered("text", "text");
    Lowered("json", "json");
    Lowered("JSON", "json");
    Lowered("Text", "text");
    assert ToLower(FormatName(f)) == FormatName(f);
  }

  /** ToLower(s) is t, checked one character at a time. */
  lemma {:induction false} Lowered(s: string, t: string)
    requires |s| == |t| && forall i :: 0 <= i < |s| ==> LowerChar(s[i]) == t[i]
    ensures ToLower(s) == t
  {
  }

  // -------------------------------------------------------------------
  // validateOpts
  // -------------------------------------------------------------------

  /** supportedOpts[k], where a missing key reads as false. */
  predicate Supported(supportedOpts: map<string, bool>, k: string) {
    k in supportedOpts && supportedOpts[k]
  }

  /** A key with a list of valid values carries one of them. */
  predicate ValueAllowed(validKVs: map<string, seq<string>>, k: string, v: string) {
    k in validKVs ==> v in validKVs[k]
  }

  predicate OptsValid(o: LogOptions, supportedOpts: map<string, bool>, validKVs: map<string, seq<string>>) {
    forall k :: k in o ==> Supported(supportedOpts, k) && ValueAllowed(validKVs, k, o[k])
  }

  /** e describes a real fault of the options. */
  predicate IsViolation(o: LogOptions, logDriver: string, supportedOpts: map<string, bool>,
                        validKVs: map<string, seq<string>>, e: OptError) {
    match e
    case UnsupportedKey(k, d) =>
      d == logDriver && k in o && !Supported(supportedOpts, k)
    case InvalidValue(v, k, d, vs) =>
      && d == logDriver && k in o && o[k] == v && Supported(supportedOpts, k)
      && k in validKVs && vs == validKVs[k] && v !in vs
  }

  /**
   * validateOpts: no error exactly when every key is supported and every
   * key with a list of valid values carries one of them. Go visits the
   * keys in no fixed order, so which fault is reported when there are
   * several is not determined; whichever it is, it is a real one.
   */
  method ValidateOpts(o: LogOptions, logDriver: string, supportedOpts: map<string, bool>,
                      validKVs: map<string, seq<string>>) returns (err: Option<OptError>)
    ensures err.None? <==> OptsValid(o, supportedOpts, validKVs)
    ensures err.Some? ==> IsViolation(o, logDriver, supportedOpts, validKVs, err.value)
  {
    var keys := o.Keys;
    while keys != {}
      invariant keys <= o.Keys
      invariant forall k :: k in o && k !in keys ==> Supported(supportedOpts, k) && ValueAllowed(validKVs, k, o[k])
      decreases keys
    {
      var k :| k in keys;
      var v := o[k];
      var supported := if k in supportedOpts then supportedOpts[k] else false;
      if !supported {
        return Some(UnsupportedKey(k, logDriver));
      }
      if k in validKVs {
        var validValues := validKVs[k];
        var valid := false;
        var j := 0;
        while j < |validValues|
          invariant 0 <= j <= |validValues|
          invariant !valid && v !in validValues[..j]
        {
          if v == validValues[j] {
            valid := true;
            break;
          }
          j := j + 1;
        }
        assert valid <==> v in validValues by {
          if !valid { assert validValues[..j] == validValues; }
        }
        if !valid {
          return Some(InvalidValue(v, k, logDriver, validValues));
        }
      }
      keys := keys - {k};
    }
    return None;
  }

  /** Empty options always pass. */
  lemma {:induction false} EmptyOptionsAreValid(supportedOpts: map<string, bool>, validKVs: map<string, seq<string>>)
    ensures OptsValid(map[], supportedOpts, validKVs)
  {
  }

  // -------------------------------------------------------------------
  // getLogDriverConfig
  // -------------------------------------------------------------------

  /** The characters Go's regexp syntax treats specially. */
  predicate NoRegexMeta(s: string) {
    forall i :: 0 <= i < |s| ==> s[i] !in "\\.+*?()|[]{}^$"
  }

  /**
   * getLogDriverConfig for a driver name without regexp metacharacters:
   * the unanchored pattern logDriver + ".*" then matches exactly the keys
   * that contain the driver name. The result keeps those keys, with their
   * values, and no others.
   */
  method GetLogDriverConfig(logDriver: string, logOpts: LogOptions) returns (keysToValidate: LogOptions)
    requires NoRegexMeta(logDriver)
    ensures keysToValidate.Keys <= logOpts.Keys
    ensures forall k :: k in keysToValidate ==> keysToValidate[k] == logOpts[k]
    ensures forall k :: k in logOpts ==> (k in keysToValidate <==> IsInfix(logDriver, k))
  {
    keysToValidate := map[];
    var keys := logOpts.Keys;
    while keys != {}
      invariant keys <= logOpts.Keys
      invariant keysToValidate.Keys <= logOpts.Keys - keys
      invariant forall k :: k in keysToValidate ==> keysToValidate[k] == logOpts[k]
      invariant forall k :: k in logOpts && k !in keys ==> (k in keysToValidate <==> IsInfix(logDriver, k))
      decreases keys
    {
      var k :| k in keys;
      var v := logOpts[k];
      var ok := IsInfix(logDriver, k);
      if ok {
        keysToValidate := keysToValidate[k := v];
      }
      keys := keys - {k};
    }
  }

  // -------------------------------------------------------------------
  // The driver loop of SetupLogging
  // -------------------------------------------------------------------

  /**
   * The result of the driver loop over loggers, when setupSyslog has already
   * been called calls times; setupSyslog(n) is what its call number n
   * (counted from 0) returns.
   */
  function DriverOutcome(loggers: seq<string>, setupSyslog: nat -> Option<string>, calls: nat): (r: Option<LogError>)
    ensures r.Some? && r.value.SyslogFailed? ==>
      Syslog in loggers && exists k :: calls <= k < calls + |loggers| && setupSyslog(k) == Some(r.value.reason)
  {
    if loggers == [] then None
    else if loggers[0] == Syslog then
      if setupSyslog(calls).Some? then Some(SyslogFailed(setupSyslog(calls).value))
      else DriverOutcome(loggers[1..], setupSyslog, calls + 1)
    else Some(UnsupportedDriver(loggers[0]))
  }

  /**
   * The loop succeeds exactly when every driver is syslog and every one of
   * the calls to setupSyslog, one per driver, succeeds; no drivers at all
   * is no error.
   */
  lemma {:induction false} DriverLoopSucceeds(loggers: seq<string>, setupSyslog: nat -> Option<string>, calls: nat)
    ensures DriverOutcome(loggers, setupSyslog, calls).None? <==>
      && (forall i :: 0 <= i < |loggers| ==> loggers[i] == Syslog)
      && (forall n :: calls <= n < calls + |loggers| ==> setupSyslog(n).None?)
  {
    if loggers != [] && loggers[0] == Syslog && setupSyslog(calls).None? {
      DriverLoopSucceeds(loggers[1..], setupSyslog, calls + 1);
      assert forall i :: 1 <= i < |loggers| ==> loggers[i] == loggers[1..][i - 1];
    }
  }

  /**
   * The loop stops at the first driver that is not syslog and names it,
   * when every syslog driver before it set up.
   */
  lemma {:induction false} DriverLoopStopsAtFirstUnsupported(loggers: seq<string>, setupSyslog: nat -> Option<string>,
                                                             calls: nat, k: nat)
    requires k < |loggers| && loggers[k] != Syslog
    requires forall j :: 0 <= j < k ==> loggers[j] == Syslog && setupSyslog(calls + j).None?
    ensures DriverOutcome(loggers, setupSyslog, calls) == Some(UnsupportedDriver(loggers[k]))
  {
    if k > 0 {
      assert loggers[0] == Syslog && setupSyslog(calls + 0).None?;
      DriverLoopStopsAtFirstUnsupported(loggers[1..], setupSyslog, calls + 1, k - 1);
    }
  }

  /**
   * The loop stops at the first failing setupSyslog call and reports its
   * error, even when earlier calls succeeded.
   */
  lemma {:induction false} DriverLoopStopsAtFirstSyslogFailure(loggers: seq<string>, setupSyslog: nat -> Option<string>,
                                                               calls: nat, k: nat)
    requires k < |loggers| && loggers[k] == Syslog && setupSyslog(calls + k).Some?
    requires forall j :: 0 <= j < k ==> loggers[j] == Syslog && setupSyslog(calls + j).None?
    ensures DriverOutcome(loggers, setupSyslog, calls) == Some(SyslogFailed(setupSyslog(calls + k).value))
  {
    if k > 0 {
      assert loggers[0] == Syslog && setupSyslog(calls + 0).None?;
      DriverLoopStopsAtFirstSyslogFailure(loggers[1..], setupSyslog, calls + 1, k - 1);
    }
  }

  /** The only error that can name a driver names one that is not syslog. */
  lemma {:induction false} UnsupportedDriverIsListed(loggers: seq<string>, setupSyslog: nat -> Option<string>, calls: nat)
    ensures DriverOutcome(loggers, setupSyslog, calls).Some? && DriverOutcome(loggers, setupSyslog, calls).value.UnsupportedDriver? ==>
      var d := DriverOutcome(loggers, setupSyslog, calls).value.name;
      d != Syslog && d in loggers
  {
    if loggers != [] && loggers[0] == Syslog && setupSyslog(calls).None? {
      UnsupportedDriverIsListed(loggers[1..], setupSyslog, calls + 1);
    }
  }

  /**
   * DefaultLogger: the process-wide logger, reduced to its level and its
   * format.
   */
  class Logger {
    var level: Level
    var format: LogFormat

    /** InitializeDefaultLogger. */
    constructor ()
      ensures level == DefaultLogLevel && format == DefaultLogFormat
    {
      level := DefaultLogLevel;
      format := DefaultLogFormat;
    }

    method SetLogLevel(logLevel: Level)
      modifies this`level
      ensures level == logLevel
    {
      level := logLevel;
    }

    method SetDefaultLogLevel()
      modifies this`level
      ensures level == DefaultLogLevel
    {
      level := DefaultLogLevel;
    }

    method SetLogLevelToDebug()
      modifies this`level
      ensures level == DebugLevel
    {
      level := DebugLevel;
    }

    method SetLogFormat(logFormat: LogFormat)
      modifies this`format
      ensures format == logFormat
    {
      format := logFormat;
    }

    method SetDefaultLogFormat()
      modifies this`format
      ensures format == DefaultLogFormat
    {
      format := DefaultLogFormat;
    }

    /**
     * SetupLogging: the format from the options, the level from the options
     * or Debug when debug is set, then every driver in turn, stopping at the
     * first one that fails.
     */
    method SetupLogging(loggers: seq<string>, logOpts: LogOptions, debug: bool,
                        parseLevel: string -> Option<Level>, setupSyslog: nat -> Option<string>)
      returns (err: Option<LogError>)
      modifies this
      ensures format == GetLogFormat(logOpts)
      ensures level == if debug then DebugLevel else GetLogLevel(logOpts, parseLevel)
      ensures err == DriverOutcome(loggers, setupSyslog, 0)
    {
      SetLogFormat(GetLogFormat(logOpts));
      if debug {
        SetLogLevelToDebug();
      } else {
        SetLogLevel(GetLogLevel(logOpts, parseLevel));
      }
      var i := 0;
      while i < |loggers|
        invariant 0 <= i <= |loggers|
        invariant DriverOutcome(loggers[i..], setupSyslog, i) == DriverOutcome(loggers, setupSyslog, 0)
      {
        var logger := loggers[i];
        if logger == Syslog {
          // Every driver before this one was syslog: this is call number i.
          var e := setupSyslog(i);
          if e.Some? {
            return Some(SyslogFailed(e.value));
          }
        } else {
          return Some(UnsupportedDriver(logger));
        }
        assert loggers[i..][1..] == loggers[i + 1..];
        i := i + 1;
      }
      return None;
    }
  }

  /** GetLevel: the level of a logger. */
  function GetLevel(logger: Logger): (l: Level)
    reads logger
    ensures l == logger.level
  {
    logger.level
  }

  /**
   * CanLogAt: a message at level is logged exactly when the logger's level
   * is at least that level.
   */
  function CanLogAt(logger: Logger, level: Level): (r: bool)
    reads logger
    ensures r <==> logger.level >= level
  {
    GetLevel(logger) >= level
  }

  /** A logger that logs at some level logs at every more severe one. */
  lemma {:induction false} CanLogAtMoreSevere(logger: Logger, level: Level, severer: Level)
    requires CanLogAt(logger, level) && severer <= level
    ensures CanLogAt(logger, severer)
  {
  }

  // -------------------------------------------------------------------
  // MultiLine
  // -------------------------------------------------------------------

  /** bufio.ScanLines drops one carriage return before the end of a line. */
  function DropCR(s: string): string {
    if s != [] && s[|s| - 1] == '\r' then s[..|s| - 1] else s
  }

  /**
   * The lines a bufio.Scanner with ScanLines yields: the text split at each
   * newline, a trailing carriage return dropped from each line, and a last
   * line without a newline kept when it is not empty.
   */
  function Lines(s: string): (r: seq<string>)
    ensures |r| <= |s|
    ensures r == [] <==> s == []
    decreases |s|
  {
    if s == [] then []
    else
      var i := IndexOf(s, '\n');
      [DropCR(s[..i])] + (if i == |s| then [] else Lines(s[i + 1..]))
  }

  /** Each line followed by a newline. */
  function Unlines(lines: seq<string>): string {
    if lines == [] then [] else lines[0] + "\n" + Unlines(lines[1..])
  }

  /** No line holds a newline. */
  lemma {:induction false} LinesHaveNoNewline(s: string)
    ensures forall k :: 0 <= k < |Lines(s)| ==> '\n' !in Lines(s)[k]
    decreases |s|
  {
    if s != [] {
      var i := IndexOf(s, '\n');
      if i == |s| {
        assert s[..i] == s;
      } else {
        LinesHaveNoNewline(s[i + 1..]);
      }
    }
  }

  /** The text with a newline added when its last line is not terminated. */
  function Terminated(s: string): string {
    if s == [] || s[|s| - 1] == '\n' then s else s + "\n"
  }

  /**
   * Without carriage returns, the lines put back together with a newline
   * after each give the text back, plus a newline when its last line was
   * not terminated: no text is lost or reordered.
   */
  lemma {:induction false} UnlinesLines(s: string)
    requires '\r' !in s
    ensures Unlines(Lines(s)) == Terminated(s)
    decreases |s|
  {
    if s != [] {
      var i := IndexOf(s, '\n');
      var line := s[..i];
      NoCRLineKept(line);
      if i == |s| {
        assert line == s;
        assert Lines(s) == [s] + [];
        UnlinesCons(s, []);
        assert s[|s| - 1] in line;
      } else {
        var rest := s[i + 1..];
        assert Lines(s) == [line] + Lines(rest);
        UnlinesCons(line, Lines(rest));
        UnlinesLines(rest);
        TerminatedCons(s, i);
      }
    }
  }

  lemma {:induction false} TerminatedCons(s: string, i: nat)
    requires i < |s| && s[i] == '\n'
    ensures Terminated(s) == s[..i] + "\n" + Terminated(s[i + 1..])
  {
    var line, rest := s[..i], s[i + 1..];
    assert s[i..] == [s[i]] + rest;
    assert s == line + s[i..];
    if rest != [] {
      assert s[|s| - 1] == rest[|rest| - 1];
      assert line + "\n" + (rest + "\n") == s + "\n";
    }
  }

  lemma {:induction false} UnlinesCons(line: string, lines: seq<string>)
    ensures Unlines([line] + lines) == line + "\n" + Unlines(lines)
  {
    assert ([line] + lines)[1..] == lines;
  }

  lemma {:induction false} NoCRLineKept(s: string)
    requires '\r' !in s
    ensures DropCR(s) == s
  {
    if s != [] {
      assert s[|s| - 1] in s;
    }
  }

  /**
   * MultiLine: logFn is called once per line, in order; the result is the
   * sequence of the lines it was called with.
   */
  method MultiLine(output: string) returns (logged: seq<string>)
    ensures logged == Lines(output)
  {
    logged := [];
    var pos := 0;
    assert output[pos..] == output;
    while pos < |output|
      invariant 0 <= pos <= |output|
      invariant logged + Lines(output[pos..]) == Lines(output)
      decreases |output| - pos
    {
      var rest := output[pos..];
      var i := IndexOf(rest, '\n');
      ghost var before := logged;
      logged := logged + [DropCR(rest[..i])];
      if i == |rest| {
        pos := |output|;
      } else {
        pos := pos + i + 1;
        assert output[pos..] == rest[i + 1..];
      }
      assert before + Lines(rest) == Lines(output);
    }
  }
}
