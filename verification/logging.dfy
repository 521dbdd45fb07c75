/**
 * The operator command line's log-level selection (`setupLogger`'s level
 * switch, `validLogLevels`) and the help-text decoration of unstable flags
 * (`unstableFlagHelp`). The logger itself is represented only by the level
 * threshold its filter is built with.
 */
module Logging {
  import opened Wrappers
  import Strings

  const LogLevelDebug: string := "debug"
  const LogLevelInfo: string := "info"
  const LogLevelWarn: string := "warn"
  const LogLevelError: string := "error"

  /** The accepted values of `--log-level`, in this order. */
  const ValidLogLevels: seq<string> := [LogLevelDebug, LogLevelInfo, LogLevelWarn, LogLevelError]

  /** The default of `--log-level`. */
  const DefaultLogLevel: string := LogLevelInfo

  /** The separator the accepted values are listed with. */
  const LevelSeparator: string := ", "

  /** The threshold of a level filter: `level.AllowDebug()` … `level.AllowError()`. */
  datatype LogLevel = Debug | Info | Warn | Error

  /** The `--log-level` spelling of a threshold. */
  function Name(l: LogLevel): string {
    match l
    case Debug => LogLevelDebug
    case Info => LogLevelInfo
    case Warn => LogLevelWarn
    case Error => LogLevelError
  }

  /** Severity rank: a filter at a threshold lets through entries of that rank and above. */
  function Rank(l: LogLevel): nat {
    match l
    case Debug => 0
    case Info => 1
    case Warn => 2
    case Error => 3
  }

  /** Whether a filter built with `threshold` lets an entry logged at `entry` through. */
  predicate Allows(threshold: LogLevel, entry: LogLevel) {
    Rank(threshold) <= Rank(entry)
  }

  /** The unknown-level error: the rejected input and the listing of accepted values. */
  datatype LevelError = UnknownLevel(given: string, accepted: string)

  /** The level decision of `setupLogger`: a filter threshold, or the unknown-level error. */
  function SetupLogger(lvl: string): (r: Result<LogLevel, LevelError>)
    ensures r.Success? <==> lvl in ValidLogLevels
    ensures r.Success? ==> Name(r.value) == lvl
    ensures r.Failure? ==> r.error.given == lvl && r.error.accepted == Strings.Join(ValidLogLevels, LevelSeparator)
  {
    if lvl == LogLevelDebug then Success(Debug)
    else if lvl == LogLevelInfo then Success(Info)
    else if lvl == LogLevelWarn then Success(Warn)
    else if lvl == LogLevelError then Success(Error)
    else Failure(UnknownLevel(lvl, Strings.Join(ValidLogLevels, LevelSeparator)))
  }

  /** Every threshold is selected by its own name, and by no other. */
  lemma SetupLoggerNames(l: LogLevel, lvl: string)
    ensures SetupLogger(Name(l)) == Success(l)
    ensures SetupLogger(lvl) == Success(l) ==> lvl == Name(l)
  {
  }

  /** `validLogLevels` lists every threshold's name exactly once, in rank order. */
  lemma ValidLogLevelsInRankOrder(l: LogLevel, l': LogLevel)
    ensures |ValidLogLevels| == 4
    ensures ValidLogLevels[Rank(l)] == Name(l)
    ensures l != l' ==> Name(l) != Name(l') && Rank(l) != Rank(l')
  {
  }

  /** The four thresholds are strictly ordered debug < info < warn < error, each letting through strictly less. */
  lemma ThresholdsNarrow(a: LogLevel, b: LogLevel, e: LogLevel)
    requires Rank(a) < Rank(b)
    ensures Allows(b, e) ==> Allows(a, e)
    ensures Allows(a, a) && !Allows(b, a)
    ensures Rank(Debug) < Rank(Info) < Rank(Warn) < Rank(Error)
  {
  }

  /** The default `--log-level` is accepted and selects the info threshold. */
  lemma DefaultLogLevelAccepted()
    ensures DefaultLogLevel in ValidLogLevels
    ensures SetupLogger(DefaultLogLevel) == Success(Info)
  {
  }

  /** The listing of the accepted values, spelled out. */
  lemma AcceptedListing()
    ensures Strings.Join(ValidLogLevels, LevelSeparator) == "debug, info, warn, error"
  {
    var tail3 := Strings.Join(ValidLogLevels[3..], LevelSeparator);
    assert tail3 == "error";
    var tail2 := Strings.Join(ValidLogLevels[2..], LevelSeparator);
    assert ValidLogLevels[2..][1..] == ValidLogLevels[3..];
    assert tail2 == "warn" + ", " + tail3;
    var tail1 := Strings.Join(ValidLogLevels[1..], LevelSeparator);
    assert ValidLogLevels[1..][1..] == ValidLogLevels[2..];
    assert tail1 == "info" + ", " + tail2;
    assert Strings.Join(ValidLogLevels, LevelSeparator) == "debug" + ", " + tail1;
  }

  /** The unknown-level error lists every accepted value, as "debug, info, warn, error". */
  lemma UnknownLevelListsAccepted(lvl: string)
    requires lvl !in ValidLogLevels
    ensures SetupLogger(lvl).Failure?
    ensures SetupLogger(lvl).error.accepted == "debug, info, warn, error"
    ensures forall i :: 0 <= i < |ValidLogLevels| ==> Strings.Contains(SetupLogger(lvl).error.accepted, ValidLogLevels[i])
  {
    AcceptedListing();
    forall i | 0 <= i < |ValidLogLevels|
      ensures Strings.Contains(SetupLogger(lvl).error.accepted, ValidLogLevels[i])
    {
      Strings.JoinContainsEach(ValidLogLevels, LevelSeparator, i);
    }
  }

  /** The text appended to the help of flags whose use is unsupported. */
  const UnstableSuffix: string := " (Setting this flag voids any guarantees of proper behavior of the operator.)"

  /** `unstableFlagHelp`: the help text followed by the unsupported-use warning. */
  function UnstableFlagHelp(help: string): (r: string)
    ensures |r| > |help|
    ensures r[..|help|] == help
    ensures r[|help|..] == UnstableSuffix
  {
    help + UnstableSuffix
  }

  /** The help text a decorated help was made from, if it carries the warning. */
  function StripUnstableSuffix(s: string): (r: Option<string>)
    ensures r.Some? ==> |r.value| + |UnstableSuffix| == |s|
  {
    if |s| >= |UnstableSuffix| && s[|s| - |UnstableSuffix|..] == UnstableSuffix
    then Some(s[..|s| - |UnstableSuffix|])
    else None
  }

  /** Decoration is undone by stripping, and stripping only succeeds on decorated texts. */
  lemma UnstableFlagHelpRoundTrip(help: string, s: string)
    ensures StripUnstableSuffix(UnstableFlagHelp(help)) == Some(help)
    ensures StripUnstableSuffix(s).Some? ==> UnstableFlagHelp(StripUnstableSuffix(s).value) == s
  {
    var h := UnstableFlagHelp(help);
    assert h[|h| - |UnstableSuffix|..] == UnstableSuffix;
    assert h[..|h| - |UnstableSuffix|] == help;
    if StripUnstableSuffix(s).Some? {
      var p := s[..|s| - |UnstableSuffix|];
      assert p + s[|s| - |UnstableSuffix|..] == s;
    }
  }

  /** Distinct help texts stay distinct once decorated. */
  lemma UnstableFlagHelpInjective(a: string, b: string)
    requires UnstableFlagHelp(a) == UnstableFlagHelp(b)
    ensures a == b
  {
    UnstableFlagHelpRoundTrip(a, "");
    UnstableFlagHelpRoundTrip(b, "");
  }
}
