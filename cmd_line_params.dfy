/**
 * The command-line parameters of the executable (src/cmd_line_params.h). The constructor
 * records the whole command line, then walks the arguments with an index that value-taking
 * flags advance past their value; unknown arguments and macOS process identifiers are ignored.
 * The parameters are built once and only read afterwards, so they are a value here and the
 * constructor is a method that returns it.
 */
module CmdLine {
  import opened Ints
  import opened Wrappers
  import opened Decimal

  /** `app_type`, restricted to the values the parser assigns. */
  datatype AppType = GameClient | DedicatedServer | Masterserver

  datatype CmdLineParams = CmdLineParams(
    completeCommandLine: string,
    parsedAs: string,
    liveLogPath: string,
    callingCwd: Option<string>,
    appdataDir: string,
    exePath: string,
    appimagePath: string,
    debuggerTarget: string,
    editorTarget: string,
    consistencyReport: string,
    unitTestsOnly: bool,
    helpOnly: bool,
    versionOnly: bool,
    versionLineOnly: bool,
    startServer: bool,
    appType: AppType,
    upgradedSuccessfully: bool,
    shouldConnect: bool,
    onlyCheckUpdateAvailabilityAndQuit: bool,
    keepCwd: bool,
    syncExternalArenas: bool,
    syncExternalArenasAndQuit: bool,
    autoupdateDelay: Option<int>,
    applyConfig: string,
    testFpConsistency: int,
    connectAddress: string,
    noRouter: bool,
    suppressServerWebhook: bool,
    noUpdateOnLaunch: bool,
    updateOnceNow: bool,
    dailyAutoupdate: bool,
    firstUdpCommandPort: Option<uint16>,
    serverListPort: Option<uint16>,
    serverPort: Option<uint16>,
    isUpdater: bool,
    verifiedArchive: string,
    verifiedSignature: string)

  /** The member defaults, with the recorded command line and executable path. */
  function Defaults(exePath: string, completeCommandLine: string, parsedAs: string): CmdLineParams {
    CmdLineParams(
      completeCommandLine, parsedAs, "", None, "", exePath, "", "", "", "",
      false, false, false, false, false, GameClient, false, false, false, false, false, false,
      None, "", -1, "", false, false, false, false, false, None, None, None, false, "", "")
  }

  /** `is_cli_tool`. */
  function IsCliTool(p: CmdLineParams): (r: bool)
    ensures r <==> p.appType == Masterserver || p.appType == DedicatedServer
  {
    p.appType != GameClient
  }

  // ---------------------------------------------------------------------------------------
  // The recorded command line

  /** The executable path followed by the first `k - 1` arguments, each after one space. */
  function CommandLineUpTo(argv: seq<string>, k: nat): string
    requires 1 <= k <= |argv|
  {
    if k == 1 then argv[0] else CommandLineUpTo(argv, k - 1) + " " + argv[k - 1]
  }

  /** Where argument `k` starts in the recorded command line. */
  function ArgumentOffset(argv: seq<string>, k: nat): nat
    requires k <= |argv|
  {
    if k == 0 then 0 else ArgumentOffset(argv, k - 1) + |argv[k - 1]| + 1
  }

  /** Argument `k` sits at its offset in `line`, after a space unless it is the executable path. */
  predicate ArgumentAt(line: string, argv: seq<string>, k: nat)
    requires k < |argv|
  {
    var off := ArgumentOffset(argv, k);
    off + |argv[k]| <= |line| && line[off..off + |argv[k]|] == argv[k]
    && (k > 0 ==> 1 <= off && line[off - 1] == ' ')
  }

  /**
   * The recorded command line holds every argument in order, each preceded by one space
   * (the executable path at the start), and nothing else.
   */
  lemma {:induction false} CommandLineHoldsArguments(argv: seq<string>, n: nat)
    requires 1 <= n <= |argv|
    ensures |CommandLineUpTo(argv, n)| + 1 == ArgumentOffset(argv, n)
    ensures forall k | 0 <= k < n :: ArgumentAt(CommandLineUpTo(argv, n), argv, k)
  {
    var line := CommandLineUpTo(argv, n);
    if n == 1 {
      assert line[0..|argv[0]|] == argv[0];
    } else {
      var prev := CommandLineUpTo(argv, n - 1);
      CommandLineHoldsArguments(argv, n - 1);
      assert line == prev + " " + argv[n - 1];
      forall k | 0 <= k < n
        ensures ArgumentAt(line, argv, k)
      {
        var off := ArgumentOffset(argv, k);
        if k < n - 1 {
          assert ArgumentAt(prev, argv, k);
          assert line[off..off + |argv[k]|] == prev[off..off + |argv[k]|];
          assert k > 0 ==> line[off - 1] == prev[off - 1];
        } else {
          assert line[off..off + |argv[k]|] == argv[k];
        }
      }
    }
  }

  /** The `i=argument ` entries for arguments 1 through `k - 1`. */
  function ParsedAsUpTo(argv: seq<string>, k: nat): string
    requires 1 <= k <= |argv|
  {
    if k == 1 then "" else ParsedAsUpTo(argv, k - 1) + DecimalString(k - 1) + "=" + argv[k - 1] + " "
  }

  /** The first loop of the constructor: the space-joined command line and the numbered `parsed_as` record. */
  method RecordCommandLine(argv: seq<string>) returns (completeCommandLine: string, parsedAs: string)
    requires |argv| >= 1
    ensures completeCommandLine == CommandLineUpTo(argv, |argv|)
    ensures parsedAs == ParsedAsUpTo(argv, |argv|)
  {
    completeCommandLine := argv[0];
    parsedAs := "";
    var i := 1;
    while i < |argv|
      invariant 1 <= i <= |argv|
      invariant completeCommandLine == CommandLineUpTo(argv, i)
      invariant parsedAs == ParsedAsUpTo(argv, i)
    {
      completeCommandLine := completeCommandLine + " " + argv[i];
      parsedAs := parsedAs + DecimalString(i) + "=" + argv[i] + " ";
      i := i + 1;
    }
  }

  // ---------------------------------------------------------------------------------------
  // The flag loop

  /** `get_next`: the following argument and the advanced index, or "" and the same index when none remains. */
  function GetNext(argv: seq<string>, i: nat): (r: (string, nat))
    ensures i + 1 < |argv| ==> r == (argv[i + 1], i + 1)
    ensures i + 1 >= |argv| ==> r == ("", i)
  {
    if i + 1 < |argv| then (argv[i + 1], i + 1) else ("", i)
  }

  function StartsWith(s: string, prefix: string): bool {
    |prefix| <= |s| && s[..|prefix|] == prefix
  }

  /** What an argument means to the parser. */
  datatype Argument =
    | MacProcessId | KeepCwd | AppimagePath | UnitTestsOnly | Help | VersionLine | Version
    | IsUpdateAvailable | StartServer | UpgradedSuccessfully | DedicatedServerFlag | DelayedAutoupdate
    | ServerPort | NoRouter | NoUpdateOnLaunch | DailyAutoupdate | UpdateOnceNow
    | SuppressServerWebhook | MasterserverFlag | TestFpConsistency | NatPunchPort | ServerListPort
    | ConsistencyReport | VerifyUpdater | Verify | ApplyConfig | Edit | Signature | Connect
    | LiveLog | SyncExternalArenas | SyncExternalArenasAndQuit | AppdataDir | CallingCwd
    | Unrecognised

  /** The flags that consume the following argument through `get_next`. */
  predicate TakesValue(arg: Argument) {
    || arg.AppimagePath? || arg.DelayedAutoupdate? || arg.ServerPort? || arg.TestFpConsistency?
    || arg.NatPunchPort? || arg.ServerListPort? || arg.ConsistencyReport? || arg.VerifyUpdater?
    || arg.Verify? || arg.ApplyConfig? || arg.Edit? || arg.Signature? || arg.Connect? || arg.LiveLog?
    || arg.AppdataDir? || arg.CallingCwd?
  }

  /** The number of flags the constructor's ladder tests after the macOS process identifier. */
  const FLAG_COUNT := 35

  /** The flag that branch `n` of the ladder tests for, in the ladder's order. */
  function FlagName(n: nat): string
    requires n < FLAG_COUNT
  {
    match n
    case 0 => "--keep-cwd"
    case 1 => "--appimage-path"
    case 2 => "--unit-tests-only"
    case 3 => "--help"
    case 4 => "-h"
    case 5 => "--version-line"
    case 6 => "--version"
    case 7 => "-v"
    case 8 => "--is-update-available"
    case 9 => "--server"
    case 10 => "--upgraded-successfully"
    case 11 => "--dedicated-server"
    case 12 => "--delayed-autoupdate"
    case 13 => "--server-port"
    case 14 => "--no-router"
    case 15 => "--no-update-on-launch"
    case 16 => "--daily-autoupdate"
    case 17 => "--update-once-now"
    case 18 => "--suppress-server-webhook"
    case 19 => "--masterserver"
    case 20 => "--test-fp-consistency"
    case 21 => "--nat-punch-port"
    case 22 => "--server-list-port"
    case 23 => "--consistency-report"
    case 24 => "--verify-updater"
    case 25 => "--verify"
    case 26 => "--apply-config"
    case 27 => "--edit"
    case 28 => "--signature"
    case 29 => "--connect"
    case 30 => "--live-log"
    case 31 => "--sync-external-arenas"
    case 32 => "--sync-external-arenas-and-quit"
    case 33 => "--appdata-dir"
    case _ => "--calling-cwd"
  }

  /** What branch `n` of the ladder does; `--help`/`-h` and `--version`/`-v` share a branch. */
  function FlagArg(n: nat): Argument
    requires n < FLAG_COUNT
  {
    match n
    case 0 => KeepCwd
    case 1 => AppimagePath
    case 2 => UnitTestsOnly
    case 3 => Help
    case 4 => Help
    case 5 => VersionLine
    case 6 => Version
    case 7 => Version
    case 8 => IsUpdateAvailable
    case 9 => StartServer
    case 10 => UpgradedSuccessfully
    case 11 => DedicatedServerFlag
    case 12 => DelayedAutoupdate
    case 13 => ServerPort
    case 14 => NoRouter
    case 15 => NoUpdateOnLaunch
    case 16 => DailyAutoupdate
    case 17 => UpdateOnceNow
    case 18 => SuppressServerWebhook
    case 19 => MasterserverFlag
    case 20 => TestFpConsistency
    case 21 => NatPunchPort
    case 22 => ServerListPort
    case 23 => ConsistencyReport
    case 24 => VerifyUpdater
    case 25 => Verify
    case 26 => ApplyConfig
    case 27 => Edit
    case 28 => Signature
    case 29 => Connect
    case 30 => LiveLog
    case 31 => SyncExternalArenas
    case 32 => SyncExternalArenasAndQuit
    case 33 => AppdataDir
    case _ => CallingCwd
  }

  /** Every branch acts, and only the type flags' own names reach the two type branches. */
  lemma FlagBranchFacts(n: nat)
    requires n < FLAG_COUNT
    ensures FlagArg(n) != Unrecognised
    ensures FlagArg(n) == DedicatedServerFlag ==> FlagName(n) == "--dedicated-server"
    ensures FlagArg(n) == MasterserverFlag ==> FlagName(n) == "--masterserver"
  {
  }

  /** The ladder from branch `n` on: the first flag equal to the argument decides. */
  function ClassifyFrom(a: string, n: nat): Argument
    requires n <= FLAG_COUNT
    decreases FLAG_COUNT - n
  {
    if n == FLAG_COUNT then Unrecognised
    else if a == FlagName(n) then FlagArg(n)
    else ClassifyFrom(a, n + 1)
  }

  /** The branch of the constructor's ladder an argument takes. */
  function Classify(a: string): Argument {
    if StartsWith(a, "-psn") then MacProcessId else ClassifyFrom(a, 0)
  }

  /** What a branch of the ladder assigns, given the value `get_next` returned for it (unused by flags without one). */
  function Apply(p: CmdLineParams, arg: Argument, next: string): (r: CmdLineParams)
    ensures r.completeCommandLine == p.completeCommandLine && r.parsedAs == p.parsedAs
  {
    match arg
    case MacProcessId => p
    case KeepCwd => p.(keepCwd := true)
    case AppimagePath => p.(appimagePath := next, exePath := next)
    case UnitTestsOnly => p.(unitTestsOnly := true, keepCwd := true)
    case Help => p.(helpOnly := true)
    case VersionLine => p.(versionLineOnly := true)
    case Version => p.(versionOnly := true)
    case IsUpdateAvailable => p.(onlyCheckUpdateAvailabilityAndQuit := true)
    case StartServer => p.(startServer := true)
    case UpgradedSuccessfully => p.(upgradedSuccessfully := true)
    case DedicatedServerFlag => p.(appType := DedicatedServer)
    case DelayedAutoupdate => p.(dailyAutoupdate := true, autoupdateDelay := Some(Atoi(next)))
    case ServerPort => p.(serverPort := Some(ToUint16(Atoi(next))))
    case NoRouter => p.(noRouter := true)
    case NoUpdateOnLaunch => p.(noUpdateOnLaunch := true)
    case DailyAutoupdate => p.(dailyAutoupdate := true)
    case UpdateOnceNow => p.(updateOnceNow := true)
    case SuppressServerWebhook => p.(suppressServerWebhook := true)
    case MasterserverFlag => p.(appType := Masterserver)
    case TestFpConsistency => p.(testFpConsistency := Atoi(next), keepCwd := true)
    case NatPunchPort => p.(firstUdpCommandPort := Some(ToUint16(Atoi(next))))
    case ServerListPort => p.(serverListPort := Some(ToUint16(Atoi(next))))
    case ConsistencyReport => p.(consistencyReport := next)
    case VerifyUpdater => p.(isUpdater := true, verifiedArchive := next)
    case Verify => p.(verifiedArchive := next)
    case ApplyConfig => p.(applyConfig := next)
    case Edit => p.(editorTarget := next)
    case Signature => p.(verifiedSignature := next)
    case Connect => p.(shouldConnect := true, connectAddress := next)
    case LiveLog => p.(liveLogPath := next)
    case SyncExternalArenas => p.(syncExternalArenas := true)
    case SyncExternalArenasAndQuit => p.(syncExternalArenasAndQuit := true)
    case AppdataDir => p.(appdataDir := next)
    case CallingCwd => p.(callingCwd := Some(next))
    case Unrecognised => p
  }

  /** One pass of the loop body for argument `i`: the new parameters and the index after any consumed value. */
  function Step(p: CmdLineParams, argv: seq<string>, i: nat): (r: (CmdLineParams, nat))
    requires i < |argv|
    ensures r.1 == i || r.1 == i + 1
  {
    var arg := Classify(argv[i]);
    var (next, j) := GetNext(argv, i);
    (Apply(p, arg, next), if TakesValue(arg) then j else i)
  }

  /** The loop from argument `i` on: each pass runs `Step` and moves past what it consumed. */
  function ParseFrom(p: CmdLineParams, argv: seq<string>, i: nat): CmdLineParams
    decreases |argv| - i
  {
    if i >= |argv| then p
    else
      var (q, j) := Step(p, argv, i);
      ParseFrom(q, argv, j + 1)
  }

  lemma ParseFromStep(p: CmdLineParams, argv: seq<string>, i: nat)
    requires i < |argv|
    ensures ParseFrom(p, argv, i) == ParseFrom(Step(p, argv, i).0, argv, Step(p, argv, i).1 + 1)
  {
  }

  /** The second loop of the constructor: every argument after the executable path, in turn. */
  method ParseArguments(initial: CmdLineParams, argv: seq<string>) returns (p: CmdLineParams)
    ensures p == ParseFrom(initial, argv, 1)
    ensures p.completeCommandLine == initial.completeCommandLine && p.parsedAs == initial.parsedAs
  {
    p := initial;
    var i := 1;
    while i < |argv|
      invariant 1 <= i
      invariant ParseFrom(p, argv, i) == ParseFrom(initial, argv, 1)
      invariant p.completeCommandLine == initial.completeCommandLine && p.parsedAs == initial.parsedAs
      decreases |argv| - i
    {
      var (q, j) := Step(p, argv, i);
      ParseFromStep(p, argv, i);
      p := q;
      i := j + 1;
    }
  }

  /** `cmd_line_params(argc, argv)`. */
  method Parse(argv: seq<string>) returns (p: CmdLineParams)
    requires |argv| >= 1
    ensures p == ParseFrom(Defaults(argv[0], CommandLineUpTo(argv, |argv|), ParsedAsUpTo(argv, |argv|)), argv, 1)
    ensures p.completeCommandLine == CommandLineUpTo(argv, |argv|) && p.parsedAs == ParsedAsUpTo(argv, |argv|)
  {
    var completeCommandLine, parsedAs := RecordCommandLine(argv);
    p := ParseArguments(Defaults(argv[0], completeCommandLine, parsedAs), argv);
  }

  // ---------------------------------------------------------------------------------------
  // What one pass does

  /** The argument is the flag of branch `n` or of a later one. */
  predicate NamedFrom(a: string, n: nat)
    requires n <= FLAG_COUNT
    decreases FLAG_COUNT - n
  {
    n < FLAG_COUNT && (FlagName(n) == a || NamedFrom(a, n + 1))
  }

  /** Every argument the ladder names. */
  predicate KnownFlag(a: string) {
    NamedFrom(a, 0)
  }

  /** From branch `n` on, an argument falls through every branch exactly when none of them names it. */
  lemma {:induction false} UnrecognisedFrom(a: string, n: nat)
    requires n <= FLAG_COUNT
    ensures ClassifyFrom(a, n) == Unrecognised <==> !NamedFrom(a, n)
    decreases FLAG_COUNT - n
  {
    if n < FLAG_COUNT {
      UnrecognisedFrom(a, n + 1);
      FlagBranchFacts(n);
    }
  }

  /** An argument is acted on exactly when it names a flag or is a macOS process identifier. */
  lemma UnrecognisedExactlyOutsideFlags(a: string)
    ensures Classify(a) == Unrecognised <==> !StartsWith(a, "-psn") && !KnownFlag(a)
  {
    UnrecognisedFrom(a, 0);
  }

  /** An argument whose second character is a dash is no macOS process identifier. */
  lemma DoubleDashIsNoMacProcessId(a: string)
    requires |a| >= 2 && a[1] == '-'
    ensures !StartsWith(a, "-psn")
  {
    if |a| >= 4 {
      assert a[..4][1] != "-psn"[1];
    }
  }

  /** Branches that test for other flags pass the argument on. */
  lemma {:induction false} SkipBranches(a: string, n: nat, m: nat)
    requires n <= m <= FLAG_COUNT
    requires forall k | n <= k < m :: FlagName(k) != a
    ensures ClassifyFrom(a, n) == ClassifyFrom(a, m)
    decreases m - n
  {
    if n < m {
      SkipBranches(a, n + 1, m);
    }
  }

  /** A flag that no earlier branch tests for reaches its own branch. */
  lemma ClassifyAt(a: string, k: nat)
    requires k < FLAG_COUNT && FlagName(k) == a && !StartsWith(a, "-psn")
    requires forall j | 0 <= j < k :: FlagName(j) != a
    ensures Classify(a) == FlagArg(k)
  {
    SkipBranches(a, 0, k);
  }

  lemma ClassifyConnect(a: string)
    requires a == "--connect"
    ensures Classify(a) == Connect
  {
    DoubleDashIsNoMacProcessId(a);
    assert forall j | 0 <= j < 29 :: FlagName(j) != "--connect";
    ClassifyAt(a, 29);
  }

  lemma ClassifyServerPort(a: string)
    requires a == "--server-port"
    ensures Classify(a) == ServerPort
  {
    DoubleDashIsNoMacProcessId(a);
    ClassifyAt(a, 13);
  }

  lemma ClassifyDelayedAutoupdate(a: string)
    requires a == "--delayed-autoupdate"
    ensures Classify(a) == DelayedAutoupdate
  {
    DoubleDashIsNoMacProcessId(a);
    ClassifyAt(a, 12);
  }

  lemma ClassifyAppimagePath(a: string)
    requires a == "--appimage-path"
    ensures Classify(a) == AppimagePath
  {
    DoubleDashIsNoMacProcessId(a);
    ClassifyAt(a, 1);
  }

  lemma ClassifyDedicatedServer(a: string)
    requires a == "--dedicated-server"
    ensures Classify(a) == DedicatedServerFlag
  {
    DoubleDashIsNoMacProcessId(a);
    ClassifyAt(a, 11);
  }

  lemma ClassifyMasterserver(a: string)
    requires a == "--masterserver"
    ensures Classify(a) == MasterserverFlag
  {
    DoubleDashIsNoMacProcessId(a);
    ClassifyAt(a, 19);
  }

  lemma ClassifyKeepCwd(a: string)
    requires a == "--keep-cwd"
    ensures Classify(a) == KeepCwd
  {
    DoubleDashIsNoMacProcessId(a);
    ClassifyAt(a, 0);
  }

  lemma ClassifyUnitTestsOnly(a: string)
    requires a == "--unit-tests-only"
    ensures Classify(a) == UnitTestsOnly
  {
    DoubleDashIsNoMacProcessId(a);
    ClassifyAt(a, 2);
  }

  lemma ClassifyTestFpConsistency(a: string)
    requires a == "--test-fp-consistency"
    ensures Classify(a) == TestFpConsistency
  {
    DoubleDashIsNoMacProcessId(a);
    ClassifyAt(a, 20);
  }

  /** From branch `n` on, only the type flags' own names are classified as type flags. */
  lemma {:induction false} TypeFlagFrom(a: string, n: nat)
    requires n <= FLAG_COUNT
    ensures ClassifyFrom(a, n) == DedicatedServerFlag ==> a == "--dedicated-server"
    ensures ClassifyFrom(a, n) == MasterserverFlag ==> a == "--masterserver"
    decreases FLAG_COUNT - n
  {
    if n < FLAG_COUNT {
      TypeFlagFrom(a, n + 1);
      FlagBranchFacts(n);
    }
  }

  /** Only the two type flags themselves are classified as type flags. */
  lemma ClassifiedTypeFlagIsTypeFlag(a: string)
    ensures Classify(a) == DedicatedServerFlag ==> a == "--dedicated-server"
    ensures Classify(a) == MasterserverFlag ==> a == "--masterserver"
  {
    TypeFlagFrom(a, 0);
  }

  /** A pass consumes the following argument exactly for a value-taking flag with an argument left to take. */
  lemma StepConsumption(p: CmdLineParams, argv: seq<string>, i: nat)
    requires i < |argv|
    ensures Step(p, argv, i).1 == i + 1 <==> TakesValue(Classify(argv[i])) && i + 1 < |argv|
  {
  }

  /** A pass over an argument of known classification applies that branch. */
  lemma StepBy(p: CmdLineParams, argv: seq<string>, i: nat, arg: Argument)
    requires i < |argv| && Classify(argv[i]) == arg
    ensures Step(p, argv, i) == (Apply(p, arg, GetNext(argv, i).0), if TakesValue(arg) then GetNext(argv, i).1 else i)
  {
  }

  /** A macOS process identifier or an unrecognised argument changes nothing and consumes nothing. */
  lemma IgnoredArgumentChangesNothing(p: CmdLineParams, argv: seq<string>, i: nat)
    requires i < |argv| && (StartsWith(argv[i], "-psn") || !KnownFlag(argv[i]))
    ensures Step(p, argv, i) == (p, i)
  {
    UnrecognisedExactlyOutsideFlags(argv[i]);
  }

  /** The pass once the argument is known to take this branch. */
  lemma StepOnConnect(p: CmdLineParams, argv: seq<string>, i: nat)
    requires i < |argv| && Classify(argv[i]) == Connect
    ensures Step(p, argv, i) == (p.(shouldConnect := true, connectAddress := GetNext(argv, i).0), GetNext(argv, i).1)
  {
    StepBy(p, argv, i, Connect);
  }

  /** `--connect` asks to connect and takes the following argument as the address, changing nothing else. */
  lemma ConnectTakesAddress(p: CmdLineParams, argv: seq<string>, i: nat)
    requires i < |argv| && argv[i] == "--connect"
    ensures Step(p, argv, i) == (p.(shouldConnect := true, connectAddress := GetNext(argv, i).0), GetNext(argv, i).1)
  {
    ClassifyConnect(argv[i]);
    StepOnConnect(p, argv, i);
  }

  /** The pass once the argument is known to take this branch. */
  lemma StepOnServerPort(p: CmdLineParams, argv: seq<string>, i: nat)
    requires i < |argv| && Classify(argv[i]) == ServerPort
    ensures Step(p, argv, i) == (p.(serverPort := Some(ToUint16(Atoi(GetNext(argv, i).0)))), GetNext(argv, i).1)
  {
    StepBy(p, argv, i, ServerPort);
  }

  /** `--server-port` takes the following argument, read by `atoi` and cut to 16 bits, as the port. */
  lemma ServerPortTakesPort(p: CmdLineParams, argv: seq<string>, i: nat)
    requires i < |argv| && argv[i] == "--server-port"
    ensures Step(p, argv, i) == (p.(serverPort := Some(ToUint16(Atoi(GetNext(argv, i).0)))), GetNext(argv, i).1)
  {
    ClassifyServerPort(argv[i]);
    StepOnServerPort(p, argv, i);
  }

  /** The pass once the argument is known to take this branch. */
  lemma StepOnDelayedAutoupdate(p: CmdLineParams, argv: seq<string>, i: nat)
    requires i < |argv| && Classify(argv[i]) == DelayedAutoupdate
    ensures Step(p, argv, i) == (p.(dailyAutoupdate := true, autoupdateDelay := Some(Atoi(GetNext(argv, i).0))), GetNext(argv, i).1)
  {
    StepBy(p, argv, i, DelayedAutoupdate);
  }

  /** `--delayed-autoupdate` turns daily updates on and takes the following argument, read by `atoi`, as the delay. */
  lemma DelayedAutoupdateTakesDelay(p: CmdLineParams, argv: seq<string>, i: nat)
    requires i < |argv| && argv[i] == "--delayed-autoupdate"
    ensures Step(p, argv, i) == (p.(dailyAutoupdate := true, autoupdateDelay := Some(Atoi(GetNext(argv, i).0))), GetNext(argv, i).1)
  {
    ClassifyDelayedAutoupdate(argv[i]);
    StepOnDelayedAutoupdate(p, argv, i);
  }

  /**
   * The working directory is kept after `--keep-cwd`, `--unit-tests-only` and
   * `--test-fp-consistency`; no other argument changes that choice.
   */
  lemma KeepCwdForcedByTestFlags(p: CmdLineParams, arg: Argument, next: string)
    ensures Apply(p, arg, next).keepCwd == (arg in {KeepCwd, UnitTestsOnly, TestFpConsistency} || p.keepCwd)
  {
    match arg
    case MacProcessId => case KeepCwd => case AppimagePath => case UnitTestsOnly => case Help =>
    case VersionLine => case Version => case IsUpdateAvailable => case StartServer =>
    case UpgradedSuccessfully => case DedicatedServerFlag => case DelayedAutoupdate => case ServerPort =>
    case NoRouter => case NoUpdateOnLaunch => case DailyAutoupdate => case UpdateOnceNow =>
    case SuppressServerWebhook => case MasterserverFlag => case TestFpConsistency => case NatPunchPort =>
    case ServerListPort => case ConsistencyReport => case VerifyUpdater => case Verify => case ApplyConfig =>
    case Edit => case Signature => case Connect => case LiveLog => case SyncExternalArenas =>
    case SyncExternalArenasAndQuit => case AppdataDir => case CallingCwd => case Unrecognised =>
  }

  /** `--appimage-path` replaces the executable path by its value; nothing else touches it. */
  lemma AppimagePathOverridesExePath(p: CmdLineParams, arg: Argument, next: string)
    ensures Apply(p, arg, next).exePath == if arg == AppimagePath then next else p.exePath
  {
    match arg
    case MacProcessId => case KeepCwd => case AppimagePath => case UnitTestsOnly => case Help =>
    case VersionLine => case Version => case IsUpdateAvailable => case StartServer =>
    case UpgradedSuccessfully => case DedicatedServerFlag => case DelayedAutoupdate => case ServerPort =>
    case NoRouter => case NoUpdateOnLaunch => case DailyAutoupdate => case UpdateOnceNow =>
    case SuppressServerWebhook => case MasterserverFlag => case TestFpConsistency => case NatPunchPort =>
    case ServerListPort => case ConsistencyReport => case VerifyUpdater => case Verify => case ApplyConfig =>
    case Edit => case Signature => case Connect => case LiveLog => case SyncExternalArenas =>
    case SyncExternalArenasAndQuit => case AppdataDir => case CallingCwd => case Unrecognised =>
  }

  /**
   * Only `--dedicated-server` and `--masterserver` change the application type, each to its
   * own; so of the two, the one parsed last decides.
   */
  lemma AppTypeSetByTypeFlags(p: CmdLineParams, arg: Argument, next: string)
    ensures Apply(p, arg, next).appType ==
      match arg
      case DedicatedServerFlag => DedicatedServer
      case MasterserverFlag => Masterserver
      case _ => p.appType
  {
    match arg
    case MacProcessId => case KeepCwd => case AppimagePath => case UnitTestsOnly => case Help =>
    case VersionLine => case Version => case IsUpdateAvailable => case StartServer =>
    case UpgradedSuccessfully => case DedicatedServerFlag => case DelayedAutoupdate => case ServerPort =>
    case NoRouter => case NoUpdateOnLaunch => case DailyAutoupdate => case UpdateOnceNow =>
    case SuppressServerWebhook => case MasterserverFlag => case TestFpConsistency => case NatPunchPort =>
    case ServerListPort => case ConsistencyReport => case VerifyUpdater => case Verify => case ApplyConfig =>
    case Edit => case Signature => case Connect => case LiveLog => case SyncExternalArenas =>
    case SyncExternalArenasAndQuit => case AppdataDir => case CallingCwd => case Unrecognised =>
  }

  /** A pass over an argument other than the two type flags keeps the application type. */
  lemma StepKeepsAppType(p: CmdLineParams, argv: seq<string>, i: nat)
    requires i < |argv| && argv[i] != "--dedicated-server" && argv[i] != "--masterserver"
    ensures Step(p, argv, i).0.appType == p.appType
  {
    ClassifiedTypeFlagIsTypeFlag(argv[i]);
    AppTypeSetByTypeFlags(p, Classify(argv[i]), GetNext(argv, i).0);
  }

  /** Without a type flag among the arguments the application type is left as it was. */
  lemma {:induction false} NoTypeFlagKeepsAppType(p: CmdLineParams, argv: seq<string>, i: nat)
    requires forall k | i <= k < |argv| :: argv[k] != "--dedicated-server" && argv[k] != "--masterserver"
    ensures ParseFrom(p, argv, i).appType == p.appType
    decreases |argv| - i
  {
    if i < |argv| {
      var step := Step(p, argv, i);
      ParseFromStep(p, argv, i);
      StepKeepsAppType(p, argv, i);
      NoTypeFlagKeepsAppType(step.0, argv, step.1 + 1);
    }
  }
}
