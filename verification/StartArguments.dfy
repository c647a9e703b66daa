/**
 `compute start --detach` starts the same command again in the background. It rebuilds the argument list by
 hand, the child normalises it and parses it, and the result should be the command it came from.

 The parser is a description of what the declared options of `start` accept. Addresses are kept as text.
 */
module StartArguments {
  import opened Options

  type U64 = n: nat | n < 0x1_0000_0000_0000_0000

  datatype StateOptions = StateOptions(
    backend: Option<string>,
    feltdbUrl: Option<string>,
    feltdbApplication: Option<string>,
    feltdbEnvironment: Option<string>,
    feltdbTokenEnv: Option<string>,
    feltdbCaFile: Option<string>,
    config: Option<string>)

  datatype StartCommand = StartCommand(
    listen: string,
    stateDir: string,
    policy: Option<string>,
    poolConfig: Option<string>,
    portRange: string,
    requireTokenEnv: Option<string>,
    localToken: Option<string>,
    insecure: bool,
    headless: bool,
    production: bool,
    tlsCert: Option<string>,
    tlsKey: Option<string>,
    reconcileIntervalMs: U64,
    instancePortRange: Option<string>,
    drainTimeoutMs: Option<U64>,
    ingressHttp: Option<string>,
    ingressHttps: Option<string>,
    endpointAddress: Option<string>,
    state: StateOptions,
    dataPlane: string,
    requireStateAtStart: bool,
    publicUrl: Option<string>,
    applicationHost: Option<string>,
    offer: seq<string>,
    detach: bool,
    json: bool)

  /** The command the background process should run. */
  function Cleared(c: StartCommand): StartCommand {
    c.(detach := false, json := false)
  }

  // ---- Numbers and lists ------------------------------------------------

  function Digits(n: nat): (s: string)
    ensures s != [] && forall i | 0 <= i < |s| :: '0' <= s[i] <= '9'
  {
    var last := [('0' as int + n % 10) as char];
    if n < 10 then last else Digits(n / 10) + last
  }

  /** The number a digit string denotes, or `None` if it is not one. */
  function Number(s: string): Option<nat> {
    if s == [] then None
    else
      var c := s[|s| - 1];
      if !('0' <= c <= '9') then None
      else if |s| == 1 then Some(c as nat - '0' as nat)
      else
        match Number(s[..|s| - 1])
        case Some(n) => Some(10 * n + (c as nat - '0' as nat))
        case None => None
  }

  function ParseU64(s: string): Option<U64> {
    match Number(if s != [] && s[0] == '+' then s[1..] else s)
    case Some(n) => if n < 0x1_0000_0000_0000_0000 then Some(n) else None
    case None => None
  }

  lemma {:induction false} DigitsAreTheNumber(n: nat)
    ensures Number(Digits(n)) == Some(n)
  {
    var s := Digits(n);
    if n >= 10 {
      DigitsAreTheNumber(n / 10);
      assert s[..|s| - 1] == Digits(n / 10);
    }
  }

  lemma SignIsAllowed(n: U64)
    ensures ParseU64("+" + Digits(n)) == Some(n)
  {
    hide Digits;
    PrintedNumberIsParsed(n);
    DigitsAreTheNumber(n);
    assert ("+" + Digits(n))[1..] == Digits(n);
  }

  lemma PrintedNumberIsParsed(n: U64)
    ensures ParseU64(Digits(n)) == Some(n)
  {
    DigitsAreTheNumber(n);
  }

  function Join(parts: seq<string>): string {
    if parts == [] then ""
    else if |parts| == 1 then parts[0]
    else parts[0] + "," + Join(parts[1..])
  }

  function Split(s: string): (parts: seq<string>)
    ensures parts != [] && forall i | 0 <= i < |parts| :: ',' !in parts[i]
  {
    if s == [] then [""]
    else
      var rest := Split(s[1..]);
      if s[0] == ',' then [""] + rest else [[s[0]] + rest[0]] + rest[1..]
  }

  lemma {:induction false} SplitFirst(part: string, rest: string)
    requires ',' !in part
    ensures Split(part) == [part]
    ensures Split(part + "," + rest) == [part] + Split(rest)
  {
    if part == [] {
      assert (part + "," + rest)[1..] == rest;
    } else {
      SplitFirst(part[1..], rest);
      assert (part + "," + rest)[1..] == part[1..] + "," + rest;
      assert part == [part[0]] + part[1..];
    }
  }

  predicate NoCommas(parts: seq<string>) {
    forall i | 0 <= i < |parts| :: ',' !in parts[i]
  }

  lemma {:induction false} ListSurvives(parts: seq<string>)
    requires parts != [] && NoCommas(parts)
    ensures Split(Join(parts)) == parts
  {
    hide Split;
    SplitFirst(parts[0], Join(parts[1..]));
    if |parts| == 1 {
      assert parts == [parts[0]];
    } else {
      ListSurvives(parts[1..]);
      assert parts == [parts[0]] + parts[1..];
    }
  }

  /** A list survives joining and splitting exactly when it has an element and no element has a comma. */
  lemma ListSurvivesExactlyWhen(parts: seq<string>)
    ensures Split(Join(parts)) == parts <==> parts != [] && NoCommas(parts)
  {
    hide Split, Join;
    if parts != [] && NoCommas(parts) {
      ListSurvives(parts);
    }
  }

  // ---- Options ----------------------------------------------------------

  datatype Opt =
    | Listen | StateDir | PortRange | ReconcileIntervalMs
    | State | FeltdbUrl | FeltdbApplication | FeltdbEnvironment | FeltdbTokenEnv | FeltdbCaFile | Config
    | Policy | PoolConfig | RequireTokenEnv | LocalToken | Insecure | Headless | DataPlane
    | RequireStateAtStart | Production | TlsCert | TlsKey | InstancePortRange | DrainTimeoutMs
    | IngressHttp | IngressHttps | EndpointAddress | PublicUrl | ApplicationHost | Offer
    | Detach | Json

  function Spelling(o: Opt): string {
    match o
    case Listen => "--listen"
    case StateDir => "--state-dir"
    case PortRange => "--port-range"
    case ReconcileIntervalMs => "--reconcile-interval-ms"
    case State => "--state"
    case FeltdbUrl => "--feltdb-url"
    case FeltdbApplication => "--feltdb-application"
    case FeltdbEnvironment => "--feltdb-environment"
    case FeltdbTokenEnv => "--feltdb-token-env"
    case FeltdbCaFile => "--feltdb-ca-file"
    case Config => "--config"
    case Policy => "--policy"
    case PoolConfig => "--pool-config"
    case RequireTokenEnv => "--require-token-env"
    case LocalToken => "--local-token"
    case Insecure => "--insecure"
    case Headless => "--headless"
    case DataPlane => "--data-plane"
    case RequireStateAtStart => "--require-state-at-start"
    case Production => "--production"
    case TlsCert => "--tls-cert"
    case TlsKey => "--tls-key"
    case InstancePortRange => "--instance-port-range"
    case DrainTimeoutMs => "--drain-timeout-ms"
    case IngressHttp => "--ingress-http"
    case IngressHttps => "--ingress-https"
    case EndpointAddress => "--endpoint-address"
    case PublicUrl => "--public-url"
    case ApplicationHost => "--application-host"
    case Offer => "--offer"
    case Detach => "--detach"
    case Json => "--json"
  }

  predicate IsFlag(o: Opt) {
    o in {Insecure, Headless, RequireStateAtStart, Production, Detach, Json}
  }

  predicate IsPath(o: Opt) {
    o in {StateDir, Policy, PoolConfig, LocalToken, TlsCert, TlsKey, FeltdbCaFile, Config}
  }

  /** The place of an option in the rebuilt list; the last two are not in it. */
  function Place(o: Opt): nat {
    match o
    case Listen => 0
    case StateDir => 1
    case PortRange => 2
    case ReconcileIntervalMs => 3
    case State => 4
    case FeltdbUrl => 5
    case FeltdbApplication => 6
    case FeltdbEnvironment => 7
    case FeltdbTokenEnv => 8
    case FeltdbCaFile => 9
    case Config => 10
    case Policy => 11
    case PoolConfig => 12
    case RequireTokenEnv => 13
    case LocalToken => 14
    case Insecure => 15
    case Headless => 16
    case DataPlane => 17
    case RequireStateAtStart => 18
    case Production => 19
    case TlsCert => 20
    case TlsKey => 21
    case InstancePortRange => 22
    case DrainTimeoutMs => 23
    case IngressHttp => 24
    case IngressHttps => 25
    case EndpointAddress => 26
    case PublicUrl => 27
    case ApplicationHost => 28
    case Offer => 29
    case Detach => 30
    case Json => 31
  }

  /** Length, third and last character: enough to tell the options apart. */
  function Mark(s: string): (int, char, char)
    requires |s| > 2
  {
    (|s|, s[2], s[|s| - 1])
  }

  function MarkOf(o: Opt): (int, char, char) {
    match o
    case Listen => (8, 'l', 'n')
    case StateDir => (11, 's', 'r')
    case PortRange => (12, 'p', 'e')
    case ReconcileIntervalMs => (23, 'r', 's')
    case State => (7, 's', 'e')
    case FeltdbUrl => (12, 'f', 'l')
    case FeltdbApplication => (20, 'f', 'n')
    case FeltdbEnvironment => (20, 'f', 't')
    case FeltdbTokenEnv => (18, 'f', 'v')
    case FeltdbCaFile => (16, 'f', 'e')
    case Config => (8, 'c', 'g')
    case Policy => (8, 'p', 'y')
    case PoolConfig => (13, 'p', 'g')
    case RequireTokenEnv => (19, 'r', 'v')
    case LocalToken => (13, 'l', 'n')
    case Insecure => (10, 'i', 'e')
    case Headless => (10, 'h', 's')
    case DataPlane => (12, 'd', 'e')
    case RequireStateAtStart => (24, 'r', 't')
    case Production => (12, 'p', 'n')
    case TlsCert => (10, 't', 't')
    case TlsKey => (9, 't', 'y')
    case InstancePortRange => (21, 'i', 'e')
    case DrainTimeoutMs => (18, 'd', 's')
    case IngressHttp => (14, 'i', 'p')
    case IngressHttps => (15, 'i', 's')
    case EndpointAddress => (18, 'e', 's')
    case PublicUrl => (12, 'p', 'l')
    case ApplicationHost => (18, 'a', 't')
    case Offer => (7, 'o', 'r')
    case Detach => (8, 'd', 'h')
    case Json => (6, 'j', 'n')
  }

  lemma SpellingIsMarked(o: Opt)
    ensures |Spelling(o)| > 2 && Spelling(o)[0] == '-' && Spelling(o)[1] == '-'
    ensures Mark(Spelling(o)) == MarkOf(o)
  {
    hide Spelling, MarkOf;
    if Place(o) < 8 { EarlyIsMarked(o); }
    else if Place(o) < 16 { MiddleIsMarked(o); }
    else if Place(o) < 24 { LateIsMarked(o); }
    else { LastIsMarked(o); }
  }

  predicate Marked(o: Opt) {
    |Spelling(o)| > 2 && Spelling(o)[0] == '-' && Spelling(o)[1] == '-' && Mark(Spelling(o)) == MarkOf(o)
  }

  lemma EarlyIsMarked(o: Opt) requires Place(o) < 8 ensures Marked(o) {}

  lemma MiddleIsMarked(o: Opt) requires 8 <= Place(o) < 16 ensures Marked(o) {}

  lemma LateIsMarked(o: Opt) requires 16 <= Place(o) < 24 ensures Marked(o) {}

  lemma LastIsMarked(o: Opt) requires 24 <= Place(o) ensures Marked(o) {}

  /** Reading the option off the mark. */
  function OptionMarked(mark: (int, char, char)): Opt {
    match mark.0
    case 6 => Json
    case 7 => if mark.1 == 's' then State else Offer
    case 8 => if mark.1 == 'l' then Listen else if mark.1 == 'c' then Config else if mark.1 == 'd' then Detach else Policy
    case 9 => TlsKey
    case 10 => if mark.1 == 'i' then Insecure else if mark.1 == 'h' then Headless else TlsCert
    case 11 => StateDir
    case 12 =>
      if mark.1 == 'f' then FeltdbUrl else if mark.1 == 'd' then DataPlane
      else if mark.2 == 'e' then PortRange else if mark.2 == 'n' then Production else PublicUrl
    case 13 => if mark.1 == 'p' then PoolConfig else LocalToken
    case 14 => IngressHttp
    case 15 => IngressHttps
    case 16 => FeltdbCaFile
    case 18 =>
      if mark.1 == 'f' then FeltdbTokenEnv else if mark.1 == 'd' then DrainTimeoutMs
      else if mark.1 == 'e' then EndpointAddress else ApplicationHost
    case 19 => RequireTokenEnv
    case 20 => if mark.2 == 'n' then FeltdbApplication else FeltdbEnvironment
    case 21 => InstancePortRange
    case 23 => ReconcileIntervalMs
    case _ => RequireStateAtStart
  }

  lemma MarkTellsOption(o: Opt)
    ensures OptionMarked(MarkOf(o)) == o
  {
    match o case _ => {}
  }

  lemma MarksDiffer(a: Opt, b: Opt)
    requires MarkOf(a) == MarkOf(b)
    ensures a == b
  {
    hide MarkOf, OptionMarked;
    MarkTellsOption(a);
    MarkTellsOption(b);
  }

  lemma SpellingsDiffer(a: Opt, b: Opt)
    requires Spelling(a) == Spelling(b)
    ensures a == b
  {
    hide Spelling, MarkOf;
    SpellingIsMarked(a);
    SpellingIsMarked(b);
    MarksDiffer(a, b);
  }

  lemma SpellingHasNoEquals(o: Opt)
    ensures '=' !in Spelling(o)
  {
    hide Spelling;
    if Place(o) < 8 { EarlyHasNoEquals(o); }
    else if Place(o) < 16 { MiddleHasNoEquals(o); }
    else if Place(o) < 24 { LateHasNoEquals(o); }
    else { LastHasNoEquals(o); }
  }

  lemma EarlyHasNoEquals(o: Opt) requires Place(o) < 8 ensures '=' !in Spelling(o) {}

  lemma MiddleHasNoEquals(o: Opt) requires 8 <= Place(o) < 16 ensures '=' !in Spelling(o) {}

  lemma LateHasNoEquals(o: Opt) requires 16 <= Place(o) < 24 ensures '=' !in Spelling(o) {}

  lemma LastHasNoEquals(o: Opt) requires 24 <= Place(o) ensures '=' !in Spelling(o) {}

  ghost function OptionNamed(name: string): Option<Opt> {
    if o: Opt :| Spelling(o) == name then Some(o) else None
  }

  lemma NamedBySpelling(o: Opt)
    ensures OptionNamed(Spelling(o)) == Some(o)
  {
    hide Spelling;
    var named := OptionNamed(Spelling(o));
    SpellingsDiffer(named.value, o);
  }

  // ---- The parser -------------------------------------------------------

  /** The options seen so far: flags, texts, and the elements of every `--offer`. */
  datatype Seen = Seen(flags: set<Opt>, texts: map<Opt, string>, offers: seq<string>)

  const NOTHING := Seen({}, map[], [])

  /** An argument that cannot be the separate value of an option. */
  predicate LooksLikeOption(s: string) {
    |s| > 1 && s[0] == '-'
  }

  function FirstEquals(s: string): (i: nat)
    ensures i <= |s| && '=' !in s[..i] && (i < |s| ==> s[i] == '=')
  {
    if s == [] || s[0] == '=' then 0 else 1 + FirstEquals(s[1..])
  }

  /** An option given twice is refused, unless it is `--offer`, whose elements accumulate. */
  function Take(seen: Seen, o: Opt, value: string): Option<Seen> {
    if o == Offer then Some(seen.(offers := seen.offers + Split(value)))
    else if o in seen.texts then None
    else Some(seen.(texts := seen.texts[o := value]))
  }

  function TakeFlag(seen: Seen, o: Opt): Option<Seen> {
    if o in seen.flags then None else Some(seen.(flags := seen.flags + {o}))
  }

  ghost function ParseArguments(args: seq<string>, seen: Seen): Option<Seen>
    decreases |args|
  {
    if args == [] then Some(seen)
    else if args[0] == "--" then if |args| == 1 then Some(seen) else None
    else
      var i := FirstEquals(args[0]);
      match OptionNamed(args[0][..i])
      case None => None
      case Some(o) =>
        if i < |args[0]| then
          if IsFlag(o) then None
          else
            match Take(seen, o, args[0][i + 1..])
            case Some(more) => ParseArguments(args[1..], more)
            case None => None
        else if IsFlag(o) then
          match TakeFlag(seen, o)
          case Some(more) => ParseArguments(args[1..], more)
          case None => None
        else if |args| == 1 || LooksLikeOption(args[1]) then None
        else
          match Take(seen, o, args[1])
          case Some(more) => ParseArguments(args[2..], more)
          case None => None
  }

  function Text(seen: Seen, o: Opt): Option<string> {
    if o in seen.texts then Some(seen.texts[o]) else None
  }

  predicate Compatible(seen: Seen) {
    && (TlsCert in seen.texts <==> TlsKey in seen.texts)
    && (LocalToken in seen.texts ==> RequireTokenEnv !in seen.texts && Insecure !in seen.flags)
    && !(Insecure in seen.flags && Production in seen.flags)
    && (forall o | o in seen.texts && IsPath(o) :: seen.texts[o] != "")
    && (DataPlane in seen.texts ==> seen.texts[DataPlane] in {"supervisor", "in-process"})
    && ParseU64(Text(seen, ReconcileIntervalMs).GetOr("5000")).Some?
    && (DrainTimeoutMs in seen.texts ==> ParseU64(seen.texts[DrainTimeoutMs]).Some?)
  }

  function BuildState(seen: Seen): StateOptions {
    StateOptions(
      Text(seen, State),
      Text(seen, FeltdbUrl),
      Text(seen, FeltdbApplication),
      Text(seen, FeltdbEnvironment),
      Text(seen, FeltdbTokenEnv),
      Text(seen, FeltdbCaFile),
      Text(seen, Config))
  }

  function Build(seen: Seen): Option<StartCommand> {
    if !Compatible(seen) then None
    else
      Some(StartCommand(
             Text(seen, Listen).GetOr("127.0.0.1:8787"),
             Text(seen, StateDir).GetOr(".compute/daemon"),
             Text(seen, Policy),
             Text(seen, PoolConfig),
             Text(seen, PortRange).GetOr("20000-29999"),
             Text(seen, RequireTokenEnv),
             Text(seen, LocalToken),
             Insecure in seen.flags,
             Headless in seen.flags,
             Production in seen.flags,
             Text(seen, TlsCert),
             Text(seen, TlsKey),
             ParseU64(Text(seen, ReconcileIntervalMs).GetOr("5000")).value,
             Text(seen, InstancePortRange),
             if DrainTimeoutMs in seen.texts then ParseU64(seen.texts[DrainTimeoutMs]) else None,
             Text(seen, IngressHttp),
             Text(seen, IngressHttps),
             Text(seen, EndpointAddress),
             BuildState(seen),
             Text(seen, DataPlane).GetOr("supervisor"),
             RequireStateAtStart in seen.flags,
             Text(seen, PublicUrl),
             Text(seen, ApplicationHost),
             if seen.offers == [] then ["run", "jobs", "deployments"] else seen.offers,
             Detach in seen.flags,
             Json in seen.flags))
  }

  /** What `compute start …` is understood as; `None` is a usage error. */
  ghost function ParseStart(argv: seq<string>): Option<StartCommand> {
    if |argv| < 2 || argv[1] != "start" then None
    else
      match ParseArguments(argv[2..], NOTHING)
      case Some(seen) => Build(seen)
      case None => None
  }

  // ---- Normalising arguments --------------------------------------------

  predicate IsPlacementPolicy(s: string) {
    s == "auto" || s == "local" || s == "remote"
  }

  function RewrittenAt(args: seq<string>, i: nat): string
    requires i < |args|
  {
    if args[i] == "--policy" && i + 1 < |args| && !IsPlacementPolicy(args[i + 1]) then "--execution-policy" else args[i]
  }

  function Rewritten(args: seq<string>): seq<string> {
    seq(|args|, i requires 0 <= i < |args| => RewrittenAt(args, i))
  }

  const PLACEMENT_WORDS := {"inspect", "explain", "--help", "-h"}
  const DEPLOYMENT_WORDS := {"list", "inspect", "status", "rollback", "receipt", "--help", "-h"}

  /** `inspect` is the default subcommand of `placement` and `deployment`, `up` that of everything. */
  function WithDefault(args: seq<string>, group: string, words: set<string>): seq<string> {
    if |args| >= 2 && args[1] == group && (|args| == 2 || args[2] !in words) then args[..2] + ["inspect"] + args[2..]
    else args
  }

  function Normalised(argv: seq<string>): seq<string> {
    var placed := WithDefault(Rewritten(argv), "placement", PLACEMENT_WORDS);
    WithDefault(if |placed| == 1 then placed + ["up"] else placed, "deployment", DEPLOYMENT_WORDS)
  }

  /** `parse_cli` before parsing. The loop rewrites the vector in place while it reads ahead in it. */
  method Normalise(argv: seq<string>) returns (arguments: seq<string>)
    ensures arguments == Normalised(argv)
  {
    arguments := argv;
    for index := 0 to if |argv| > 0 then |argv| - 1 else 0
      invariant |arguments| == |argv|
      invariant forall i | 0 <= i < |argv| :: arguments[i] == if i < index then RewrittenAt(argv, i) else argv[i]
    {
      if arguments[index] == "--policy" && !IsPlacementPolicy(arguments[index + 1]) {
        arguments := arguments[index := "--execution-policy"];
      }
    }
    assert arguments == Rewritten(argv);
    if |arguments| > 1 && arguments[1] == "placement" && (|arguments| == 2 || arguments[2] !in PLACEMENT_WORDS) {
      arguments := arguments[..2] + ["inspect"] + arguments[2..];
    }
    if |arguments| == 1 {
      arguments := arguments + ["up"];
    }
    if |arguments| > 1 && arguments[1] == "deployment" && (|arguments| == 2 || arguments[2] !in DEPLOYMENT_WORDS) {
      arguments := arguments[..2] + ["inspect"] + arguments[2..];
    }
  }

  /**
   What normalising adds: `up` to a call without arguments, and `inspect` to `placement` or `deployment` without a
   subcommand of theirs, which then always have one; nothing else is added, and nothing is taken away.
   */
  lemma DefaultsAreAdded(argv: seq<string>)
    ensures |argv| == 1 ==> Normalised(argv) == [argv[0], "up"]
    ensures |argv| > 1 && argv[1] != "placement" && argv[1] != "deployment" ==> Normalised(argv) == Rewritten(argv)
    ensures |argv| > 1 && argv[1] == "placement" ==>
              && |Normalised(argv)| > 2 && Normalised(argv)[2] in {"inspect", "explain", "--help", "-h"}
              && (Normalised(argv) == Rewritten(argv) || Normalised(argv) == Rewritten(argv)[..2] + ["inspect"] + Rewritten(argv)[2..])
    ensures |argv| > 1 && argv[1] == "deployment" ==>
              && |Normalised(argv)| > 2
              && Normalised(argv)[2] in {"list", "inspect", "status", "rollback", "receipt", "--help", "-h"}
              && (Normalised(argv) == Rewritten(argv) || Normalised(argv) == Rewritten(argv)[..2] + ["inspect"] + Rewritten(argv)[2..])
    ensures |argv| > 2 && argv[1] == "placement" && argv[2] in {"inspect", "explain", "--help", "-h"} ==> Normalised(argv) == Rewritten(argv)
    ensures |argv| > 2 && argv[1] == "deployment" && argv[2] in {"list", "inspect", "status", "rollback", "receipt", "--help", "-h"}
            ==> Normalised(argv) == Rewritten(argv)
  {
    if |argv| > 1 {
      SubcommandStays(argv);
    }
  }

  /**
   Normalised arguments stay as they are when normalised again, except from a program called `--policy` without
   arguments: the `up` it gets becomes the policy's file.
   */
  lemma NormalisedOnceExactlyWhen(argv: seq<string>)
    ensures Normalised(Normalised(argv)) == Normalised(argv) <==> argv != ["--policy"]
  {
    if |argv| > 1 {
      RewrittenAgain(argv);
      DefaultsAreAdded(argv);
      if argv[1] == "placement" || argv[1] == "deployment" {
        SubcommandStays(argv);
        RewrittenAroundDefault(Rewritten(argv));
      }
      assert Rewritten(Normalised(argv)) == Normalised(argv);
    } else if |argv| == 1 {
      assert Rewritten(argv) == argv;
      assert Normalised(argv) == [argv[0], "up"];
      assert argv == [argv[0]];
      assert argv[0] != "--policy" ==> Rewritten([argv[0], "up"]) == [argv[0], "up"];
      assert argv[0] == "--policy" ==> Rewritten([argv[0], "up"])[0] == "--execution-policy";
    }
  }

  lemma RewrittenAgain(argv: seq<string>)
    ensures Rewritten(Rewritten(argv)) == Rewritten(argv)
  {
  }

  lemma RewrittenAroundDefault(args: seq<string>)
    requires |args| > 1 && args[1] != "--policy" && Rewritten(args) == args
    ensures Rewritten(args[..2] + ["inspect"] + args[2..]) == args[..2] + ["inspect"] + args[2..]
  {
    var longer := args[..2] + ["inspect"] + args[2..];
    forall i | 0 <= i < |longer| ensures RewrittenAt(longer, i) == longer[i] {
      if i > 2 { assert Rewritten(args)[i - 1] == RewrittenAt(args, i - 1); }
      else if i < 2 { assert Rewritten(args)[i] == RewrittenAt(args, i); }
    }
  }

  lemma SubcommandStays(argv: seq<string>)
    requires |argv| > 1
    ensures argv[1] != "--policy" ==> Rewritten(argv)[1] == argv[1]
    ensures argv[1] == "--policy" ==> Rewritten(argv)[1] in {"--policy", "--execution-policy"}
    ensures |argv| > 2 && argv[2] != "--policy" ==> Rewritten(argv)[2] == argv[2]
  {
  }

  // ---- Rebuilding the argument list -------------------------------------

  /** How an option appears in the rebuilt list. */
  datatype Given = Absent | Flagged | Valued(value: string)

  function GivenText(value: Option<string>): Given {
    match value
    case Some(text) => Valued(text)
    case None => Absent
  }

  function GivenFlag(set_: bool): Given {
    if set_ then Flagged else Absent
  }

  function GivenIn(c: StartCommand, o: Opt): Given {
    match o
    case Listen => Valued(c.listen)
    case StateDir => Valued(c.stateDir)
    case PortRange => Valued(c.portRange)
    case ReconcileIntervalMs => Valued(Digits(c.reconcileIntervalMs))
    case State => GivenText(c.state.backend)
    case FeltdbUrl => GivenText(c.state.feltdbUrl)
    case FeltdbApplication => GivenText(c.state.feltdbApplication)
    case FeltdbEnvironment => GivenText(c.state.feltdbEnvironment)
    case FeltdbTokenEnv => GivenText(c.state.feltdbTokenEnv)
    case FeltdbCaFile => GivenText(c.state.feltdbCaFile)
    case Config => GivenText(c.state.config)
    case Policy => GivenText(c.policy)
    case PoolConfig => GivenText(c.poolConfig)
    case RequireTokenEnv => GivenText(c.requireTokenEnv)
    case LocalToken => GivenText(c.localToken)
    case Insecure => GivenFlag(c.insecure)
    case Headless => GivenFlag(c.headless)
    case DataPlane => Valued(c.dataPlane)
    case RequireStateAtStart => GivenFlag(c.requireStateAtStart)
    case Production => GivenFlag(c.production)
    case TlsCert => if c.tlsKey.Some? then GivenText(c.tlsCert) else Absent
    case TlsKey => if c.tlsCert.Some? then GivenText(c.tlsKey) else Absent
    case InstancePortRange => GivenText(c.instancePortRange)
    case DrainTimeoutMs => if c.drainTimeoutMs.Some? then Valued(Digits(c.drainTimeoutMs.value)) else Absent
    case IngressHttp => GivenText(c.ingressHttp)
    case IngressHttps => GivenText(c.ingressHttps)
    case EndpointAddress => GivenText(c.endpointAddress)
    case PublicUrl => GivenText(c.publicUrl)
    case ApplicationHost => GivenText(c.applicationHost)
    case Offer => Valued(Join(c.offer))
    case Detach => Absent
    case Json => Absent
  }

  function Words(o: Opt, given: Given): seq<string> {
    match given
    case Absent => []
    case Flagged => [Spelling(o)]
    case Valued(value) => [Spelling(o), value]
  }

  function Rendered(c: StartCommand, order: seq<Opt>): seq<string> {
    if order == [] then [] else Words(order[0], GivenIn(c, order[0])) + Rendered(c, order[1..])
  }

  const BASIC_ORDER := [Listen, StateDir, PortRange, ReconcileIntervalMs]
  const STATE_ORDER := [State, FeltdbUrl, FeltdbApplication, FeltdbEnvironment, FeltdbTokenEnv, FeltdbCaFile, Config]
  const ACCESS_ORDER := [Policy, PoolConfig, RequireTokenEnv, LocalToken, Insecure]
  const MODE_ORDER := [Headless, DataPlane, RequireStateAtStart, Production]
  const SERVICE_ORDER := [TlsCert, TlsKey, InstancePortRange, DrainTimeoutMs]
  const NETWORK_ORDER := [IngressHttp, IngressHttps, EndpointAddress, PublicUrl, ApplicationHost, Offer]
  const LATER_ORDER := ACCESS_ORDER + (MODE_ORDER + (SERVICE_ORDER + NETWORK_ORDER))
  const ORDER := BASIC_ORDER + (STATE_ORDER + LATER_ORDER)

  lemma {:induction false} RenderedSplits(c: StartCommand, first: seq<Opt>, rest: seq<Opt>)
    ensures Rendered(c, first + rest) == Rendered(c, first) + Rendered(c, rest)
  {
    hide GivenIn, Words;
    if first == [] {
      assert first + rest == rest;
    } else {
      assert (first + rest)[1..] == first[1..] + rest;
      RenderedSplits(c, first[1..], rest);
    }
  }

  /** One more option: the ghost record of the options written so far grows by it. */
  lemma Extend(c: StartCommand, order: seq<Opt>, o: Opt) returns (longer: seq<Opt>)
    ensures longer == order + [o]
    ensures Rendered(c, longer) == Rendered(c, order) + Words(o, GivenIn(c, o))
  {
    hide GivenIn, Words;
    longer := order + [o];
    RenderedSplits(c, order, [o]);
    assert Rendered(c, [o]) == Words(o, GivenIn(c, o)) + Rendered(c, []);
  }

  /** Pushes an option with its value, if there is one. */
  method Push(arguments: seq<string>, o: Opt, value: Option<string>, ghost c: StartCommand, ghost order: seq<Opt>)
    returns (more: seq<string>, ghost longer: seq<Opt>)
    requires arguments == Rendered(c, order) && GivenIn(c, o) == GivenText(value)
    ensures longer == order + [o] && more == Rendered(c, order + [o])
  {
    hide Rendered, GivenIn, Spelling;
    more := arguments;
    if value.Some? {
      more := more + [Spelling(o)];
      more := more + [value.value];
    }
    longer := Extend(c, order, o);
  }

  /** Pushes an option that has no value, if it is set. */
  method PushFlag(arguments: seq<string>, o: Opt, given: bool, ghost c: StartCommand, ghost order: seq<Opt>)
    returns (more: seq<string>, ghost longer: seq<Opt>)
    requires arguments == Rendered(c, order) && GivenIn(c, o) == GivenFlag(given)
    ensures longer == order + [o] && more == Rendered(c, order + [o])
  {
    hide Rendered, GivenIn, Spelling;
    more := if given then arguments + [Spelling(o)] else arguments;
    longer := Extend(c, order, o);
  }

  lemma Nothing(c: StartCommand)
    ensures Rendered(c, []) == []
  {
  }

  /** The options `detach` always writes first. */
  method BasicArguments(c: StartCommand) returns (arguments: seq<string>)
    ensures arguments == Rendered(c, BASIC_ORDER)
  {
    hide Rendered, Spelling, Digits, Join;
    ghost var order: seq<Opt> := [];
    arguments := [];
    Nothing(c);
    arguments, order := Push(arguments, Listen, Some(c.listen), c, order);
    arguments, order := Push(arguments, StateDir, Some(c.stateDir), c, order);
    arguments, order := Push(arguments, PortRange, Some(c.portRange), c, order);
    arguments, order := Push(arguments, ReconcileIntervalMs, Some(Digits(c.reconcileIntervalMs)), c, order);
    assert order == BASIC_ORDER;
  }

  /** `StateOptions::arguments`: the options of the nested group, for whatever command holds it. */
  method StateArguments(state: StateOptions, ghost c: StartCommand) returns (arguments: seq<string>)
    requires c.state == state
    ensures arguments == Rendered(c, STATE_ORDER)
  {
    hide Rendered, Spelling, Digits, Join;
    ghost var order: seq<Opt> := [];
    arguments := [];
    Nothing(c);
    arguments, order := Push(arguments, State, state.backend, c, order);
    arguments, order := Push(arguments, FeltdbUrl, state.feltdbUrl, c, order);
    arguments, order := Push(arguments, FeltdbApplication, state.feltdbApplication, c, order);
    arguments, order := Push(arguments, FeltdbEnvironment, state.feltdbEnvironment, c, order);
    arguments, order := Push(arguments, FeltdbTokenEnv, state.feltdbTokenEnv, c, order);
    arguments, order := Push(arguments, FeltdbCaFile, state.feltdbCaFile, c, order);
    arguments, order := Push(arguments, Config, state.config, c, order);
    assert order == STATE_ORDER;
  }

  /** Then who may call the API. */
  method AccessArguments(c: StartCommand) returns (arguments: seq<string>)
    ensures arguments == Rendered(c, ACCESS_ORDER)
  {
    hide Rendered, Spelling, Digits, Join;
    ghost var order: seq<Opt> := [];
    arguments := [];
    Nothing(c);
    arguments, order := Push(arguments, Policy, c.policy, c, order);
    arguments, order := Push(arguments, PoolConfig, c.poolConfig, c, order);
    arguments, order := Push(arguments, RequireTokenEnv, c.requireTokenEnv, c, order);
    arguments, order := Push(arguments, LocalToken, c.localToken, c, order);
    arguments, order := PushFlag(arguments, Insecure, c.insecure, c, order);
    assert order == ACCESS_ORDER;
  }

  /** Then how the node runs. */
  method ModeArguments(c: StartCommand) returns (arguments: seq<string>)
    ensures arguments == Rendered(c, MODE_ORDER)
  {
    hide Rendered, Spelling, Digits, Join;
    ghost var order: seq<Opt> := [];
    arguments := [];
    Nothing(c);
    arguments, order := PushFlag(arguments, Headless, c.headless, c, order);
    arguments, order := Push(arguments, DataPlane, Some(c.dataPlane), c, order);
    arguments, order := PushFlag(arguments, RequireStateAtStart, c.requireStateAtStart, c, order);
    arguments, order := PushFlag(arguments, Production, c.production, c, order);
    assert order == MODE_ORDER;
  }

  /** Then its services. A certificate or a key alone is not passed on. */
  method ServiceArguments(c: StartCommand) returns (arguments: seq<string>)
    ensures arguments == Rendered(c, SERVICE_ORDER)
  {
    hide Rendered, Spelling, Digits, Join;
    ghost var order: seq<Opt> := [];
    arguments := [];
    Nothing(c);
    var paired := c.tlsCert.Some? && c.tlsKey.Some?;
    arguments, order := Push(arguments, TlsCert, if paired then c.tlsCert else None, c, order);
    arguments, order := Push(arguments, TlsKey, if paired then c.tlsKey else None, c, order);
    arguments, order := Push(arguments, InstancePortRange, c.instancePortRange, c, order);
    var drain := if c.drainTimeoutMs.Some? then Some(Digits(c.drainTimeoutMs.value)) else None;
    arguments, order := Push(arguments, DrainTimeoutMs, drain, c, order);
    assert order == SERVICE_ORDER;
  }

  /** And last its addresses and what it offers. */
  method NetworkArguments(c: StartCommand) returns (arguments: seq<string>)
    ensures arguments == Rendered(c, NETWORK_ORDER)
  {
    hide Rendered, Spelling, Digits, Join;
    ghost var order: seq<Opt> := [];
    arguments := [];
    Nothing(c);
    arguments, order := Push(arguments, IngressHttp, c.ingressHttp, c, order);
    arguments, order := Push(arguments, IngressHttps, c.ingressHttps, c, order);
    arguments, order := Push(arguments, EndpointAddress, c.endpointAddress, c, order);
    arguments, order := Push(arguments, PublicUrl, c.publicUrl, c, order);
    arguments, order := Push(arguments, ApplicationHost, c.applicationHost, c, order);
    arguments, order := Push(arguments, Offer, Some(Join(c.offer)), c, order);
    assert order == NETWORK_ORDER;
  }

  /** `detach`: the arguments of the background process. */
  method Rebuild(c: StartCommand) returns (arguments: seq<string>)
    ensures arguments == ["start"] + Rendered(c, ORDER)
  {
    hide Rendered;
    var basic := BasicArguments(c);
    var state := StateArguments(c.state, c);
    var access := AccessArguments(c);
    var mode := ModeArguments(c);
    var service := ServiceArguments(c);
    var network := NetworkArguments(c);
    arguments := ["start"] + basic + state + access + mode + service + network;
    RenderedSplits(c, SERVICE_ORDER, NETWORK_ORDER);
    RenderedSplits(c, MODE_ORDER, SERVICE_ORDER + NETWORK_ORDER);
    RenderedSplits(c, ACCESS_ORDER, MODE_ORDER + (SERVICE_ORDER + NETWORK_ORDER));
    RenderedSplits(c, STATE_ORDER, LATER_ORDER);
    RenderedSplits(c, BASIC_ORDER, STATE_ORDER + LATER_ORDER);
  }

  // ---- Parsing what was rebuilt -----------------------------------------

  lemma SpellingIsWhole(o: Opt)
    ensures FirstEquals(Spelling(o)) == |Spelling(o)| && Spelling(o)[..|Spelling(o)|] == Spelling(o)
    ensures LooksLikeOption(Spelling(o)) && Spelling(o) != "--"
  {
    hide Spelling;
    SpellingHasNoEquals(o);
    SpellingIsMarked(o);
  }

  lemma ParseFlag(o: Opt, rest: seq<string>, seen: Seen)
    requires IsFlag(o) && o !in seen.flags
    ensures ParseArguments([Spelling(o)] + rest, seen) == ParseArguments(rest, seen.(flags := seen.flags + {o}))
  {
    hide Spelling, OptionNamed, FirstEquals, IsFlag;
    SpellingIsWhole(o);
    NamedBySpelling(o);
    assert ([Spelling(o)] + rest)[1..] == rest;
  }

  /** An option and its value: refused if the value looks like an option. */
  lemma ParseValue(o: Opt, value: string, rest: seq<string>, seen: Seen)
    requires !IsFlag(o) && o !in seen.texts
    ensures LooksLikeOption(value) ==> ParseArguments([Spelling(o), value] + rest, seen).None?
    ensures !LooksLikeOption(value)
            ==> ParseArguments([Spelling(o), value] + rest, seen) == ParseArguments(rest, After(seen, o, Valued(value)))
  {
    hide Spelling, OptionNamed, FirstEquals, IsFlag, LooksLikeOption;
    SpellingIsWhole(o);
    NamedBySpelling(o);
    assert ([Spelling(o), value] + rest)[2..] == rest;
  }

  const UNKNOWN := "--execution-policy"

  /** The spelling an execution policy is rewritten to is not an option of `start`. */
  lemma UnknownIsRefused(o: Opt)
    ensures Spelling(o) != UNKNOWN
  {
    hide Spelling;
    assert Mark(UNKNOWN) == (18, 'e', 'y');
    assert MarkOf(o) != (18, 'e', 'y') by { match o case _ => {} }
    SpellingIsMarked(o);
  }

  lemma ParseUnknown(rest: seq<string>, seen: Seen)
    ensures ParseArguments([UNKNOWN] + rest, seen).None?
  {
    hide Spelling, FirstEquals;
    assert '=' !in UNKNOWN;
    assert FirstEquals(UNKNOWN) == |UNKNOWN|;
    assert UNKNOWN[..|UNKNOWN|] == UNKNOWN;
    forall o: Opt ensures Spelling(o) != UNKNOWN { UnknownIsRefused(o); }
  }

  function After(seen: Seen, o: Opt, given: Given): Seen {
    match given
    case Absent => seen
    case Flagged => seen.(flags := seen.flags + {o})
    case Valued(value) =>
      if o == Offer then seen.(offers := seen.offers + Split(value)) else seen.(texts := seen.texts[o := value])
  }

  function AfterAll(c: StartCommand, order: seq<Opt>, seen: Seen): Seen {
    if order == [] then seen else AfterAll(c, order[1..], After(seen, order[0], GivenIn(c, order[0])))
  }

  /** The option reaches the child as it was written. */
  predicate Arrives(o: Opt, given: Given) {
    given.Valued? ==> !LooksLikeOption(given.value) && (o == Policy ==> IsPlacementPolicy(given.value))
  }

  predicate AllArrive(c: StartCommand, order: seq<Opt>) {
    forall o | o in order :: Arrives(o, GivenIn(c, o))
  }

  lemma {:induction false} RewrittenFirst(word: string, rest: seq<string>)
    ensures Rewritten([word] + rest)
            == [if word == "--policy" && rest != [] && !IsPlacementPolicy(rest[0]) then UNKNOWN else word] + Rewritten(rest)
  {
    var args := [word] + rest;
    assert forall i | 0 <= i < |rest| :: RewrittenAt(args, i + 1) == RewrittenAt(rest, i);
  }

  lemma GivenAsDeclared(c: StartCommand, o: Opt)
    ensures GivenIn(c, o).Flagged? ==> IsFlag(o)
    ensures GivenIn(c, o).Valued? ==> !IsFlag(o)
  {
    match o case _ => {}
  }

  /** One option of the rebuilt list, normalised and parsed. */
  lemma ParseWords(o: Opt, given: Given, tail: seq<string>, seen: Seen)
    requires o !in seen.flags && o !in seen.texts
    requires given.Flagged? ==> IsFlag(o)
    requires given.Valued? ==> !IsFlag(o)
    ensures ParseArguments(Rewritten(Words(o, given) + tail), seen)
            == if Arrives(o, given) then ParseArguments(Rewritten(tail), After(seen, o, given)) else None
  {
    hide ParseArguments, Spelling, Rewritten, IsFlag;
    assert Spelling(Policy) == "--policy" by { PolicySpelling(); }
    match given {
      case Absent =>
        assert [] + tail == tail;
      case Flagged =>
        FlagIsNotPolicy(o);
        RewrittenFirst(Spelling(o), tail);
        ParseFlag(o, Rewritten(tail), seen);
      case Valued(value) =>
        ParseWordsWithValue(o, value, tail, seen);
    }
  }

  lemma PolicySpelling()
    ensures Spelling(Policy) == "--policy" && LooksLikeOption("--policy") && LooksLikeOption(UNKNOWN)
  {
  }

  lemma FlagIsNotPolicy(o: Opt)
    requires IsFlag(o)
    ensures Spelling(o) != "--policy"
  {
    hide Spelling;
    PolicySpelling();
    if Spelling(o) == "--policy" { SpellingsDiffer(o, Policy); }
  }

  lemma ParseWordsWithValue(o: Opt, value: string, tail: seq<string>, seen: Seen)
    requires o !in seen.texts && !IsFlag(o)
    ensures ParseArguments(Rewritten([Spelling(o), value] + tail), seen)
            == if Arrives(o, Valued(value)) then ParseArguments(Rewritten(tail), After(seen, o, Valued(value))) else None
  {
    hide ParseArguments, Spelling, Rewritten, IsFlag, After, IsPlacementPolicy, LooksLikeOption;
    PolicySpelling();
    RewrittenFirst(Spelling(o), [value] + tail);
    RewrittenFirst(value, tail);
    assert [Spelling(o)] + ([value] + tail) == [Spelling(o), value] + tail;
    var rest := Rewritten(tail);
    var v := if value == "--policy" && tail != [] && !IsPlacementPolicy(tail[0]) then UNKNOWN else value;
    assert Rewritten([value] + tail) == [v] + rest;
    if Spelling(o) == "--policy" && !IsPlacementPolicy(value) {
      SpellingsDiffer(o, Policy);
      ParseUnknown([v] + rest, seen);
    } else {
      ParseValue(o, v, rest, seen);
      assert [Spelling(o)] + ([v] + rest) == [Spelling(o), v] + rest;
    }
  }

  predicate Distinct(order: seq<Opt>) {
    forall i, j | 0 <= i < j < |order| :: order[i] != order[j]
  }

  ghost predicate Untouched(order: seq<Opt>, seen: Seen) {
    forall o | o in order :: o !in seen.flags && o !in seen.texts
  }

  lemma {:induction false} ParseRendered(c: StartCommand, order: seq<Opt>, seen: Seen)
    requires Distinct(order) && Untouched(order, seen)
    ensures ParseArguments(Rewritten(Rendered(c, order)), seen)
            == if AllArrive(c, order) then Some(AfterAll(c, order, seen)) else None
    decreases |order|
  {
    hide GivenIn, Words, Rewritten, Arrives, IsFlag;
    if order == [] {
      assert Rewritten([]) == [] by { RewrittenNothing(); }
    } else {
      var o, rest := order[0], order[1..];
      var given := GivenIn(c, o);
      GivenAsDeclared(c, o);
      ParseWords(o, given, Rendered(c, rest), seen);
      ParseRendered(c, rest, After(seen, o, given));
      assert AllArrive(c, order) <==> Arrives(o, given) && AllArrive(c, rest) by {
        assert order == [o] + rest;
      }
    }
  }

  lemma RewrittenNothing()
    ensures Rewritten([]) == []
  {
  }

  /** The flags the parser has seen, once it has read all options. */
  lemma {:induction false} SeenFlag(c: StartCommand, order: seq<Opt>, seen: Seen, o: Opt)
    ensures o in AfterAll(c, order, seen).flags <==> o in seen.flags || (o in order && GivenIn(c, o).Flagged?)
    decreases |order|
  {
    hide GivenIn;
    if order != [] {
      assert order == [order[0]] + order[1..];
      SeenFlag(c, order[1..], After(seen, order[0], GivenIn(c, order[0])), o);
    }
  }

  lemma TextAfter(seen: Seen, first: Opt, given: Given, o: Opt)
    ensures Text(After(seen, first, given), o)
            == if o == first && o != Offer && given.Valued? then Some(given.value) else Text(seen, o)
  {
  }

  /** The values it has seen. */
  lemma {:induction false} SeenText(c: StartCommand, order: seq<Opt>, seen: Seen, o: Opt)
    requires Distinct(order)
    ensures Text(AfterAll(c, order, seen), o)
            == if o != Offer && o in order && GivenIn(c, o).Valued? then Some(GivenIn(c, o).value) else Text(seen, o)
    decreases |order|
  {
    hide GivenIn, Text, After;
    if order != [] {
      assert order == [order[0]] + order[1..];
      TextAfter(seen, order[0], GivenIn(c, order[0]), o);
      SeenText(c, order[1..], After(seen, order[0], GivenIn(c, order[0])), o);
    }
  }

  lemma {:induction false} SeenOffers(c: StartCommand, order: seq<Opt>, seen: Seen)
    requires Distinct(order)
    ensures AfterAll(c, order, seen).offers == seen.offers + if Offer in order then Split(Join(c.offer)) else []
    decreases |order|
  {
    hide Split, Join;
    if order != [] {
      SeenOffers(c, order[1..], After(seen, order[0], GivenIn(c, order[0])));
    }
  }

  /** The parser's view of the rebuilt list holds what was written, and nothing else. */
  ghost predicate Holds(seen: Seen, c: StartCommand) {
    && (forall o: Opt :: o in seen.flags <==> GivenIn(c, o).Flagged?)
    && (forall o: Opt | o != Offer :: Text(seen, o) == if GivenIn(c, o).Valued? then Some(GivenIn(c, o).value) else None)
    && Offer !in seen.texts
    && seen.offers == Split(Join(c.offer))
  }

  predicate PlacedFrom(group: seq<Opt>, first: nat) {
    forall i | 0 <= i < |group| :: Place(group[i]) == first + i
  }

  lemma PlacedTogether(a: seq<Opt>, b: seq<Opt>, first: nat)
    requires PlacedFrom(a, first) && PlacedFrom(b, first + |a|)
    ensures PlacedFrom(a + b, first)
  {
  }

  lemma LaterIsPlaced()
    ensures PlacedFrom(LATER_ORDER, 11) && |LATER_ORDER| == 19
  {
    hide Place;
    assert PlacedFrom(ACCESS_ORDER, 11) by { AccessIsPlaced(); }
    assert PlacedFrom(MODE_ORDER, 16) && PlacedFrom(SERVICE_ORDER, 20) by { ModeIsPlaced(); }
    assert PlacedFrom(NETWORK_ORDER, 24) by { NetworkIsPlaced(); }
    PlacedTogether(SERVICE_ORDER, NETWORK_ORDER, 20);
    PlacedTogether(MODE_ORDER, SERVICE_ORDER + NETWORK_ORDER, 16);
    PlacedTogether(ACCESS_ORDER, MODE_ORDER + (SERVICE_ORDER + NETWORK_ORDER), 11);
  }

  lemma BasicIsPlaced() ensures PlacedFrom(BASIC_ORDER, 0) && PlacedFrom(STATE_ORDER, 4) {}

  lemma AccessIsPlaced() ensures PlacedFrom(ACCESS_ORDER, 11) {}

  lemma ModeIsPlaced() ensures PlacedFrom(MODE_ORDER, 16) && PlacedFrom(SERVICE_ORDER, 20) {}

  lemma NetworkIsPlaced() ensures PlacedFrom(NETWORK_ORDER, 24) {}

  function OptionAt(place: nat): Opt {
    match place
    case 0 => Listen
    case 1 => StateDir
    case 2 => PortRange
    case 3 => ReconcileIntervalMs
    case 4 => State
    case 5 => FeltdbUrl
    case 6 => FeltdbApplication
    case 7 => FeltdbEnvironment
    case 8 => FeltdbTokenEnv
    case 9 => FeltdbCaFile
    case 10 => Config
    case 11 => Policy
    case 12 => PoolConfig
    case 13 => RequireTokenEnv
    case 14 => LocalToken
    case 15 => Insecure
    case 16 => Headless
    case 17 => DataPlane
    case 18 => RequireStateAtStart
    case 19 => Production
    case 20 => TlsCert
    case 21 => TlsKey
    case 22 => InstancePortRange
    case 23 => DrainTimeoutMs
    case 24 => IngressHttp
    case 25 => IngressHttps
    case 26 => EndpointAddress
    case 27 => PublicUrl
    case 28 => ApplicationHost
    case 29 => Offer
    case 30 => Detach
    case _ => Json
  }

  lemma PlaceTellsOption(o: Opt)
    ensures OptionAt(Place(o)) == o
  {
    match o case _ => {}
  }

  lemma PlacesDiffer(a: Opt, b: Opt)
    requires Place(a) == Place(b)
    ensures a == b
  {
    hide Place, OptionAt;
    PlaceTellsOption(a);
    PlaceTellsOption(b);
  }

  lemma PlaceIsBounded(o: Opt)
    ensures Place(o) < 30 <==> o != Detach && o != Json
  {
    match o case _ => {}
  }

  /** Every option but `--detach` and `--json` is written, once. */
  lemma OrderIsEverything()
    ensures Distinct(ORDER)
    ensures forall o: Opt :: o in ORDER <==> o != Detach && o != Json
  {
    hide Place;
    BasicIsPlaced();
    LaterIsPlaced();
    PlacedTogether(STATE_ORDER, LATER_ORDER, 4);
    PlacedTogether(BASIC_ORDER, STATE_ORDER + LATER_ORDER, 0);
    assert PlacedFrom(ORDER, 0) && |ORDER| == 30;
    forall o: Opt ensures o in ORDER <==> o != Detach && o != Json {
      PlaceIsBounded(o);
      if Place(o) < 30 {
        PlacesDiffer(o, ORDER[Place(o)]);
      }
    }
  }

  // ---- The round trip ---------------------------------------------------

  predicate NotEmpty(path: Option<string>) {
    path != Some("")
  }

  /** What every command accepted by the parser satisfies. */
  predicate Fits(c: StartCommand) {
    && (c.tlsCert.Some? <==> c.tlsKey.Some?)
    && (c.localToken.Some? ==> c.requireTokenEnv.None? && !c.insecure)
    && !(c.insecure && c.production)
    && c.stateDir != "" && NotEmpty(c.policy) && NotEmpty(c.poolConfig) && NotEmpty(c.localToken)
    && NotEmpty(c.tlsCert) && NotEmpty(c.tlsKey) && NotEmpty(c.state.feltdbCaFile) && NotEmpty(c.state.config)
    && c.dataPlane in {"supervisor", "in-process"}
    && c.offer != [] && NoCommas(c.offer)
  }

  /** No value starts with a hyphen, and a policy is not the name of a file. */
  predicate Repeatable(c: StartCommand) {
    AllArrive(c, ORDER)
  }

  lemma TextGiven(c: StartCommand, seen: Seen, o: Opt)
    requires Holds(seen, c) && o != Offer
    ensures Text(seen, o) == if GivenIn(c, o).Valued? then Some(GivenIn(c, o).value) else None
    ensures o in seen.texts <==> GivenIn(c, o).Valued?
  {
  }

  lemma StateIsBuilt(seen: Seen, c: StartCommand)
    requires Holds(seen, c)
    ensures BuildState(seen) == c.state
  {
    hide Holds, Text;
    TextGiven(c, seen, State);
    TextGiven(c, seen, FeltdbUrl);
    TextGiven(c, seen, FeltdbApplication);
    TextGiven(c, seen, FeltdbEnvironment);
    TextGiven(c, seen, FeltdbTokenEnv);
    TextGiven(c, seen, FeltdbCaFile);
    TextGiven(c, seen, Config);
  }

  /** The paths among the texts, one by one. */
  predicate PathsAreNotEmpty(seen: Seen) {
    && NotEmpty(Text(seen, StateDir)) && NotEmpty(Text(seen, Policy)) && NotEmpty(Text(seen, PoolConfig))
    && NotEmpty(Text(seen, LocalToken)) && NotEmpty(Text(seen, TlsCert)) && NotEmpty(Text(seen, TlsKey))
    && NotEmpty(Text(seen, FeltdbCaFile)) && NotEmpty(Text(seen, Config))
  }

  lemma PathsOneByOne(seen: Seen)
    ensures (forall o | o in seen.texts && IsPath(o) :: seen.texts[o] != "") <==> PathsAreNotEmpty(seen)
  {
    if PathsAreNotEmpty(seen) {
      forall o | o in seen.texts && IsPath(o) ensures seen.texts[o] != "" {
        assert Text(seen, o) == Some(seen.texts[o]);
      }
    }
  }

  lemma PathsGiven(seen: Seen, c: StartCommand)
    requires Holds(seen, c)
    requires c.tlsCert.Some? <==> c.tlsKey.Some?
    ensures (forall o | o in seen.texts && IsPath(o) :: seen.texts[o] != "")
            <==> && c.stateDir != "" && NotEmpty(c.policy) && NotEmpty(c.poolConfig) && NotEmpty(c.localToken)
                 && NotEmpty(c.tlsCert) && NotEmpty(c.tlsKey) && NotEmpty(c.state.feltdbCaFile) && NotEmpty(c.state.config)
  {
    PathsOneByOne(seen);
    hide Holds, Text, IsPath;
    TextGiven(c, seen, StateDir);
    TextGiven(c, seen, Policy);
    TextGiven(c, seen, PoolConfig);
    TextGiven(c, seen, LocalToken);
    TextGiven(c, seen, TlsCert);
    TextGiven(c, seen, TlsKey);
    TextGiven(c, seen, FeltdbCaFile);
    TextGiven(c, seen, Config);
  }

  lemma NumbersGiven(seen: Seen, c: StartCommand)
    requires Holds(seen, c)
    ensures ParseU64(Text(seen, ReconcileIntervalMs).GetOr("5000")) == Some(c.reconcileIntervalMs)
    ensures DrainTimeoutMs in seen.texts <==> c.drainTimeoutMs.Some?
    ensures DrainTimeoutMs in seen.texts ==> ParseU64(seen.texts[DrainTimeoutMs]) == c.drainTimeoutMs
  {
    hide Holds, ParseU64, Digits;
    TextGiven(c, seen, ReconcileIntervalMs);
    PrintedNumberIsParsed(c.reconcileIntervalMs);
    TextGiven(c, seen, DrainTimeoutMs);
    if c.drainTimeoutMs.Some? {
      PrintedNumberIsParsed(c.drainTimeoutMs.value);
    }
  }

  lemma FlagGiven(seen: Seen, c: StartCommand, o: Opt)
    requires Holds(seen, c)
    ensures o in seen.flags <==> GivenIn(c, o).Flagged?
  {
  }

  lemma FixedTextsGiven(seen: Seen, c: StartCommand)
    requires Holds(seen, c)
    ensures Text(seen, Listen) == Some(c.listen)
    ensures Text(seen, StateDir) == Some(c.stateDir)
    ensures Text(seen, PortRange) == Some(c.portRange)
    ensures Text(seen, DataPlane) == Some(c.dataPlane)
  {
    hide Holds, Text;
    TextGiven(c, seen, Listen);
    TextGiven(c, seen, StateDir);
    TextGiven(c, seen, PortRange);
    TextGiven(c, seen, DataPlane);
  }

  lemma AccessTextsGiven(seen: Seen, c: StartCommand)
    requires Holds(seen, c)
    ensures Text(seen, Policy) == c.policy
    ensures Text(seen, PoolConfig) == c.poolConfig
    ensures Text(seen, RequireTokenEnv) == c.requireTokenEnv
    ensures Text(seen, LocalToken) == c.localToken
    ensures Text(seen, InstancePortRange) == c.instancePortRange
  {
    hide Holds, Text;
    TextGiven(c, seen, Policy);
    TextGiven(c, seen, PoolConfig);
    TextGiven(c, seen, RequireTokenEnv);
    TextGiven(c, seen, LocalToken);
    TextGiven(c, seen, InstancePortRange);
  }

  lemma AddressTextsGiven(seen: Seen, c: StartCommand)
    requires Holds(seen, c)
    ensures Text(seen, IngressHttp) == c.ingressHttp
    ensures Text(seen, IngressHttps) == c.ingressHttps
    ensures Text(seen, EndpointAddress) == c.endpointAddress
    ensures Text(seen, PublicUrl) == c.publicUrl
    ensures Text(seen, ApplicationHost) == c.applicationHost
  {
    hide Holds, Text;
    TextGiven(c, seen, IngressHttp);
    TextGiven(c, seen, IngressHttps);
    TextGiven(c, seen, EndpointAddress);
    TextGiven(c, seen, PublicUrl);
    TextGiven(c, seen, ApplicationHost);
  }

  lemma TlsTextsGiven(seen: Seen, c: StartCommand)
    requires Holds(seen, c)
    ensures Text(seen, TlsCert) == if c.tlsCert.Some? && c.tlsKey.Some? then c.tlsCert else None
    ensures Text(seen, TlsKey) == if c.tlsCert.Some? && c.tlsKey.Some? then c.tlsKey else None
  {
    hide Holds, Text;
    TextGiven(c, seen, TlsCert);
    TextGiven(c, seen, TlsKey);
  }

  lemma FlagsGiven(seen: Seen, c: StartCommand)
    requires Holds(seen, c)
    ensures Insecure in seen.flags <==> c.insecure
    ensures Headless in seen.flags <==> c.headless
    ensures Production in seen.flags <==> c.production
    ensures RequireStateAtStart in seen.flags <==> c.requireStateAtStart
    ensures Detach !in seen.flags && Json !in seen.flags
  {
    hide Holds;
    FlagGiven(seen, c, Insecure);
    FlagGiven(seen, c, Headless);
    FlagGiven(seen, c, Production);
    FlagGiven(seen, c, RequireStateAtStart);
    FlagGiven(seen, c, Detach);
    FlagGiven(seen, c, Json);
  }

  /** With its certificate and key together, what is written is accepted exactly when the command fits. */
  lemma CompatibleGiven(seen: Seen, c: StartCommand)
    requires Holds(seen, c)
    requires c.tlsCert.Some? <==> c.tlsKey.Some?
    requires c.offer != [] && NoCommas(c.offer)
    ensures Compatible(seen) <==> Fits(c)
  {
    hide Holds, ParseU64, Digits, IsPath, GivenIn, NotEmpty;
    PathsGiven(seen, c);
    NumbersGiven(seen, c);
    FixedTextsGiven(seen, c);
    AccessTextsGiven(seen, c);
    TlsTextsGiven(seen, c);
    FlagsGiven(seen, c);
  }

  /** If it is accepted, it is the command, but for a certificate or key alone and a list that does not survive. */
  lemma BuildGiven(seen: Seen, c: StartCommand)
    requires Holds(seen, c) && Compatible(seen)
    ensures var paired := c.tlsCert.Some? && c.tlsKey.Some?;
            Build(seen) == Some(Cleared(c).(tlsCert := if paired then c.tlsCert else None,
                                            tlsKey := if paired then c.tlsKey else None,
                                            offer := Split(Join(c.offer))))
  {
    StateIsBuilt(seen, c);
    NumbersGiven(seen, c);
    assert seen.offers == Split(Join(c.offer)) && seen.offers != [];
    hide Holds, Text, ParseU64, Compatible, BuildState, Split, Join, GivenIn;
    FixedTextsGiven(seen, c);
    AccessTextsGiven(seen, c);
    AddressTextsGiven(seen, c);
    TlsTextsGiven(seen, c);
    FlagsGiven(seen, c);
  }

  lemma BuiltExactlyWhen(seen: Seen, c: StartCommand)
    requires Holds(seen, c)
    ensures Build(seen) == Some(Cleared(c)) <==> Fits(c)
  {
    ListSurvivesExactlyWhen(c.offer);
    if Build(seen) == Some(Cleared(c)) {
      assert Compatible(seen);
      BuildGiven(seen, c);
      CompatibleGiven(seen, c);
    }
    if Fits(c) {
      CompatibleGiven(seen, c);
      BuildGiven(seen, c);
    }
  }

  lemma AfterAllHolds(c: StartCommand)
    ensures Holds(AfterAll(c, ORDER, NOTHING), c)
  {
    hide AfterAll, Split, Join;
    OrderIsEverything();
    var seen := AfterAll(c, ORDER, NOTHING);
    forall o: Opt ensures o in seen.flags <==> GivenIn(c, o).Flagged? {
      SeenFlag(c, ORDER, NOTHING, o);
    }
    forall o: Opt | o != Offer
      ensures Text(seen, o) == if GivenIn(c, o).Valued? then Some(GivenIn(c, o).value) else None
    {
      SeenText(c, ORDER, NOTHING, o);
    }
    SeenText(c, ORDER, NOTHING, Offer);
    SeenOffers(c, ORDER, NOTHING);
  }

  lemma NormalisedStart(program: string, args: seq<string>)
    ensures Normalised([program, "start"] + args)[1..] == ["start"] + Rewritten(args)
    ensures |Normalised([program, "start"] + args)| >= 2
  {
    RewrittenFirst("start", args);
    RewrittenFirst(program, ["start"] + args);
    assert [program] + (["start"] + args) == [program, "start"] + args;
  }

  /**
   The round trip. The background process runs the very command it was started for, with only `--detach` and
   `--json` cleared, exactly when the command fits and can be repeated. One that cannot be repeated is refused.
   */
  lemma DetachedStartExactlyWhen(program: string, c: StartCommand)
    ensures ParseStart(Normalised([program, "start"] + Rendered(c, ORDER))) == Some(Cleared(c))
            <==> Fits(c) && Repeatable(c)
    ensures !Repeatable(c) ==> ParseStart(Normalised([program, "start"] + Rendered(c, ORDER))).None?
  {
    var args := Rendered(c, ORDER);
    OrderIsEverything();
    ParseRendered(c, ORDER, NOTHING);
    AfterAllHolds(c);
    BuiltExactlyWhen(AfterAll(c, ORDER, NOTHING), c);
    NormalisedStart(program, args);
    hide Normalised, ParseArguments, Rendered, Build, Fits, Holds, AfterAll, Rewritten;
    var argv := Normalised([program, "start"] + args);
    assert argv[1] == argv[1..][0] && argv[2..] == argv[1..][1..] == Rewritten(args);
  }

  // ---- Which commands can be repeated -----------------------------------

  lemma TakeKeepsOffers(seen: Seen, o: Opt, value: string)
    requires NoCommas(seen.offers)
    ensures var more := Take(seen, o, value); more.Some? ==> NoCommas(more.value.offers)
  {
    hide Split;
  }

  lemma {:induction false} ParseKeepsOffers(args: seq<string>, seen: Seen)
    requires NoCommas(seen.offers)
    ensures var parsed := ParseArguments(args, seen); parsed.Some? ==> NoCommas(parsed.value.offers)
    decreases |args|
  {
    hide OptionNamed, FirstEquals, NoCommas, Take, IsFlag, LooksLikeOption;
    if args != [] {
      var i := FirstEquals(args[0]);
      var named := OptionNamed(args[0][..i]);
      if named.Some? {
        var o := named.value;
        if i < |args[0]| {
          var more := Take(seen, o, args[0][i + 1..]);
          TakeKeepsOffers(seen, o, args[0][i + 1..]);
          if more.Some? { ParseKeepsOffers(args[1..], more.value); }
        } else if IsFlag(o) {
          var more := TakeFlag(seen, o);
          if more.Some? { ParseKeepsOffers(args[1..], more.value); }
        } else if |args| > 1 {
          var more := Take(seen, o, args[1]);
          TakeKeepsOffers(seen, o, args[1]);
          if more.Some? { ParseKeepsOffers(args[2..], more.value); }
        }
      }
    }
  }

  lemma BuiltFits(seen: Seen)
    requires Build(seen).Some? && NoCommas(seen.offers)
    ensures Fits(Build(seen).value)
  {
    hide ParseU64;
    PathsOneByOne(seen);
  }

  /** Every command the parser accepts fits, so that whether it can be repeated is all that matters. */
  lemma AcceptedFits(argv: seq<string>)
    requires ParseStart(argv).Some?
    ensures Fits(ParseStart(argv).value)
  {
    hide ParseArguments, Build, Fits;
    ParseKeepsOffers(argv[2..], NOTHING);
    BuiltFits(ParseArguments(argv[2..], NOTHING).value);
  }

  /** For every command line that is accepted: its background process runs it exactly when it can be repeated. */
  lemma AcceptedStartsAgainExactlyWhen(argv: seq<string>, program: string)
    requires ParseStart(Normalised(argv)).Some?
    ensures var c := ParseStart(Normalised(argv)).value;
            ParseStart(Normalised([program, "start"] + Rendered(c, ORDER))) == Some(Cleared(c)) <==> Repeatable(c)
  {
    hide ParseStart, Normalised, Repeatable, Fits;
    AcceptedFits(Normalised(argv));
    DetachedStartExactlyWhen(program, ParseStart(Normalised(argv)).value);
  }

  lemma {:induction false} UnknownAnywhereIsRefused(args: seq<string>, seen: Seen)
    requires UNKNOWN in args
    ensures ParseArguments(args, seen).None?
    decreases |args|
  {
    hide OptionNamed, FirstEquals, IsFlag, Take, TakeFlag;
    PolicySpelling();
    if args[0] == UNKNOWN {
      ParseUnknown(args[1..], seen);
      assert [UNKNOWN] + args[1..] == args;
    } else {
      forall more: Seen ensures ParseArguments(args[1..], more).None? {
        UnknownAnywhereIsRefused(args[1..], more);
      }
      if args[1] != UNKNOWN {
        forall more: Seen ensures ParseArguments(args[2..], more).None? {
          UnknownAnywhereIsRefused(args[2..], more);
        }
      }
    }
  }

  /**
   `compute start --policy FILE` is refused, although `start` declares `--policy`: the spelling is rewritten for
   another command before parsing, wherever it stands.
   */
  lemma PolicyFileIsRefused(program: string, args: seq<string>, i: nat)
    requires i + 1 < |args| && args[i] == "--policy" && !IsPlacementPolicy(args[i + 1])
    ensures ParseStart(Normalised([program, "start"] + args)).None?
  {
    NormalisedStart(program, args);
    assert Rewritten(args)[i] == UNKNOWN;
    UnknownAnywhereIsRefused(Rewritten(args), NOTHING);
    hide Normalised, ParseArguments, Rewritten;
    var argv := Normalised([program, "start"] + args);
    assert argv[2..] == argv[1..][1..] == Rewritten(args);
  }

  lemma {:induction false} FirstEqualsAt(name: string, value: string)
    requires '=' !in name
    ensures FirstEquals(name + "=" + value) == |name|
  {
    if name != [] {
      assert (name + "=" + value)[1..] == name[1..] + "=" + value;
      FirstEqualsAt(name[1..], value);
    }
  }

  /** With an equals sign any value is taken, also one that starts with a hyphen. */
  lemma ParseAttached(o: Opt, value: string, rest: seq<string>, seen: Seen)
    requires !IsFlag(o) && o !in seen.texts
    ensures ParseArguments([Spelling(o) + "=" + value] + rest, seen) == ParseArguments(rest, After(seen, o, Valued(value)))
  {
    hide Spelling, OptionNamed, FirstEquals, IsFlag;
    var word := Spelling(o) + "=" + value;
    SpellingHasNoEquals(o);
    FirstEqualsAt(Spelling(o), value);
    NamedBySpelling(o);
    assert word[..|Spelling(o)|] == Spelling(o) && word[|Spelling(o)| + 1..] == value;
    assert ([word] + rest)[1..] == rest;
  }

  /** What `start --detach --OPTION=VALUE` is understood as. */
  lemma AttachedStart(program: string, o: Opt, value: string)
    requires !IsFlag(o)
    ensures ParseStart(Normalised([program, "start"] + [Spelling(Detach), Spelling(o) + "=" + value]))
            == Build(After(NOTHING.(flags := {Detach}), o, Valued(value)))
  {
    hide Spelling, ParseArguments, Build, After;
    var attached := Spelling(o) + "=" + value;
    var args := [Spelling(Detach), attached];
    var detached := NOTHING.(flags := NOTHING.flags + {Detach});
    NormalisedStart(program, args);
    assert Rewritten(args) == args by {
      FlagIsNotPolicy(Detach);
    }
    ParseFlag(Detach, [attached], NOTHING);
    ParseAttached(o, value, [], detached);
    assert [Spelling(Detach)] + [attached] == args && [attached] + [] == [attached];
    ParseNothing(After(detached, o, Valued(value)));
    assert detached == NOTHING.(flags := {Detach});
    hide Normalised, Rewritten;
    var argv := Normalised([program, "start"] + args);
    assert argv[1] == argv[1..][0] && argv[2..] == argv[1..][1..] == args;
  }

  lemma ParseNothing(seen: Seen)
    ensures ParseArguments([], seen) == Some(seen)
  {
  }

  /** One option that does not arrive is enough. */
  lemma NotRepeated(program: string, c: StartCommand, o: Opt)
    requires o != Detach && o != Json && !Arrives(o, GivenIn(c, o))
    ensures ParseStart(Normalised([program, "start"] + Rendered(c, ORDER))).None?
  {
    hide Arrives, GivenIn, ParseStart, Normalised, Rendered;
    OrderIsEverything();
    DetachedStartExactlyWhen(program, c);
  }

  function OnlyWith(o: Opt, value: string): Seen {
    After(NOTHING.(flags := {Detach}), o, Valued(value))
  }

  lemma AttachedPolicy(file: string)
    requires file != "" && !IsPlacementPolicy(file)
    ensures var started := Build(OnlyWith(Policy, file));
            && started.Some? && started.value.policy == Some(file) && started.value.detach
            && !Arrives(Policy, GivenIn(started.value, Policy))
  {
    hide ParseU64;
    DefaultIsNumber();
    assert Compatible(OnlyWith(Policy, file));
  }

  lemma AttachedStateDir(directory: string)
    requires LooksLikeOption(directory)
    ensures var started := Build(OnlyWith(StateDir, directory));
            && started.Some? && started.value.stateDir == directory && started.value.detach
            && !Arrives(StateDir, GivenIn(started.value, StateDir))
  {
    hide ParseU64;
    DefaultIsNumber();
    assert Compatible(OnlyWith(StateDir, directory));
  }

  /**
   Accepted and then refused: `start --detach --policy=FILE` is understood, but the background process it starts
   ends with a usage error.
   */
  lemma PolicyFileIsNotRepeated(program: string, file: string)
    requires file != "" && !IsPlacementPolicy(file)
    ensures var started := ParseStart(Normalised([program, "start"] + [Spelling(Detach), Spelling(Policy) + "=" + file]));
            && started.Some? && started.value.policy == Some(file) && started.value.detach
            && ParseStart(Normalised([program, "start"] + Rendered(started.value, ORDER))).None?
  {
    AttachedStart(program, Policy, file);
    hide Build, Arrives, ParseStart, Normalised, Rendered, Spelling, GivenIn, After;
    AttachedPolicy(file);
    NotRepeated(program, Build(OnlyWith(Policy, file)).value, Policy);
  }

  /** The same happens to a value that starts with a hyphen, here the directory of the node. */
  lemma HyphenIsNotRepeated(program: string, directory: string)
    requires LooksLikeOption(directory)
    ensures var started := ParseStart(Normalised([program, "start"] + [Spelling(Detach), Spelling(StateDir) + "=" + directory]));
            && started.Some? && started.value.stateDir == directory && started.value.detach
            && ParseStart(Normalised([program, "start"] + Rendered(started.value, ORDER))).None?
  {
    AttachedStart(program, StateDir, directory);
    hide Build, Arrives, ParseStart, Normalised, Rendered, Spelling, GivenIn, After;
    AttachedStateDir(directory);
    NotRepeated(program, Build(OnlyWith(StateDir, directory)).value, StateDir);
  }

  // ---- What is refused, and what is filled in ---------------------------

  /** An option that was given is refused when it comes again, attached or not, unless it is `--offer`; so is a flag. */
  lemma SecondTimeIsRefused(o: Opt, value: string, rest: seq<string>, seen: Seen)
    ensures !IsFlag(o) && o in seen.texts && o != Offer ==>
              && ParseArguments([Spelling(o), value] + rest, seen).None?
              && ParseArguments([Spelling(o) + "=" + value] + rest, seen).None?
    ensures IsFlag(o) && o in seen.flags ==> ParseArguments([Spelling(o)] + rest, seen).None?
  {
    hide Spelling, OptionNamed, FirstEquals, IsFlag, LooksLikeOption;
    SpellingIsWhole(o);
    NamedBySpelling(o);
    AttachedSplits(o, value);
    var word := Spelling(o) + "=" + value;
    assert ([word] + rest)[0] == word && ([Spelling(o)] + rest)[0] == Spelling(o) && ([Spelling(o), value] + rest)[0] == Spelling(o);
  }

  lemma AttachedSplits(o: Opt, value: string)
    ensures var word := Spelling(o) + "=" + value;
            FirstEquals(word) == |Spelling(o)| && |Spelling(o)| < |word| && word[..|Spelling(o)|] == Spelling(o) && word != "--"
  {
    hide Spelling, FirstEquals;
    SpellingHasNoEquals(o);
    FirstEqualsAt(Spelling(o), value);
    assert '=' in Spelling(o) + "=" + value;
  }

  /** A flag takes no value. */
  lemma FlagTakesNoValue(o: Opt, value: string, rest: seq<string>, seen: Seen)
    requires IsFlag(o)
    ensures ParseArguments([Spelling(o) + "=" + value] + rest, seen).None?
  {
    hide Spelling, OptionNamed, FirstEquals, IsFlag;
    NamedBySpelling(o);
    AttachedSplits(o, value);
    var word := Spelling(o) + "=" + value;
    assert ([word] + rest)[0] == word;
  }

  /** A value of its own is taken exactly when it does not start with a hyphen, or is nothing but one. */
  lemma SeparateValueExactlyWhen(o: Opt, value: string, seen: Seen)
    requires !IsFlag(o) && o !in seen.texts
    ensures ParseArguments([Spelling(o), value], seen).Some? <==> value == "-" || value == "" || value[0] != '-'
  {
    hide Spelling, ParseArguments, After;
    ParseValue(o, value, [], seen);
    assert [Spelling(o), value] + [] == [Spelling(o), value];
    ParseNothing(After(seen, o, Valued(value)));
  }

  /** `--policy` is the execution policy's old name exactly when what follows is no placement policy. */
  lemma PolicyIsRewrittenExactlyWhen(args: seq<string>, i: nat)
    requires i < |args|
    ensures Rewritten(args)[i] != args[i]
            <==> args[i] == "--policy" && i + 1 < |args| && args[i + 1] !in {"auto", "local", "remote"}
    ensures Rewritten(args)[i] != args[i] ==> Rewritten(args)[i] == "--execution-policy"
  {
  }

  /** A value that was accepted is in the command: nothing that was given is ignored, and a number is one. */
  lemma NothingIsIgnored(seen: Seen, o: Opt)
    requires Build(seen).Some? && o in seen.texts && !IsFlag(o)
    ensures GivenIn(Build(seen).value, o).Valued?
    ensures o == DrainTimeoutMs ==> ParseU64(seen.texts[o]).Some? && Build(seen).value.drainTimeoutMs == ParseU64(seen.texts[o])
    ensures o == ReconcileIntervalMs ==> ParseU64(seen.texts[o]) == Some(Build(seen).value.reconcileIntervalMs)
  {
    hide Digits, Join, Number, ParseU64;
  }

  /** `start` alone: every default. */
  lemma StartAlone(program: string)
    ensures ParseStart(Normalised([program, "start"]))
            == Some(StartCommand("127.0.0.1:8787", ".compute/daemon", None, None, "20000-29999", None, None, false, false, false,
                                 None, None, 5000, None, None, None, None, None,
                                 StateOptions(None, None, None, None, None, None, None), "supervisor", false, None, None,
                                 ["run", "jobs", "deployments"], false, false))
  {
    NormalisedStart(program, []);
    assert [program, "start"] + [] == [program, "start"];
    assert Rewritten([]) == [];
    var argv := Normalised([program, "start"]);
    assert argv[1..] == ["start"] && argv[1] == argv[1..][0] && argv[2..] == argv[1..][1..] == [];
    hide Normalised, Rewritten;
    ParseNothing(NOTHING);
    DefaultIsNumber();
  }

  lemma DefaultIsNumber()
    ensures ParseU64("5000") == Some(5000)
  {
    assert "5000"[..3] == "500" && "500"[..2] == "50" && "50"[..1] == "5";
    assert Number("5") == Some(5) && Number("50") == Some(50) && Number("500") == Some(500) && Number("5000") == Some(5000);
  }
}
