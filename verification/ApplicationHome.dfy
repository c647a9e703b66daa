/**
 Deploying an application to the one provider it lives on: every provider of the pool is asked for it, and
 a new version goes where it already is.

 `homes` is where one application really is. Applications do not affect each other, so one is enough.
 */
module ApplicationHome {
  import opened Options

  type ProviderId = string

  datatype Kind = Local | Remote | Cloudflare

  datatype Member = Member(id: ProviderId, kind: Kind)

  /** What a provider's daemon answers: the application, nothing at all, or any other error. */
  datatype Answer = Has | Unavailable | OtherError

  type Answers = ProviderId -> Answer

  /** A member that can host applications. */
  predicate Hosts(m: Member) {
    !m.kind.Cloudflare?
  }

  ghost predicate PoolFits(pool: seq<Member>) {
    forall i, j | 0 <= i < j < |pool| :: pool[i].id != pool[j].id
  }

  predicate SaysYes(m: Member, answers: Answers) {
    Hosts(m) && answers(m.id).Has?
  }

  /** Only a remote provider that does not answer is taken to be possibly hosting. */
  predicate CannotTell(m: Member, answers: Answers) {
    m.kind.Remote? && answers(m.id).Unavailable?
  }

  // ---- Finding the home -------------------------------------------------

  datatype Search = Nowhere | At(id: ProviderId) | Unreachable | Several

  ghost predicate SearchFits(pool: seq<Member>, answers: Answers, found: Search) {
    match found
    case Nowhere => forall m | m in pool :: !SaysYes(m, answers) && !CannotTell(m, answers)
    case At(id) =>
      && (exists m :: m in pool && SaysYes(m, answers) && m.id == id)
      && (forall m | m in pool && SaysYes(m, answers) :: m.id == id)
    case Unreachable => (forall m | m in pool :: !SaysYes(m, answers)) && exists m :: m in pool && CannotTell(m, answers)
    case Several => exists m, n :: m in pool && n in pool && m.id != n.id && SaysYes(m, answers) && SaysYes(n, answers)
  }

  /** The four results exclude each other, so the answers determine which it is. */
  lemma SearchIsDetermined(pool: seq<Member>, answers: Answers, a: Search, b: Search)
    requires SearchFits(pool, answers, a) && SearchFits(pool, answers, b)
    ensures a == b
  {
    if a.At? && b.At? {
      var m :| m in pool && SaysYes(m, answers) && m.id == a.id;
    }
  }

  /** What has been gathered from these members: those that have the application, and whether one could not tell. */
  ghost predicate Gathered(asked: seq<Member>, answers: Answers, homes: seq<ProviderId>, unreachable: bool) {
    && (forall h | h in homes :: exists m :: m in asked && SaysYes(m, answers) && m.id == h)
    && (forall m | m in asked && SaysYes(m, answers) :: m.id in homes)
    && (forall j, k | 0 <= j < k < |homes| :: homes[j] != homes[k])
    && (unreachable <==> exists m :: m in asked && CannotTell(m, answers))
  }

  lemma GatherNext(asked: seq<Member>, m: Member, answers: Answers, homes: seq<ProviderId>, unreachable: bool)
    requires Gathered(asked, answers, homes, unreachable) && forall other | other in asked :: other.id != m.id
    ensures Gathered(asked + [m], answers, if SaysYes(m, answers) then homes + [m.id] else homes,
                     unreachable || CannotTell(m, answers))
  {
    hide SaysYes, CannotTell;
    var homes' := if SaysYes(m, answers) then homes + [m.id] else homes;
    forall h | h in homes' ensures exists n :: n in asked + [m] && SaysYes(n, answers) && n.id == h {
      if h in homes {
        var n :| n in asked && SaysYes(n, answers) && n.id == h;
        assert n in asked + [m];
      } else {
        assert m in asked + [m];
      }
    }
    forall n | n in asked + [m] && SaysYes(n, answers) ensures n.id in homes' {
      if n == m { assert homes'[|homes|] == m.id; } else { assert n in asked && n.id in homes; }
    }
    forall h | h in homes ensures h != m.id {
      var n :| n in asked && SaysYes(n, answers) && n.id == h;
    }
    forall j, k | 0 <= j < k < |homes'| ensures homes'[j] != homes'[k] {
      if k == |homes| { assert homes'[j] == homes[j] && homes[j] in homes; }
    }
    if unreachable {
      var n :| n in asked && CannotTell(n, answers);
      assert n in asked + [m];
    } else if CannotTell(m, answers) {
      assert m in asked + [m];
    } else {
      assert forall n | n in asked + [m] :: n == m || n in asked;
    }
  }

  lemma GatheredDecides(pool: seq<Member>, answers: Answers, homes: seq<ProviderId>, unreachable: bool)
    requires Gathered(pool, answers, homes, unreachable)
    ensures SearchFits(pool, answers,
                       if |homes| == 0 then if unreachable then Unreachable else Nowhere
                       else if |homes| == 1 then At(homes[0])
                       else Several)
  {
    hide SaysYes, CannotTell;
    if |homes| == 1 {
      assert homes[0] in homes;
    }
    if |homes| >= 2 {
      assert homes[0] in homes && homes[1] in homes && homes[0] != homes[1];
      var m :| m in pool && SaysYes(m, answers) && m.id == homes[0];
      var n :| n in pool && SaysYes(n, answers) && n.id == homes[1];
    }
  }

  /** `find_home`: asks every provider that could host, and fails closed on a remote one it cannot ask. */
  method FindHome(pool: seq<Member>, answers: Answers) returns (found: Search)
    requires PoolFits(pool)
    ensures SearchFits(pool, answers, found)
  {
    hide Gathered, SearchFits;
    var homes: seq<ProviderId> := [];
    var unreachable: seq<ProviderId> := [];
    NothingGathered(answers);
    for i := 0 to |pool|
      invariant Gathered(pool[..i], answers, homes, unreachable != [])
    {
      var m := pool[i];
      assert pool[..i + 1] == pool[..i] + [m];
      GatherNext(pool[..i], m, answers, homes, unreachable != []);
      if !m.kind.Cloudflare? {
        match answers(m.id) {
          case Has => homes := homes + [m.id];
          case Unavailable =>
            if m.kind.Remote? { unreachable := unreachable + [m.id]; }
          case OtherError =>
        }
      }
    }
    assert pool[..|pool|] == pool;
    GatheredDecides(pool, answers, homes, unreachable != []);
    if |homes| == 0 {
      found := if unreachable != [] then Unreachable else Nowhere;
    } else if |homes| == 1 {
      found := At(homes[0]);
    } else {
      found := Several;
    }
  }

  lemma NothingGathered(answers: Answers)
    ensures Gathered([], answers, [], false)
  {
  }

  // ---- Deploying --------------------------------------------------------

  /**
   One deploy: the provider it asks for, what placement selects, and whether the chosen provider
   carried the request out.
   */
  datatype Attempt = Attempt(answers: Answers, requested: Option<string>, selected: Option<Member>, applied: bool)

  /** A provider may be written with the prefix `provider:`. */
  function Named(requested: string): ProviderId {
    if |requested| >= 9 && requested[..9] == "provider:" then requested[9..] else requested
  }

  /** The request names a provider; `auto` names none. */
  predicate Insists(attempt: Attempt) {
    attempt.requested.Some? && attempt.requested.value != "auto"
  }

  /** The provider the request goes to; `None` is a refusal. */
  function ChooseHost(found: Search, attempt: Attempt): Option<ProviderId> {
    match found
    case Unreachable | Several => None
    case At(home) =>
      if Insists(attempt) && Named(attempt.requested.value) != home then None
      else if attempt.selected.None? then None
      else Some(home)
    case Nowhere =>
      if attempt.selected.None? || !Hosts(attempt.selected.value) then None
      else Some(attempt.selected.value.id)
  }

  const PREFIX := "provider:"

  lemma NamesExactlyWhen(requested: string, home: ProviderId)
    ensures Named(requested) == home <==> requested == PREFIX + home || (requested == home && !(PREFIX <= home))
  {
    if PREFIX <= requested {
      assert requested[..9] == PREFIX && requested == PREFIX + requested[9..];
    }
  }

  /**
   Where a deploy goes. A new version of an application goes home, if placement finds it fits, unless the request names
   another provider: that one is refused, and so is every request when it cannot be told where the application is, or
   it is on several. One that is nowhere goes where placement selects.
   */
  lemma DeployGoesExactly(found: Search, attempt: Attempt, host: ProviderId)
    ensures ChooseHost(found, attempt) == Some(host)
            <==> && attempt.selected.Some?
                 && (|| (&& found == At(host)
                         && (attempt.requested.Some? && attempt.requested.value != "auto" ==>
                               attempt.requested.value == PREFIX + host
                               || (attempt.requested.value == host && !(PREFIX <= host))))
                     || (found.Nowhere? && !attempt.selected.value.kind.Cloudflare? && attempt.selected.value.id == host))
  {
    hide Named;
    if attempt.requested.Some? { NamesExactlyWhen(attempt.requested.value, host); }
  }

  function Deploy(homes: set<ProviderId>, found: Search, attempt: Attempt): set<ProviderId> {
    match ChooseHost(found, attempt)
    case Some(host) => if attempt.applied then homes + {host} else homes
    case None => homes
  }

  /** A home whose provider's answer reads as "not there". */
  predicate Hidden(m: Member, answers: Answers) {
    Hosts(m) && (answers(m.id).OtherError? || (m.kind.Local? && answers(m.id).Unavailable?))
  }

  /** Providers that answer tell the truth, the local one always answers, and no error hides a home. */
  ghost predicate Honest(pool: seq<Member>, homes: set<ProviderId>, answers: Answers) {
    forall m | m in pool && Hosts(m) ::
      && (answers(m.id).Has? ==> m.id in homes)
      && (m.id in homes ==> !Hidden(m, answers))
  }

  ghost predicate HomesInPool(pool: seq<Member>, homes: set<ProviderId>) {
    forall h | h in homes :: exists m :: m in pool && Hosts(m) && m.id == h
  }

  /** Deploys one after the other, each finding out before it acts, none overlapping. */
  ghost predicate DeployRun(pool: seq<Member>, homes: set<ProviderId>, attempts: seq<Attempt>, final: set<ProviderId>)
    decreases |attempts|
  {
    if attempts == [] then final == homes
    else exists found ::
      && SearchFits(pool, attempts[0].answers, found)
      && Honest(pool, homes, attempts[0].answers)
      && (attempts[0].selected.Some? ==> attempts[0].selected.value in pool)
      && DeployRun(pool, Deploy(homes, found, attempts[0]), attempts[1..], final)
  }

  lemma DeployKeepsHome(pool: seq<Member>, homes: set<ProviderId>, found: Search, attempt: Attempt)
    requires HomesInPool(pool, homes) && |homes| <= 1
    requires SearchFits(pool, attempt.answers, found) && Honest(pool, homes, attempt.answers)
    requires attempt.selected.Some? ==> attempt.selected.value in pool
    ensures var after := Deploy(homes, found, attempt);
            |after| <= 1 && HomesInPool(pool, after) && (homes != {} ==> after == homes)
  {
    if homes != {} {
      var h :| h in homes;
      OnlyElement(homes, h);
      var home :| home in pool && Hosts(home) && home.id == h;
      assert !Hidden(home, attempt.answers);
      if found.At? {
        var m :| m in pool && SaysYes(m, attempt.answers) && m.id == found.id;
        assert m.id in homes;
      }
    }
  }

  lemma OnlyElement(s: set<ProviderId>, x: ProviderId)
    requires x in s && |s| <= 1
    ensures s == {x}
  {
    assert |s - {x}| == 0;
  }

  /**
   One application, one home: over any sequence of deploys that do not overlap, with remote providers
   becoming unreachable at will, the application never gets a second home, and a home it has is
   never changed.
   */
  lemma {:induction false} OneHomeForever(pool: seq<Member>, homes: set<ProviderId>, attempts: seq<Attempt>, final: set<ProviderId>)
    requires HomesInPool(pool, homes) && |homes| <= 1 && DeployRun(pool, homes, attempts, final)
    ensures |final| <= 1 && (homes != {} ==> final == homes)
    decreases |attempts|
  {
    if attempts != [] {
      var found :|
        && SearchFits(pool, attempts[0].answers, found)
        && Honest(pool, homes, attempts[0].answers)
        && (attempts[0].selected.Some? ==> attempts[0].selected.value in pool)
        && DeployRun(pool, Deploy(homes, found, attempts[0]), attempts[1..], final);
      DeployKeepsHome(pool, homes, found, attempts[0]);
      OneHomeForever(pool, Deploy(homes, found, attempts[0]), attempts[1..], final);
    }
  }

  // ---- When it fails ----------------------------------------------------

  /** Some deploy with these answers puts the application on a second provider. */
  ghost predicate CanDouble(pool: seq<Member>, home: ProviderId, answers: Answers) {
    exists found, requested, selected, applied ::
      && SearchFits(pool, answers, found)
      && Doubles(pool, home, found, Attempt(answers, requested, selected, applied))
  }

  predicate Doubles(pool: seq<Member>, home: ProviderId, found: Search, attempt: Attempt) {
    && (attempt.selected.Some? ==> attempt.selected.value in pool)
    && Deploy({home}, found, attempt) != {home}
  }

  /**
   With one home and no provider claiming what it does not have, a deploy can make a second home exactly
   when the home's own answer reads as "not there" (the local daemon is not running, or any error but an
   unreachable remote), no other remote is unreachable, and there is another provider to select.
   */
  lemma DoublesExactlyWhen(pool: seq<Member>, home: Member, answers: Answers)
    requires PoolFits(pool) && home in pool && Hosts(home)
    requires forall m | m in pool && SaysYes(m, answers) :: m == home
    ensures CanDouble(pool, home.id, answers)
            <==> && Hidden(home, answers)
                 && (forall m | m in pool :: !CannotTell(m, answers))
                 && (exists m :: m in pool && Hosts(m) && m != home)
  {
    if && Hidden(home, answers) && (forall m | m in pool :: !CannotTell(m, answers)) && (exists m :: m in pool && Hosts(m) && m != home) {
      var other :| other in pool && Hosts(other) && other != home;
      DifferentMembers(pool, home, other);
      assert SearchFits(pool, answers, Nowhere);
      var attempt := Attempt(answers, None, Some(other), true);
      assert Deploy({home.id}, Nowhere, attempt) == {home.id, other.id};
      assert other.id in Deploy({home.id}, Nowhere, attempt) && other.id !in {home.id};
      assert Doubles(pool, home.id, Nowhere, attempt);
    }
    if CanDouble(pool, home.id, answers) {
      var found, requested, selected, applied :| && SearchFits(pool, answers, found)
        && Doubles(pool, home.id, found, Attempt(answers, requested, selected, applied));
      DoublingIsHidden(pool, home, answers, found, Attempt(answers, requested, selected, applied));
    }
  }

  lemma DifferentMembers(pool: seq<Member>, a: Member, b: Member)
    requires PoolFits(pool) && a in pool && b in pool && a != b
    ensures a.id != b.id
  {
    var i :| 0 <= i < |pool| && pool[i] == a;
    var j :| 0 <= j < |pool| && pool[j] == b;
  }

  lemma DoublingIsHidden(pool: seq<Member>, home: Member, answers: Answers, found: Search, attempt: Attempt)
    requires home in pool && Hosts(home) && attempt.answers == answers && SearchFits(pool, answers, found)
    requires forall m | m in pool && SaysYes(m, answers) :: m == home
    requires Doubles(pool, home.id, found, attempt)
    ensures Hidden(home, answers) && (forall m | m in pool :: !CannotTell(m, answers))
    ensures exists m :: m in pool && Hosts(m) && m != home
  {
    assert found.Nowhere?;
    var chosen := attempt.selected.value;
    assert chosen in pool && Hosts(chosen) && chosen != home;
  }

  // ---- Deploys that overlap ---------------------------------------------

  type DeployId = nat

  /** A deploy that has looked and not yet acted. */
  datatype Pending = Pending(found: Search, attempt: Attempt)

  datatype World = World(homes: set<ProviderId>, pending: map<DeployId, Pending>)

  /** Looking and acting are separate steps, and those of several deploys come in any order. */
  datatype Step =
    | Look(deploy: DeployId, found: Search, attempt: Attempt)
    | Act(deploy: DeployId)

  function Next(w: World, step: Step): World {
    match step
    case Look(d, found, attempt) => if d in w.pending then w else w.(pending := w.pending[d := Pending(found, attempt)])
    case Act(d) =>
      if d !in w.pending then w
      else World(Deploy(w.homes, w.pending[d].found, w.pending[d].attempt), w.pending - {d})
  }

  function Run(w: World, steps: seq<Step>): World
    decreases |steps|
  {
    if steps == [] then w else Run(Next(w, steps[0]), steps[1..])
  }

  /** A look asks honest providers, and placement selects from the pool. */
  ghost predicate StepFits(pool: seq<Member>, w: World, step: Step) {
    step.Look? ==>
      && SearchFits(pool, step.attempt.answers, step.found)
      && Honest(pool, w.homes, step.attempt.answers)
      && (step.attempt.selected.Some? ==> step.attempt.selected.value in pool)
  }

  ghost predicate RunFits(pool: seq<Member>, w: World, steps: seq<Step>)
    decreases |steps|
  {
    steps != [] ==> StepFits(pool, w, steps[0]) && RunFits(pool, Next(w, steps[0]), steps[1..])
  }

  /** A home that was found is still one, and homes are providers of the pool. */
  ghost predicate WorldFits(pool: seq<Member>, w: World) {
    && HomesInPool(pool, w.homes)
    && (forall d | d in w.pending && w.pending[d].found.At? :: w.pending[d].found.id in w.homes)
    && (forall d | d in w.pending && w.pending[d].attempt.selected.Some? :: w.pending[d].attempt.selected.value in pool)
  }

  /**
   The step acts on a look that found the application nowhere, while a home has appeared since, and puts it on a provider
   that is not that home.
   */
  predicate Stale(w: World, step: Step) {
    && step.Act? && step.deploy in w.pending && w.homes != {}
    && var p := w.pending[step.deploy];
       && p.found.Nowhere? && p.attempt.applied
       && ChooseHost(p.found, p.attempt).Some? && ChooseHost(p.found, p.attempt).value !in w.homes
  }

  predicate NeverStale(w: World, steps: seq<Step>)
    decreases |steps|
  {
    steps != [] ==> !Stale(w, steps[0]) && NeverStale(Next(w, steps[0]), steps[1..])
  }

  lemma HonestFindIsHome(pool: seq<Member>, homes: set<ProviderId>, answers: Answers, found: Search)
    requires SearchFits(pool, answers, found) && Honest(pool, homes, answers) && found.At?
    ensures found.id in homes
  {
    var m :| m in pool && SaysYes(m, answers) && m.id == found.id;
  }

  /** Found nowhere by honest providers, the application has no home. */
  lemma HonestNowhereIsNone(pool: seq<Member>, homes: set<ProviderId>, answers: Answers)
    requires SearchFits(pool, answers, Nowhere) && Honest(pool, homes, answers) && HomesInPool(pool, homes)
    ensures homes == {}
  {
    forall h ensures h !in homes {
      if h in homes {
        assert false;
      }
    }
  }

  lemma StepKeepsWorld(pool: seq<Member>, w: World, step: Step)
    requires WorldFits(pool, w) && StepFits(pool, w, step)
    ensures WorldFits(pool, Next(w, step)) && w.homes <= Next(w, step).homes
  {
    match step
    case Look(d, found, attempt) =>
      if d !in w.pending && found.At? { HonestFindIsHome(pool, w.homes, attempt.answers, found); }
    case Act(d) =>
      if d in w.pending { DeployStaysInPool(pool, w.homes, w.pending[d].found, w.pending[d].attempt); }
  }

  lemma DeployStaysInPool(pool: seq<Member>, homes: set<ProviderId>, found: Search, attempt: Attempt)
    requires HomesInPool(pool, homes) && (found.At? ==> found.id in homes)
    requires attempt.selected.Some? ==> attempt.selected.value in pool
    ensures HomesInPool(pool, Deploy(homes, found, attempt))
  {
    forall h | h in Deploy(homes, found, attempt) ensures exists m :: m in pool && Hosts(m) && m.id == h {
      if h !in homes {
        var m := attempt.selected.value;
        assert m in pool && Hosts(m) && m.id == h;
      }
    }
  }

  lemma TwoElements(s: set<ProviderId>, x: ProviderId, y: ProviderId)
    requires x in s && y in s && x != y
    ensures |s| >= 2
  {
    if |s| <= 1 { OnlyElement(s, x); }
  }

  /** One step makes a second home exactly when it is stale. */
  lemma StepDoublesExactlyWhen(pool: seq<Member>, w: World, step: Step)
    requires WorldFits(pool, w) && StepFits(pool, w, step) && |w.homes| <= 1
    ensures |Next(w, step).homes| <= 1 <==> !Stale(w, step)
    ensures |Next(w, step).homes| <= 1 && w.homes != {} ==> Next(w, step).homes == w.homes
  {
    if step.Act? && step.deploy in w.pending {
      var p := w.pending[step.deploy];
      var after := Deploy(w.homes, p.found, p.attempt);
      if w.homes != {} {
        var h :| h in w.homes;
        OnlyElement(w.homes, h);
        if after != w.homes {
          var host := ChooseHost(p.found, p.attempt).value;
          assert after == {h, host};
          TwoElements(after, h, host);
        }
      }
    }
  }

  lemma {:induction false} HomesStay(pool: seq<Member>, w: World, steps: seq<Step>)
    requires WorldFits(pool, w) && RunFits(pool, w, steps)
    ensures w.homes <= Run(w, steps).homes
    decreases |steps|
  {
    hide WorldFits, StepFits, Next;
    if steps != [] {
      StepKeepsWorld(pool, w, steps[0]);
      HomesStay(pool, Next(w, steps[0]), steps[1..]);
    }
  }

  lemma MoreHomes(few: set<ProviderId>, many: set<ProviderId>)
    requires few <= many
    ensures |few| <= |many|
  {
    assert many == few + (many - few);
  }

  /**
   Any number of deploys, overlapping in any way: the application ends with one home at most, and keeps the one it had,
   exactly when no deploy acted on a look that had become stale.
   */
  lemma {:induction false} OverlapDoublesExactlyWhen(pool: seq<Member>, w: World, steps: seq<Step>)
    requires WorldFits(pool, w) && RunFits(pool, w, steps) && |w.homes| <= 1
    ensures |Run(w, steps).homes| <= 1 <==> NeverStale(w, steps)
    ensures NeverStale(w, steps) && w.homes != {} ==> Run(w, steps).homes == w.homes
    decreases |steps|
  {
    hide WorldFits, StepFits, Next, Stale;
    if steps != [] {
      var next := Next(w, steps[0]);
      StepKeepsWorld(pool, w, steps[0]);
      StepDoublesExactlyWhen(pool, w, steps[0]);
      if |next.homes| <= 1 {
        OverlapDoublesExactlyWhen(pool, next, steps[1..]);
      } else {
        HomesStay(pool, next, steps[1..]);
        MoreHomes(next.homes, Run(next, steps[1..]).homes);
      }
    }
  }

  /** A look that is still true: it found nothing and there is nothing. */
  predicate Current(w: World, d: DeployId) {
    d in w.pending && (w.pending[d].found.Nowhere? ==> w.homes == {})
  }

  /** Looks are current when they are taken, stay so while no home appears, and acting on one is never stale. */
  lemma CurrentLooksAreSafe(pool: seq<Member>, w: World, step: Step, d: DeployId)
    requires WorldFits(pool, w) && StepFits(pool, w, step)
    ensures step.Look? && step.deploy == d && d !in w.pending ==> Current(Next(w, step), d)
    ensures Current(w, d) && step != Act(d) && Next(w, step).homes == w.homes ==> Current(Next(w, step), d)
    ensures Current(w, d) ==> !Stale(w, Act(d))
  {
    if step.Look? && step.found.Nowhere? { HonestNowhereIsNone(pool, w.homes, step.attempt.answers); }
  }

  /** Two deploys that both look before either acts, and select different providers, end on both. */
  lemma OverlappingDeploysDouble(pool: seq<Member>, a: Member, b: Member, answers: Answers)
    requires a in pool && b in pool && Hosts(a) && Hosts(b) && a.id != b.id
    requires SearchFits(pool, answers, Nowhere) && Honest(pool, {}, answers)
    ensures var first, second := Attempt(answers, None, Some(a), true), Attempt(answers, None, Some(b), true);
            var steps := [Look(0, Nowhere, first)] + ([Look(1, Nowhere, second)] + ([Act(0)] + ([Act(1)] + [])));
            RunFits(pool, World({}, map[]), steps) && Run(World({}, map[]), steps).homes == {a.id, b.id}
  {
    var first, second := Attempt(answers, None, Some(a), true), Attempt(answers, None, Some(b), true);
    var w0 := World({}, map[]);
    var w1 := Next(w0, Look(0, Nowhere, first));
    var w2 := Next(w1, Look(1, Nowhere, second));
    var w3 := Next(w2, Act(0));
    var w4 := Next(w3, Act(1));
    RunFirst(pool, w3, Act(1), []);
    RunFirst(pool, w2, Act(0), [Act(1)] + []);
    RunFirst(pool, w1, Look(1, Nowhere, second), [Act(0)] + ([Act(1)] + []));
    RunFirst(pool, w0, Look(0, Nowhere, first), [Look(1, Nowhere, second)] + ([Act(0)] + ([Act(1)] + [])));
    assert w3.homes == {a.id} && w4.homes == {a.id, b.id};
  }

  lemma RunFirst(pool: seq<Member>, w: World, step: Step, rest: seq<Step>)
    ensures Run(w, [step] + rest) == Run(Next(w, step), rest)
    ensures RunFits(pool, w, [step] + rest) <==> StepFits(pool, w, step) && RunFits(pool, Next(w, step), rest)
  {
    hide StepFits, Next;
    assert ([step] + rest)[1..] == rest;
  }
}
