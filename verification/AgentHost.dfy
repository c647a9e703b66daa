/**
 Acquiring sessions for agents: create, wait until ready, load the project, and discard
 whatever did not become usable. Every answer of the target is arbitrary.
 */
module AgentHost {
  import opened Options

  type SessionId = nat

  datatype SessionStatus =
    | Requested | Provisioning | Ready | Running | Stopping | Stopped | Resuming | Expiring | Destroying
    | Destroyed | Expired | Failed

  predicate Usable(status: SessionStatus) {
    status.Ready? || status.Running?
  }

  predicate Ended(status: SessionStatus) {
    status.Destroyed? || status.Expired? || status.Failed?
  }

  /**
   What the target answers during one acquisition: the session it creates, its status each time
   it is asked (`None`: the request failed; the deadline has passed at the last), the exit
   code of the command that loads the project (`None`: it did not run to an end), and
   whether destroying the session succeeds.
   */
  datatype Answers = Answers(
    create: Option<SessionId>,
    polls: seq<Option<SessionStatus>>,
    load: Option<Option<int>>,
    destroyed: bool)

  /** How waiting for a session ends: ready, seen ended, or neither in time. */
  datatype Wait = BecameReady | SawEnd | NeverSettled

  function WaitOutcome(polls: seq<Option<SessionStatus>>): Wait
    decreases |polls|
  {
    if polls == [] || polls[0].None? then NeverSettled
    else if Usable(polls[0].value) then BecameReady
    else if Ended(polls[0].value) then SawEnd
    else WaitOutcome(polls[1..])
  }

  /** Poll `i` is the first that settles the session, all before it having been answered. */
  ghost predicate SettlesAt(polls: seq<Option<SessionStatus>>, i: nat) {
    && i < |polls| && polls[i].Some? && (Usable(polls[i].value) || Ended(polls[i].value))
    && forall k | 0 <= k < i :: polls[k].Some? && !Usable(polls[k].value) && !Ended(polls[k].value)
  }

  /** The outcome is that of the one settling poll, and `NeverSettled` when there is none. */
  lemma {:induction false} WaitOutcomeMeaning(polls: seq<Option<SessionStatus>>)
    ensures forall i: nat | SettlesAt(polls, i) :: WaitOutcome(polls) == if Usable(polls[i].value) then BecameReady else SawEnd
    ensures WaitOutcome(polls).NeverSettled? <==> forall i: nat :: !SettlesAt(polls, i)
    decreases |polls|
  {
    if polls != [] && polls[0].Some? {
      if Usable(polls[0].value) || Ended(polls[0].value) {
        assert SettlesAt(polls, 0);
      } else {
        var rest := polls[1..];
        WaitOutcomeMeaning(rest);
        forall i: nat ensures SettlesAt(polls, i) <==> i > 0 && SettlesAt(rest, i - 1) {
          if i > 0 && SettlesAt(rest, i - 1) {
            assert forall k | 0 < k < i :: polls[k] == rest[k - 1];
          }
          if SettlesAt(polls, i) {
            assert i > 0;
            assert forall k | 0 <= k < i - 1 :: rest[k] == polls[k + 1];
          }
        }
        assert forall i: nat | SettlesAt(rest, i) :: SettlesAt(polls, i + 1);
      }
    }
  }

  predicate Loads(answers: Answers, project: bool) {
    project ==> answers.load == Some(Some(0))
  }

  /** Where a session the target acknowledged went: to the caller, to `destroy`, or to its end before it was ready. */
  datatype Fate = HandedOut | Discarded | SeenEnded

  /** Where an acquisition with these answers leaves the session it created. */
  function FateFor(answers: Answers, project: bool): Fate {
    match WaitOutcome(answers.polls)
    case BecameReady => if Loads(answers, project) then HandedOut else Discarded
    case SawEnd => SeenEnded
    case NeverSettled => Discarded
  }

  ghost function Those(ledger: map<SessionId, Fate>, fate: Fate): set<SessionId> {
    set id | id in ledger && ledger[id] == fate
  }

  lemma ThoseAfter(ledger: map<SessionId, Fate>, id: SessionId, fate: Fate, which: Fate)
    requires id !in ledger
    ensures |Those(ledger[id := fate], which)| == |Those(ledger, which)| + if which == fate then 1 else 0
  {
    assert Those(ledger[id := fate], which) == Those(ledger, which) + if which == fate then {id} else {};
  }

  /**
   The counters of a host. The ledger records where each acknowledged session went, and it is
   written where the code hands a session out, destroys it, or sees it ended.
   */
  class Host {
    var acquired: nat
    var acquireFailed: nat
    var released: nat
    var cleanupFailed: nat

    ghost var acquisitions: nat
    ghost var releases: nat
    ghost var destroys: nat
    ghost var ledger: map<SessionId, Fate>

    /** Counters add up: over acquisitions, over destroy calls, and against the ledger. */
    ghost predicate Valid()
      reads this
    {
      && acquired + acquireFailed == acquisitions
      && released + cleanupFailed == destroys
      && acquired == |Those(ledger, HandedOut)|
      && destroys == releases + |Those(ledger, Discarded)|
    }

    constructor ()
      ensures Valid() && ledger == map[] && acquisitions == 0 && destroys == 0
      ensures acquired == acquireFailed == released == cleanupFailed == 0
    {
      acquired, acquireFailed, released, cleanupFailed := 0, 0, 0, 0;
      acquisitions, releases, destroys, ledger := 0, 0, 0, map[];
      new;
      assert Those(ledger, HandedOut) == {} == Those(ledger, Discarded);
    }

    /** Counted either way, raised never. */
    method Destroy(succeeds: bool)
      modifies this`released, this`cleanupFailed, this`destroys
      ensures destroys == old(destroys) + 1
      ensures released == old(released) + (if succeeds then 1 else 0)
      ensures cleanupFailed == old(cleanupFailed) + (if succeeds then 0 else 1)
    {
      if succeeds {
        released := released + 1;
      } else {
        cleanupFailed := cleanupFailed + 1;
      }
      destroys := destroys + 1;
    }

    /** The caller is done with a session it was handed. */
    method Release(succeeds: bool)
      requires Valid()
      modifies this`released, this`cleanupFailed, this`destroys, this`releases
      ensures Valid() && destroys == old(destroys) + 1
      ensures released == old(released) + (if succeeds then 1 else 0)
      ensures cleanupFailed == old(cleanupFailed) + (if succeeds then 0 else 1)
    {
      Destroy(succeeds);
      releases := releases + 1;
    }

    /** Creates a session and waits: one that did not become ready is destroyed unless it was seen ended. */
    method CreateSession(answers: Answers) returns (session: Option<SessionId>)
      requires |answers.polls| > 0
      modifies this`released, this`cleanupFailed, this`destroys, this`ledger
      ensures session == if WaitOutcome(answers.polls).BecameReady? then answers.create else None
      ensures ledger == if answers.create.None? || session.Some? then old(ledger)
                        else old(ledger)[answers.create.value := if WaitOutcome(answers.polls).SawEnd? then SeenEnded else Discarded]
      ensures released == old(released) + if destroys > old(destroys) && answers.destroyed then 1 else 0
      ensures cleanupFailed == old(cleanupFailed) + if destroys > old(destroys) && !answers.destroyed then 1 else 0
      ensures destroys == old(destroys) + if answers.create.Some? && WaitOutcome(answers.polls).NeverSettled? then 1 else 0
    {
      if answers.create.None? {
        return None;
      }
      var id := answers.create.value;
      var polled := 0;
      while true
        invariant 0 <= polled < |answers.polls|
        invariant WaitOutcome(answers.polls) == WaitOutcome(answers.polls[polled..])
        invariant released == old(released) && cleanupFailed == old(cleanupFailed)
        invariant destroys == old(destroys) && ledger == old(ledger)
        decreases |answers.polls| - polled
      {
        match answers.polls[polled] {
          case None =>
            Destroy(answers.destroyed);
            ledger := ledger[id := Discarded];
            return None;
          case Some(status) =>
            if Usable(status) {
              return Some(id);
            }
            if Ended(status) {
              ledger := ledger[id := SeenEnded];
              return None;
            }
            if polled + 1 == |answers.polls| {
              assert answers.polls[polled..][1..] == [];
              Destroy(answers.destroyed);
              ledger := ledger[id := Discarded];
              return None;
            }
        }
        assert answers.polls[polled..][1..] == answers.polls[polled + 1..];
        polled := polled + 1;
      }
    }

    /**
     Fails closed: a session is handed out exactly when it became ready and, if there is a project,
     the project loaded; any other created session is destroyed unless it was seen ended.
     */
    method Acquire(answers: Answers, project: bool) returns (session: Option<SessionId>)
      requires Valid() && |answers.polls| > 0
      requires answers.create.Some? ==> answers.create.value !in ledger
      modifies this
      ensures Valid()
      ensures acquisitions == old(acquisitions) + 1 && releases == old(releases)
      ensures session.Some? <==> && answers.create.Some?
                                 && (exists i: nat :: SettlesAt(answers.polls, i) && Usable(answers.polls[i].value))
                                 && (project ==> answers.load == Some(Some(0)))
      ensures session.Some? ==> session == answers.create
      ensures answers.create.None? ==> ledger == old(ledger)
      ensures answers.create.Some? ==>
                && answers.create.value in ledger && ledger == old(ledger)[answers.create.value := ledger[answers.create.value]]
                && (ledger[answers.create.value].HandedOut? <==> session.Some?)
                && (ledger[answers.create.value].SeenEnded?
                    <==> exists i: nat :: SettlesAt(answers.polls, i) && Ended(answers.polls[i].value))
      ensures acquired == old(acquired) + if session.Some? then 1 else 0
      ensures var discarded := answers.create.Some? && ledger[answers.create.value].Discarded?;
              && released == old(released) + (if discarded && answers.destroyed then 1 else 0)
              && cleanupFailed == old(cleanupFailed) + (if discarded && !answers.destroyed then 1 else 0)
    {
      WaitOutcomeMeaning(answers.polls);
      session := CreateSession(answers);
      if session.Some? && !Loads(answers, project) {
        Destroy(answers.destroyed);
        ledger := ledger[session.value := Discarded];
        session := None;
      }
      if session.Some? {
        acquired := acquired + 1;
        ledger := ledger[session.value := HandedOut];
      } else {
        acquireFailed := acquireFailed + 1;
      }
      acquisitions := acquisitions + 1;
      if answers.create.Some? {
        ThoseAfter(old(ledger), answers.create.value, FateFor(answers, project), HandedOut);
        ThoseAfter(old(ledger), answers.create.value, FateFor(answers, project), Discarded);
      }
    }
  }
}
