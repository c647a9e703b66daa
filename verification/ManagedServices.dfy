/**
 The services a distribution declares: each has a pid file, a process, an endpoint that process should serve, and an
 entry in the control plane's registry. Starting is a reconciliation that can be repeated; stopping undoes the
 processes and the pid files.

 What the outside world does during a start is an input. Readiness is an answer from an endpoint, and who answers is
 whoever serves it.
 */
module ManagedServices {
  import opened Options

  type Name = string
  type Pid = nat
  type Endpoint = string

  datatype Definition = Definition(name: Name, capabilities: seq<string>, provider: string, endpoint: Endpoint, description: Option<string>)

  datatype Service = Service(name: Name, definition: Definition, executable: string)

  /**
   The state of the machine. `processes` are the live processes this user may signal, with the service each was
   started for, or whatever else it is; `serving` says which live process, of any user, has an endpoint. A pid file that
   is missing or unreadable is not in `pidFiles`.
   */
  datatype State = State(
    pidFiles: map<Name, Pid>,
    processes: map<Pid, string>,
    registry: map<Name, Definition>,
    serving: map<Endpoint, Pid>)

  /**
   What happens during one start. Whoever serves the endpoint answers well at first (`answersNow`) and while the child is
   waited for (`answersLater`). Another process may take a free endpoint before the child does (`taken`). The child
   serves a free endpoint if it `works`; one that cannot serve exits, or `lingers`.
   */
  datatype Events = Events(
    answersNow: bool,
    shipped: bool,
    startable: bool,
    pid: Pid,
    taken: Option<Pid>,
    works: bool,
    lingers: bool,
    answersLater: bool,
    registered: bool)

  datatype Outcome = Reused(pid: Pid) | Started(pid: Pid) | NotShipped | CannotStart | NotReady | NotRegistered {
    predicate Ok() {
      Reused? || Started?
    }
  }

  // ---- One service ------------------------------------------------------

  function EndpointOf(service: Service): Endpoint {
    service.definition.endpoint
  }

  /** The recorded process is there. */
  predicate Alive(s: State, name: Name) {
    name in s.pidFiles && s.pidFiles[name] in s.processes
  }

  /** The recorded process is there and is the one that serves the endpoint. */
  predicate Served(s: State, service: Service) {
    Alive(s, service.name) && EndpointOf(service) in s.serving && s.serving[EndpointOf(service)] == s.pidFiles[service.name]
  }

  function Registered(s: State, service: Service): State {
    s.(registry := s.registry[service.name := service.definition])
  }

  /** A process that is gone serves nothing. */
  function Without(s: State, pid: Pid): State {
    s.(processes := s.processes - {pid}, serving := map e | e in s.serving && s.serving[e] != pid :: s.serving[e])
  }

  /** The child is started and recorded, and what becomes of it and of the endpoint while it is waited for. */
  function Spawned(s: State, service: Service, e: Events): State {
    var at := EndpointOf(service);
    var running := s.(pidFiles := s.pidFiles[service.name := e.pid],
                      processes := s.processes[e.pid := service.name],
                      serving := if at !in s.serving && e.taken.Some? then s.serving[at := e.taken.value] else s.serving);
    if at !in running.serving && e.works then running.(serving := running.serving[at := e.pid])
    else if e.lingers then running
    else running.(processes := running.processes - {e.pid})
  }

  predicate Adopts(s: State, service: Service, e: Events) {
    Alive(s, service.name) && EndpointOf(service) in s.serving && e.answersNow
  }

  function Cleared(s: State, service: Service): State {
    s.(pidFiles := s.pidFiles - {service.name})
  }

  predicate Answered(spawned: State, service: Service, e: Events) {
    EndpointOf(service) in spawned.serving && e.answersLater
  }

  function OutcomeOf(s: State, service: Service, e: Events): Outcome {
    if Adopts(s, service, e) then if e.registered then Reused(s.pidFiles[service.name]) else NotRegistered
    else if !e.shipped then NotShipped
    else if !e.startable then CannotStart
    else if !Answered(Spawned(Cleared(s, service), service, e), service, e) then NotReady
    else if e.registered then Started(e.pid)
    else NotRegistered
  }

  function AfterOne(s: State, service: Service, e: Events): State {
    if Adopts(s, service, e) then if e.registered then Registered(s, service) else s
    else if !e.shipped || !e.startable then Cleared(s, service)
    else
      var spawned := Spawned(Cleared(s, service), service, e);
      if !Answered(spawned, service, e) then Cleared(Without(spawned, e.pid), service)
      else if e.registered then Registered(spawned, service)
      else spawned
  }

  /** A new process gets a pid no process has; a stale pid file may well name it. */
  ghost predicate FreshPid(s: State, e: Events) {
    && e.pid !in s.processes && e.taken != Some(e.pid)
    && (forall at | at in s.serving :: s.serving[at] != e.pid)
  }

  // ---- All services -----------------------------------------------------

  /** The run of `ensure_running`: it stops at the first service that fails. */
  function AfterAll(s: State, services: seq<Service>, events: seq<Events>): State
    requires |events| == |services|
    decreases |services|
  {
    if services == [] then s
    else if !OutcomeOf(s, services[0], events[0]).Ok() then AfterOne(s, services[0], events[0])
    else AfterAll(AfterOne(s, services[0], events[0]), services[1..], events[1..])
  }

  function Outcomes(s: State, services: seq<Service>, events: seq<Events>): seq<Outcome>
    requires |events| == |services|
    decreases |services|
  {
    if services == [] then []
    else
      var outcome := OutcomeOf(s, services[0], events[0]);
      if !outcome.Ok() then [outcome]
      else [outcome] + Outcomes(AfterOne(s, services[0], events[0]), services[1..], events[1..])
  }

  predicate Succeeds(s: State, services: seq<Service>, events: seq<Events>)
    requires |events| == |services|
  {
    forall o | o in Outcomes(s, services, events) :: o.Ok()
  }

  ghost predicate FreshPids(s: State, services: seq<Service>, events: seq<Events>)
    requires |events| == |services|
    decreases |services|
  {
    services != [] ==>
      && FreshPid(s, events[0])
      && FreshPids(AfterOne(s, services[0], events[0]), services[1..], events[1..])
  }

  predicate DistinctNames(services: seq<Service>) {
    forall i, j | 0 <= i < j < |services| :: services[i].name != services[j].name
  }

  predicate DistinctEndpoints(services: seq<Service>) {
    forall i, j | 0 <= i < j < |services| :: EndpointOf(services[i]) != EndpointOf(services[j])
  }

  function WithoutPidFile(s: State, name: Name): State {
    if name !in s.pidFiles then s
    else
      var stopped := if s.pidFiles[name] in s.processes then Without(s, s.pidFiles[name]) else s;
      stopped.(pidFiles := s.pidFiles - {name})
  }

  function AfterStop(s: State, services: seq<Service>): State
    decreases |services|
  {
    if services == [] then s else AfterStop(WithoutPidFile(s, services[0].name), services[1..])
  }

  /** The services reported as stopped: those that had a pid file. */
  function StoppedBy(s: State, services: seq<Service>): seq<Name>
    decreases |services|
  {
    if services == [] then []
    else
      var name := services[0].name;
      (if name in s.pidFiles then [name] else []) + StoppedBy(WithoutPidFile(s, name), services[1..])
  }

  /** The machine the commands act on, field by field. */
  class Machine {
    var pidFiles: map<Name, Pid>
    var processes: map<Pid, string>
    var registry: map<Name, Definition>
    var serving: map<Endpoint, Pid>

    function Now(): State
      reads this
    {
      State(pidFiles, processes, registry, serving)
    }

    constructor (s: State)
      ensures Now() == s
    {
      pidFiles, processes, registry, serving := s.pidFiles, s.processes, s.registry, s.serving;
    }

    /** Asks a process to stop, and makes sure that it did. */
    method StopPid(pid: Pid)
      modifies this`processes, this`serving
      ensures Now() == Without(old(Now()), pid)
    {
      processes := processes - {pid};
      serving := map e | e in serving && serving[e] != pid :: serving[e];
    }

    method Register(service: Service, accepted: bool) returns (ok: bool)
      modifies this`registry
      ensures ok == accepted
      ensures Now() == if accepted then Registered(old(Now()), service) else old(Now())
    {
      if accepted {
        registry := registry[service.name := service.definition];
      }
      ok := accepted;
    }

    /** The child is started and recorded; the rest is what happens while it is waited for. */
    method Start(service: Service, e: Events)
      modifies this`processes, this`pidFiles, this`serving
      ensures Now() == Spawned(old(Now()), service, e)
    {
      var at := EndpointOf(service);
      processes := processes[e.pid := service.name];
      pidFiles := pidFiles[service.name := e.pid];
      if at !in serving && e.taken.Some? {
        serving := serving[at := e.taken.value];
      }
      if at !in serving && e.works {
        serving := serving[at := e.pid];
      } else if !e.lingers {
        processes := processes - {e.pid};
      }
    }

    /** `ensure_one`. */
    method EnsureOne(service: Service, e: Events) returns (outcome: Outcome)
      modifies this
      ensures outcome == OutcomeOf(old(Now()), service, e)
      ensures Now() == AfterOne(old(Now()), service, e)
    {
      hide Spawned, Without;
      var at := EndpointOf(service);
      if service.name in pidFiles && pidFiles[service.name] in processes && at in serving && e.answersNow {
        var pid := pidFiles[service.name];
        var ok := Register(service, e.registered);
        return if ok then Reused(pid) else NotRegistered;
      }
      pidFiles := pidFiles - {service.name};
      if !e.shipped { return NotShipped; }
      if !e.startable { return CannotStart; }
      Start(service, e);
      if at !in serving || !e.answersLater {
        StopPid(e.pid);
        pidFiles := pidFiles - {service.name};
        return NotReady;
      }
      var ok := Register(service, e.registered);
      outcome := if ok then Started(e.pid) else NotRegistered;
    }

    /** `ensure_running`. */
    method EnsureRunning(services: seq<Service>, events: seq<Events>) returns (outcomes: seq<Outcome>)
      requires |events| == |services|
      modifies this
      ensures outcomes == Outcomes(old(Now()), services, events)
      ensures Now() == AfterAll(old(Now()), services, events)
    {
      hide OutcomeOf, AfterOne, AfterAll, Outcomes;
      outcomes := [];
      assert services[0..] == services && events[0..] == events;
      for i := 0 to |services|
        invariant outcomes + Outcomes(Now(), services[i..], events[i..]) == Outcomes(old(Now()), services, events)
        invariant AfterAll(Now(), services[i..], events[i..]) == AfterAll(old(Now()), services, events)
      {
        OneMore(Now(), services, events, i);
        var outcome := EnsureOne(services[i], events[i]);
        outcomes := outcomes + [outcome];
        if !outcome.Ok() { return; }
      }
      NoMore(Now(), services, events);
    }

    /** Stops the recorded process, if it is there, and removes the pid file. */
    method StopOne(name: Name) returns (had: bool)
      modifies this
      ensures had == (name in old(pidFiles))
      ensures Now() == WithoutPidFile(old(Now()), name)
    {
      had := name in pidFiles;
      if !had { return; }
      var pid := pidFiles[name];
      if pid in processes {
        StopPid(pid);
      }
      pidFiles := pidFiles - {name};
    }

    /** `stop_all`. */
    method StopAll(services: seq<Service>) returns (stopped: seq<Name>)
      modifies this
      ensures Now() == AfterStop(old(Now()), services)
      ensures stopped == StoppedBy(old(Now()), services)
    {
      hide WithoutPidFile;
      stopped := [];
      for i := 0 to |services|
        invariant AfterStop(Now(), services[i..]) == AfterStop(old(Now()), services)
        invariant stopped + StoppedBy(Now(), services[i..]) == StoppedBy(old(Now()), services)
      {
        assert services[i..][1..] == services[i + 1..];
        var had := StopOne(services[i].name);
        if had {
          stopped := stopped + [services[i].name];
        }
      }
      assert services[|services|..] == [];
    }
  }

  lemma NoMore(s: State, services: seq<Service>, events: seq<Events>)
    requires |events| == |services|
    ensures AfterAll(s, services[|services|..], events[|events|..]) == s
    ensures Outcomes(s, services[|services|..], events[|events|..]) == []
  {
  }

  lemma OneMore(s: State, services: seq<Service>, events: seq<Events>, i: nat)
    requires |events| == |services| && i < |services|
    ensures var outcome := OutcomeOf(s, services[i], events[i]);
            var next := AfterOne(s, services[i], events[i]);
            && AfterAll(s, services[i..], events[i..])
               == (if outcome.Ok() then AfterAll(next, services[i + 1..], events[i + 1..]) else next)
            && Outcomes(s, services[i..], events[i..])
               == [outcome] + (if outcome.Ok() then Outcomes(next, services[i + 1..], events[i + 1..]) else [])
  {
    hide OutcomeOf, AfterOne;
    assert services[i..][1..] == services[i + 1..] && events[i..][1..] == events[i + 1..];
  }

  // ---- One start --------------------------------------------------------

  /** What is recorded of a service, and who serves its endpoint if anyone did. */
  ghost predicate KeptOf(a: State, b: State, service: Service) {
    && (service.name in a.pidFiles <==> service.name in b.pidFiles)
    && (service.name in a.pidFiles ==> a.pidFiles[service.name] == b.pidFiles[service.name])
    && (Alive(a, service.name) ==> Alive(b, service.name))
    && (service.name in a.registry <==> service.name in b.registry)
    && (service.name in a.registry ==> a.registry[service.name] == b.registry[service.name])
    && (EndpointOf(service) in a.serving ==>
          SameServer(a, b, EndpointOf(service)) && (Served(a, service) <==> Served(b, service)))
  }

  ghost predicate SameServer(a: State, b: State, at: Endpoint) {
    && (at in a.serving <==> at in b.serving)
    && (at in a.serving ==> a.serving[at] == b.serving[at])
  }

  /** A start takes no endpoint that is served, and touches no endpoint but its own. */
  lemma OneKeepsServers(s: State, service: Service, e: Events, at: Endpoint)
    requires FreshPid(s, e) && (at in s.serving || at != EndpointOf(service))
    ensures SameServer(s, AfterOne(s, service, e), at)
  {
  }

  /** It leaves all other services alone. */
  lemma OneKeepsOthers(s: State, service: Service, e: Events, other: Service)
    requires FreshPid(s, e) && other.name != service.name
    ensures KeptOf(s, AfterOne(s, service, e), other)
  {
    if EndpointOf(other) in s.serving { OneKeepsServers(s, service, e, EndpointOf(other)); }
  }

  /** It leaves every process alone that it did not start itself. */
  lemma OneKeepsProcesses(s: State, service: Service, e: Events, pid: Pid)
    requires FreshPid(s, e) && pid in s.processes
    ensures pid in AfterOne(s, service, e).processes && AfterOne(s, service, e).processes[pid] == s.processes[pid]
  {
  }

  /**
   The way is clear: the recorded process serves the endpoint and answers, or nothing serves it, and nothing takes it
   before the child.
   */
  predicate Clear(s: State, service: Service, e: Events) {
    if Adopts(s, service, e) then s.serving[EndpointOf(service)] == s.pidFiles[service.name]
    else EndpointOf(service) !in s.serving && e.taken.None?
  }

  /**
   A start that succeeds records and registers the service as declared. Its recorded process is there and serves the
   endpoint exactly when the way was clear.
   */
  lemma StartedIsServedExactlyWhen(s: State, service: Service, e: Events)
    requires FreshPid(s, e) && OutcomeOf(s, service, e).Ok()
    ensures var after := AfterOne(s, service, e);
            && service.name in after.pidFiles && after.pidFiles[service.name] == OutcomeOf(s, service, e).pid
            && service.name in after.registry && after.registry[service.name] == service.definition
            && EndpointOf(service) in after.serving
            && (Served(after, service) <==> Clear(s, service, e))
  {
  }

  /** What it takes for a start to succeed, in terms of what was there and what happened. */
  predicate WillSucceed(s: State, service: Service, e: Events) {
    && e.registered
    && (|| (Alive(s, service.name) && EndpointOf(service) in s.serving && e.answersNow)
        || (e.shipped && e.startable && e.answersLater && (EndpointOf(service) in s.serving || e.taken.Some? || e.works)))
  }

  /**
   A start succeeds exactly when the service is registered and its recorded process is there and the endpoint answers at
   once, or it is shipped, starts, and the endpoint comes to be served, by whomever, and answers. A child that works, at
   an endpoint that is free, is started and serves.
   */
  lemma StartsExactlyWhen(s: State, service: Service, e: Events)
    requires FreshPid(s, e)
    ensures OutcomeOf(s, service, e).Ok() <==> WillSucceed(s, service, e)
    ensures EndpointOf(service) !in s.serving && e.taken.None? && e.works && e.shipped && e.startable && e.answersLater && e.registered
            ==> OutcomeOf(s, service, e) == Started(e.pid) && Served(AfterOne(s, service, e), service)
    ensures OutcomeOf(s, service, e).Started? ==> !Adopts(s, service, e) && OutcomeOf(s, service, e).pid == e.pid
  {
  }

  /**
   A start that fails before there is a child forgets the process that was recorded and changes nothing else: not
   shipped if the executable is missing, and otherwise unable to start.
   */
  lemma NoChildLeavesAllButThePidFile(s: State, service: Service, e: Events)
    requires OutcomeOf(s, service, e).NotShipped? || OutcomeOf(s, service, e).CannotStart?
    ensures OutcomeOf(s, service, e).NotShipped? <==> !e.shipped
    ensures var after := AfterOne(s, service, e);
            && service.name !in after.pidFiles && (forall n | n != service.name :: n in after.pidFiles <==> n in s.pidFiles)
            && after == s.(pidFiles := after.pidFiles) && !Adopts(s, service, e)
  {
  }

  /** A service that misses readiness ends with its child stopped, no pid file and the registry as it was. */
  lemma NotReadyLeavesNothing(s: State, service: Service, e: Events)
    requires FreshPid(s, e) && OutcomeOf(s, service, e).NotReady?
    ensures var after := AfterOne(s, service, e);
            && after.processes == s.processes && (forall at | at in after.serving :: after.serving[at] != e.pid)
            && service.name !in after.pidFiles && after.registry == s.registry
  {
  }

  // ---- Runs -------------------------------------------------------------

  lemma KeptIsTransitive(a: State, b: State, c: State, service: Service)
    requires KeptOf(a, b, service) && KeptOf(b, c, service)
    ensures KeptOf(a, c, service)
  {
  }

  lemma {:induction false} RunKeepsOthers(s: State, services: seq<Service>, events: seq<Events>, other: Service)
    requires |events| == |services| && FreshPids(s, services, events)
    requires forall i | 0 <= i < |services| :: services[i].name != other.name
    ensures KeptOf(s, AfterAll(s, services, events), other)
    decreases |services|
  {
    hide OutcomeOf, AfterOne, FreshPid, KeptOf;
    if services == [] {
      KeptAsIs(s, other);
    } else {
      OneKeepsOthers(s, services[0], events[0], other);
      if OutcomeOf(s, services[0], events[0]).Ok() {
        var next := AfterOne(s, services[0], events[0]);
        RunKeepsOthers(next, services[1..], events[1..], other);
        KeptIsTransitive(s, next, AfterAll(s, services, events), other);
      }
    }
  }

  lemma KeptAsIs(s: State, service: Service)
    ensures KeptOf(s, s, service)
  {
  }

  lemma SucceedsFirst(s: State, services: seq<Service>, events: seq<Events>)
    requires |events| == |services| && services != [] && Succeeds(s, services, events)
    ensures OutcomeOf(s, services[0], events[0]).Ok()
    ensures Succeeds(AfterOne(s, services[0], events[0]), services[1..], events[1..])
  {
    hide OutcomeOf, AfterOne;
    var first := OutcomeOf(s, services[0], events[0]);
    assert first in Outcomes(s, services, events);
    var rest := Outcomes(AfterOne(s, services[0], events[0]), services[1..], events[1..]);
    assert forall o | o in rest :: o in [first] + rest;
  }

  /** The state in which a run comes to its `i`-th service. */
  function StateAt(s: State, services: seq<Service>, events: seq<Events>, i: nat): State
    requires |events| == |services| && i < |services|
    decreases |services|
  {
    if i == 0 then s else StateAt(AfterOne(s, services[0], events[0]), services[1..], events[1..], i - 1)
  }

  /** The service is recorded and registered as it declares. */
  predicate Recorded(s: State, service: Service) {
    service.name in s.pidFiles && service.name in s.registry && s.registry[service.name] == service.definition
  }

  /**
   After a run that succeeds, every declared service has a pid file and exactly the registry entry it declares, and its
   recorded process is there and serves its endpoint exactly when the way was clear when the run came to it.
   */
  lemma {:induction false} RunConverges(s: State, services: seq<Service>, events: seq<Events>, i: nat)
    requires |events| == |services| && i < |services|
    requires DistinctNames(services) && FreshPids(s, services, events) && Succeeds(s, services, events)
    ensures var after := AfterAll(s, services, events);
            && Recorded(after, services[i]) && EndpointOf(services[i]) in after.serving
            && (Served(after, services[i]) <==> Clear(StateAt(s, services, events, i), services[i], events[i]))
    decreases |services|
  {
    hide OutcomeOf, AfterOne, FreshPid, Clear, KeptOf, Served, Recorded, Succeeds;
    SucceedsFirst(s, services, events);
    var next := AfterOne(s, services[0], events[0]);
    if i == 0 {
      StartedIsServedExactlyWhen(s, services[0], events[0]);
      RunKeepsOthers(next, services[1..], events[1..], services[0]);
      KeptIsServed(next, AfterAll(s, services, events), services[0]);
    } else {
      RunConverges(next, services[1..], events[1..], i - 1);
    }
  }

  lemma KeptIsServed(a: State, b: State, service: Service)
    requires KeptOf(a, b, service) && EndpointOf(service) in a.serving
    ensures (Served(a, service) <==> Served(b, service)) && EndpointOf(service) in b.serving
    ensures service.name in a.pidFiles && service.name in a.registry && a.registry[service.name] == service.definition
            ==> Recorded(b, service)
  {
  }

  /** The last service a run has come to: where it stopped, if it failed. */
  function LastOf(s: State, services: seq<Service>, events: seq<Events>): int
    requires |events| == |services|
  {
    |Outcomes(s, services, events)| - 1
  }

  lemma {:induction false} LastOutcome(s: State, services: seq<Service>, events: seq<Events>)
    requires |events| == |services| && services != []
    ensures var k, outcomes := LastOf(s, services, events), Outcomes(s, services, events);
            && 0 <= k < |services| && outcomes[k] == OutcomeOf(StateAt(s, services, events, k), services[k], events[k])
            && (!outcomes[k].Ok() ==>
                  AfterAll(s, services, events) == AfterOne(StateAt(s, services, events, k), services[k], events[k]))
    decreases |services|
  {
    hide OutcomeOf, AfterOne;
    if OutcomeOf(s, services[0], events[0]).Ok() {
      var next := AfterOne(s, services[0], events[0]);
      if |services| > 1 {
        LastOutcome(next, services[1..], events[1..]);
      } else {
        assert Outcomes(next, services[1..], events[1..]) == [];
      }
    }
  }

  lemma {:induction false} EarlierDoesNotTouch(s: State, services: seq<Service>, events: seq<Events>, k: nat)
    requires |events| == |services| && k < |services| && DistinctNames(services) && FreshPids(s, services, events)
    ensures KeptOf(s, StateAt(s, services, events, k), services[k]) && FreshPid(StateAt(s, services, events, k), events[k])
    decreases |services|
  {
    hide AfterOne, FreshPid, KeptOf;
    if k == 0 {
      KeptAsIs(s, services[0]);
    } else {
      var next := AfterOne(s, services[0], events[0]);
      OneKeepsOthers(s, services[0], events[0], services[k]);
      EarlierDoesNotTouch(next, services[1..], events[1..], k - 1);
      KeptIsTransitive(s, next, StateAt(s, services, events, k), services[k]);
    }
  }

  lemma {:induction false} EarlierIsRecorded(s: State, services: seq<Service>, events: seq<Events>, i: nat)
    requires |events| == |services| && DistinctNames(services) && FreshPids(s, services, events)
    requires i < LastOf(s, services, events)
    ensures i < |services| && Recorded(AfterAll(s, services, events), services[i])
    decreases |services|
  {
    hide OutcomeOf, AfterOne, FreshPid, KeptOf, Recorded;
    var next := AfterOne(s, services[0], events[0]);
    if i == 0 {
      StartedIsServedExactlyWhen(s, services[0], events[0]);
      RunKeepsOthers(next, services[1..], events[1..], services[0]);
      KeptIsServed(next, AfterAll(s, services, events), services[0]);
    } else {
      EarlierIsRecorded(next, services[1..], events[1..], i - 1);
    }
  }

  /**
   A run that ends because a service missed its readiness: that service has no pid file, its child is gone and serves
   nothing, its registry entry is what it was before the run, and the services before it are recorded and registered.
   */
  lemma MissedReadinessLeavesNothing(s: State, services: seq<Service>, events: seq<Events>)
    requires |events| == |services| && DistinctNames(services) && FreshPids(s, services, events)
    requires services != [] && Outcomes(s, services, events)[LastOf(s, services, events)].NotReady?
    ensures LastOf(s, services, events) < |services|
    ensures var k := LastOf(s, services, events);
            var after, name := AfterAll(s, services, events), services[k].name;
            && name !in after.pidFiles && events[k].pid !in after.processes
            && (forall at | at in after.serving :: after.serving[at] != events[k].pid)
            && (name in after.registry <==> name in s.registry)
            && (name in s.registry ==> after.registry[name] == s.registry[name])
            && (forall i | 0 <= i < k :: Recorded(after, services[i]))
  {
    hide AfterAll, AfterOne, OutcomeOf, StateAt, FreshPids, Recorded, Outcomes;
    LastOutcome(s, services, events);
    var k := LastOf(s, services, events);
    var before := StateAt(s, services, events, k);
    EarlierDoesNotTouch(s, services, events, k);
    NotReadyLeavesNothing(before, services[k], events[k]);
    forall i | 0 <= i < k ensures Recorded(AfterAll(s, services, events), services[i]) {
      EarlierIsRecorded(s, services, events, i);
    }
  }

  /** A run succeeds exactly when every service does as the run comes to it. */
  lemma {:induction false} RunSucceedsExactlyWhen(s: State, services: seq<Service>, events: seq<Events>)
    requires |events| == |services| && FreshPids(s, services, events)
    ensures Succeeds(s, services, events)
            <==> forall i | 0 <= i < |services| :: WillSucceed(StateAt(s, services, events, i), services[i], events[i])
    decreases |services|
  {
    hide OutcomeOf, AfterOne, FreshPid, WillSucceed;
    if services != [] {
      var first, next := OutcomeOf(s, services[0], events[0]), AfterOne(s, services[0], events[0]);
      StartsExactlyWhen(s, services[0], events[0]);
      assert StateAt(s, services, events, 0) == s;
      assert first in Outcomes(s, services, events);
      if first.Ok() {
        var rest := Outcomes(next, services[1..], events[1..]);
        assert Outcomes(s, services, events) == [first] + rest;
        assert Succeeds(s, services, events) <==> Succeeds(next, services[1..], events[1..]) by {
          assert forall o | o in rest :: o in [first] + rest;
        }
        RunSucceedsExactlyWhen(next, services[1..], events[1..]);
        forall i | 0 < i < |services|
          ensures StateAt(s, services, events, i) == StateAt(next, services[1..], events[1..], i - 1)
        {
        }
        assert forall i | 0 <= i < |services[1..]| :: services[1..][i] == services[i + 1] && events[1..][i] == events[i + 1];
      }
    }
  }

  lemma OneKeepsClear(s: State, service: Service, e: Events, other: Service, later: Events)
    requires FreshPid(s, e) && other.name != service.name && EndpointOf(other) != EndpointOf(service)
    ensures Clear(AfterOne(s, service, e), other, later) <==> Clear(s, other, later)
  {
    hide AfterOne;
    OneKeepsOthers(s, service, e, other);
    OneKeepsServers(s, service, e, EndpointOf(other));
  }

  lemma {:induction false} ClearBeforehand(s: State, services: seq<Service>, events: seq<Events>, i: nat)
    requires |events| == |services| && i < |services| && FreshPids(s, services, events)
    requires DistinctNames(services) && DistinctEndpoints(services)
    ensures Clear(StateAt(s, services, events, i), services[i], events[i]) <==> Clear(s, services[i], events[i])
    decreases |services|
  {
    hide AfterOne, FreshPid, Clear, EndpointOf;
    if i > 0 {
      OneKeepsClear(s, services[0], events[0], services[i], events[i]);
      ClearBeforehand(AfterOne(s, services[0], events[0]), services[1..], events[1..], i - 1);
    }
  }

  /**
   With services at different endpoints, what the run does before it comes to a service does not matter: a run that
   succeeds leaves the service with its recorded process serving exactly when, at the outset, nothing served its endpoint,
   or its recorded process did and then answers, and nothing takes the endpoint before the child.
   */
  lemma RunServesExactlyWhen(s: State, services: seq<Service>, events: seq<Events>, i: nat)
    requires |events| == |services| && i < |services|
    requires DistinctNames(services) && DistinctEndpoints(services)
    requires FreshPids(s, services, events) && Succeeds(s, services, events)
    ensures Served(AfterAll(s, services, events), services[i]) <==> Clear(s, services[i], events[i])
  {
    hide AfterAll, StateAt, Clear, Served, Succeeds, FreshPids, DistinctNames, DistinctEndpoints;
    RunConverges(s, services, events, i);
    ClearBeforehand(s, services, events, i);
  }

  /** Every service is recorded and registered as declared, and something serves its endpoint. */
  ghost predicate Settled(s: State, services: seq<Service>) {
    forall i | 0 <= i < |services| :: Recorded(s, services[i]) && EndpointOf(services[i]) in s.serving
  }

  lemma SettledOne(s: State, service: Service, e: Events)
    requires Recorded(s, service) && EndpointOf(service) in s.serving && e.answersNow && e.registered
    ensures OutcomeOf(s, service, e).Reused? <==> Alive(s, service.name)
    ensures OutcomeOf(s, service, e).Reused? ==> AfterOne(s, service, e) == s
  {
    assert s.registry[service.name := service.definition] == s.registry;
  }

  lemma {:induction false} ReusesExactlyWhen(s: State, services: seq<Service>, events: seq<Events>)
    requires |events| == |services| && Settled(s, services)
    requires forall i | 0 <= i < |events| :: events[i].answersNow && events[i].registered
    ensures (forall o | o in Outcomes(s, services, events) :: o.Reused?)
            <==> (forall i | 0 <= i < |services| :: Alive(s, services[i].name))
    ensures (forall o | o in Outcomes(s, services, events) :: o.Reused?) ==> AfterAll(s, services, events) == s
    decreases |services|
  {
    hide AfterOne, OutcomeOf, Alive, Recorded;
    if services != [] {
      var first := OutcomeOf(s, services[0], events[0]);
      SettledOne(s, services[0], events[0]);
      assert first in Outcomes(s, services, events);
      if first.Reused? {
        ReusesExactlyWhen(s, services[1..], events[1..]);
        var rest := Outcomes(s, services[1..], events[1..]);
        assert forall o | o in rest :: o in [first] + rest;
        assert services == [services[0]] + services[1..];
      }
    }
  }

  /**
   An immediate second run after a success, with all endpoints answering: it starts nothing exactly when every recorded
   process is there, and then changes no pid, process, endpoint or entry. By `RunConverges` a process may not be there
   only where the way was not clear.
   */
  lemma SecondRunStartsNothingExactlyWhen(s: State, services: seq<Service>, first: seq<Events>, second: seq<Events>)
    requires |first| == |second| == |services|
    requires DistinctNames(services) && FreshPids(s, services, first) && Succeeds(s, services, first)
    requires forall i | 0 <= i < |second| :: second[i].answersNow && second[i].registered
    ensures var after := AfterAll(s, services, first);
            && ((forall o | o in Outcomes(after, services, second) :: o.Reused?)
                <==> (forall i | 0 <= i < |services| :: Alive(after, services[i].name)))
            && ((forall i | 0 <= i < |services| :: Alive(after, services[i].name)) ==> AfterAll(after, services, second) == after)
  {
    hide AfterAll, StateAt, Clear, Succeeds, FreshPids, Outcomes, Served, Recorded, Alive;
    var after := AfterAll(s, services, first);
    forall i | 0 <= i < |services| ensures Recorded(after, services[i]) && EndpointOf(services[i]) in after.serving {
      RunConverges(s, services, first, i);
    }
    ReusesExactlyWhen(after, services, second);
  }

  /** So with the way clear for every service in the first run, the second changes nothing. */
  lemma SecondRunChangesNothing(s: State, services: seq<Service>, first: seq<Events>, second: seq<Events>)
    requires |first| == |second| == |services|
    requires DistinctNames(services) && FreshPids(s, services, first) && Succeeds(s, services, first)
    requires forall i | 0 <= i < |services| :: Clear(StateAt(s, services, first, i), services[i], first[i])
    requires forall i | 0 <= i < |second| :: second[i].answersNow && second[i].registered
    ensures var after := AfterAll(s, services, first);
            && AfterAll(after, services, second) == after
            && forall o | o in Outcomes(after, services, second) :: o.Reused?
  {
    hide AfterAll, StateAt, Clear, Succeeds, FreshPids, Outcomes, Recorded;
    forall i | 0 <= i < |services| ensures Alive(AfterAll(s, services, first), services[i].name) {
      RunConverges(s, services, first, i);
    }
    SecondRunStartsNothingExactlyWhen(s, services, first, second);
  }

  // ---- Runs that fail ---------------------------------------------------

  /** A run, whatever its outcomes, ends no process but children of its own. */
  lemma {:induction false} RunKeepsProcesses(s: State, services: seq<Service>, events: seq<Events>, pid: Pid)
    requires |events| == |services| && FreshPids(s, services, events) && pid in s.processes
    ensures pid in AfterAll(s, services, events).processes && AfterAll(s, services, events).processes[pid] == s.processes[pid]
    decreases |services|
  {
    hide AfterOne, OutcomeOf, FreshPid;
    if services != [] {
      OneKeepsProcesses(s, services[0], events[0], pid);
      if OutcomeOf(s, services[0], events[0]).Ok() {
        RunKeepsProcesses(AfterOne(s, services[0], events[0]), services[1..], events[1..], pid);
      }
    }
  }

  lemma FailureRegistersNothing(s: State, service: Service, e: Events)
    requires !OutcomeOf(s, service, e).Ok()
    ensures AfterOne(s, service, e).registry == s.registry
  {
  }

  /** A run that fails leaves the registry entries of the service it failed at, and of all after it, as they were. */
  lemma {:induction false} FailedRunRegistersNothingMore(s: State, services: seq<Service>, events: seq<Events>, i: nat)
    requires |events| == |services| && DistinctNames(services) && i < |services|
    requires LastOf(s, services, events) <= i && !Outcomes(s, services, events)[LastOf(s, services, events)].Ok()
    ensures var after, name := AfterAll(s, services, events), services[i].name;
            && (name in after.registry <==> name in s.registry)
            && (name in s.registry ==> after.registry[name] == s.registry[name])
    decreases |services|
  {
    hide OutcomeOf, AfterOne;
    var next := AfterOne(s, services[0], events[0]);
    if !OutcomeOf(s, services[0], events[0]).Ok() {
      FailureRegistersNothing(s, services[0], events[0]);
    } else {
      var rest := Outcomes(next, services[1..], events[1..]);
      assert Outcomes(s, services, events) == [OutcomeOf(s, services[0], events[0])] + rest;
      OneRegistersItself(s, services[0], events[0], services[i].name);
      FailedRunRegistersNothingMore(next, services[1..], events[1..], i - 1);
    }
  }

  lemma OneRegistersItself(s: State, service: Service, e: Events, other: Name)
    requires other != service.name
    ensures var after := AfterOne(s, service, e);
            (other in after.registry <==> other in s.registry) && (other in s.registry ==> after.registry[other] == s.registry[other])
  {
  }

  /** A service that was reached is recorded, and something serves its endpoint, even if it could not be registered. */
  lemma NotRegisteredIsServing(s: State, service: Service, e: Events)
    requires OutcomeOf(s, service, e).NotRegistered?
    ensures service.name in AfterOne(s, service, e).pidFiles && EndpointOf(service) in AfterOne(s, service, e).serving
  {
  }

  lemma {:induction false} EarlierIsServing(s: State, services: seq<Service>, events: seq<Events>, i: nat)
    requires |events| == |services| && DistinctNames(services) && FreshPids(s, services, events)
    requires i <= LastOf(s, services, events)
    requires var last := Outcomes(s, services, events)[LastOf(s, services, events)]; last.Ok() || last.NotRegistered?
    ensures i < |services| && EndpointOf(services[i]) in AfterAll(s, services, events).serving
    decreases |services|
  {
    hide OutcomeOf, AfterOne, FreshPid, KeptOf, Recorded, Served;
    var next := AfterOne(s, services[0], events[0]);
    if !OutcomeOf(s, services[0], events[0]).Ok() {
      NotRegisteredIsServing(s, services[0], events[0]);
    } else {
      assert Outcomes(s, services, events) == [OutcomeOf(s, services[0], events[0])] + Outcomes(next, services[1..], events[1..]);
      if i == 0 {
        StartedIsServedExactlyWhen(s, services[0], events[0]);
        RunKeepsOthers(next, services[1..], events[1..], services[0]);
        KeptIsServed(next, AfterAll(s, services, events), services[0]);
      } else {
        EarlierIsServing(next, services[1..], events[1..], i - 1);
      }
    }
  }

  lemma AdoptsAgain(s: State, service: Service, e: Events)
    requires Alive(s, service.name) && EndpointOf(service) in s.serving && e.answersNow && e.registered
    ensures OutcomeOf(s, service, e) == Reused(s.pidFiles[service.name]) && AfterOne(s, service, e) == Registered(s, service)
  {
  }

  /** Services that are there and served are adopted one after the other, each with the pid it has. */
  lemma {:induction false} AdoptsAll(s: State, services: seq<Service>, events: seq<Events>, k: nat, i: nat)
    requires |events| == |services| && i <= k < |services|
    requires forall j | 0 <= j <= k ::
               && Alive(s, services[j].name) && EndpointOf(services[j]) in s.serving
               && events[j].answersNow && events[j].registered
    ensures i < |Outcomes(s, services, events)| && services[i].name in s.pidFiles
    ensures Outcomes(s, services, events)[i] == Reused(s.pidFiles[services[i].name])
    decreases |services|
  {
    hide OutcomeOf, AfterOne;
    AdoptsAgain(s, services[0], events[0]);
    var next := Registered(s, services[0]);
    assert Outcomes(s, services, events) == [OutcomeOf(s, services[0], events[0])] + Outcomes(next, services[1..], events[1..]);
    if i > 0 {
      AdoptsAll(next, services[1..], events[1..], k - 1, i - 1);
    }
  }

  /**
   A run that ended because a registration failed is reconciled by running again: as far as the recorded processes are
   there and answer, the next run adopts every service the first one reached, the one that could not be registered
   included, with the pid it has.
   */
  lemma FailedRegistrationIsReconciled(s: State, services: seq<Service>, first: seq<Events>, second: seq<Events>, i: nat)
    requires |first| == |second| == |services| && services != []
    requires DistinctNames(services) && FreshPids(s, services, first)
    requires Outcomes(s, services, first)[LastOf(s, services, first)].NotRegistered? && i <= LastOf(s, services, first)
    requires forall j | 0 <= j <= LastOf(s, services, first) && j < |services| ::
               Alive(AfterAll(s, services, first), services[j].name) && second[j].answersNow && second[j].registered
    ensures var between := AfterAll(s, services, first);
            && i < |services| && i < |Outcomes(between, services, second)| && services[i].name in between.pidFiles
            && Outcomes(between, services, second)[i] == Reused(between.pidFiles[services[i].name])
  {
    hide AfterAll, Outcomes, FreshPids;
    LastOutcome(s, services, first);
    var k := LastOf(s, services, first);
    var between := AfterAll(s, services, first);
    forall j | 0 <= j <= k ensures EndpointOf(services[j]) in between.serving {
      EarlierIsServing(s, services, first, j);
    }
    AdoptsAll(between, services, second, k, i);
  }

  /**
   Reported as started with its process gone: whenever another process serves the endpoint and answers, a start succeeds
   whose child has exited.
   */
  lemma SuccessCanRecordADeadProcess(s: State, service: Service, e: Events)
    requires FreshPid(s, e) && !Alive(s, service.name) && EndpointOf(service) in s.serving
    requires e.shipped && e.startable && !e.lingers && e.answersLater && e.registered
    ensures OutcomeOf(s, service, e) == Started(e.pid)
    ensures var after := AfterOne(s, service, e);
            && after.pidFiles[service.name] == e.pid && !Alive(after, service.name)
            && after.serving == s.serving && service.name in after.registry
  {
  }

  // ---- Stopping ---------------------------------------------------------

  /** Stopping removes every pid file of a declared service, and keeps all others and the registry. */
  lemma {:induction false} StopRemovesExactly(s: State, services: seq<Service>)
    ensures var after := AfterStop(s, services);
            && after.registry == s.registry
            && (forall n :: n in after.pidFiles <==> n in s.pidFiles && forall i | 0 <= i < |services| :: services[i].name != n)
            && (forall n | n in after.pidFiles :: after.pidFiles[n] == s.pidFiles[n])
    decreases |services|
  {
    if services != [] {
      StopRemovesExactly(WithoutPidFile(s, services[0].name), services[1..]);
    }
  }

  /** What is reported as stopped is exactly the declared services that had a pid file. */
  lemma {:induction false} StoppedIsReported(s: State, services: seq<Service>, name: Name)
    requires DistinctNames(services)
    ensures name in StoppedBy(s, services)
            <==> name in s.pidFiles && exists i :: 0 <= i < |services| && services[i].name == name
    decreases |services|
  {
    if services != [] {
      var first := services[0].name;
      StoppedIsReported(WithoutPidFile(s, first), services[1..], name);
      assert forall i | 0 < i < |services| :: services[1..][i - 1] == services[i];
      if name != first && exists i :: 0 <= i < |services| && services[i].name == name {
        var i :| 0 <= i < |services| && services[i].name == name;
        assert services[1..][i - 1].name == name;
      }
    }
  }

  /**
   A process is stopped exactly when a declared service's pid file names its pid. What the process is does not
   matter: a pid that has passed to another process is signalled all the same.
   */
  lemma {:induction false} StopEndsExactly(s: State, services: seq<Service>, pid: Pid)
    requires DistinctNames(services) && pid in s.processes
    ensures pid !in AfterStop(s, services).processes
            <==> exists i :: 0 <= i < |services| && services[i].name in s.pidFiles && s.pidFiles[services[i].name] == pid
    decreases |services|
  {
    if services != [] {
      var name := services[0].name;
      var next := WithoutPidFile(s, name);
      assert forall i | 0 < i < |services| :: services[i].name != name && services[1..][i - 1] == services[i];
      if pid in next.processes {
        StopEndsExactly(next, services[1..], pid);
      } else {
        StoppedStays(next, services[1..], pid);
      }
    }
  }

  lemma {:induction false} StoppedStays(s: State, services: seq<Service>, pid: Pid)
    requires pid !in s.processes
    ensures pid !in AfterStop(s, services).processes
    decreases |services|
  {
    if services != [] {
      StoppedStays(WithoutPidFile(s, services[0].name), services[1..], pid);
    }
  }
}
