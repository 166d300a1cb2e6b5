/**
  The whole life of the component as a sequence of events dispatched by the
  host: the lifecycle hooks and the manager's availability callbacks. The
  manager is abstract: it calls back only while it holds a registration for
  the actor.
 */
module Lifecycle {
  import opened Optional
  import opened Collaborators
  import opened GrantCondition
  import opened SignalTraces

  datatype Event =
    | NotifyCreated(ledger: Option<LedgerId>)
    | EnterWorld
    | ExitWorld
    | OwnerChanged(newOwner: PlayerId)
    | Updated(from: ManagerId, signal: Signal)

  /** Whether manager `m` would call the component back now. */
  predicate Delivers(s: Sim, m: ManagerId) {
    RegisteredWith(s.managerCalls, m, s.component.self)
  }

  /** Dispatches one event; `None` when an ownership change names an owner
      without a prerequisite manager (a fatal lookup failure). */
  function Dispatch(s: Sim, managers: map<PlayerId, ManagerId>, e: Event): (r: Option<Sim>)
    ensures r.None? <==> e.OwnerChanged? && e.newOwner !in managers
    ensures r.Some? ==> r.value.component.info == s.component.info && r.value.component.self == s.component.self
    ensures r.Some? && e.Updated? && !Delivers(s, e.from) ==> r.value == s
  {
    match e
    case NotifyCreated(ledger) => Some(Created(s, ledger))
    case EnterWorld => Some(AddedToWorld(s))
    case ExitWorld => Some(RemovedFromWorld(s))
    case OwnerChanged(newOwner) => OnOwnerChanged(s, newOwner, managers)
    case Updated(from, signal) =>
      if Delivers(s, from) then Some(PrerequisitesUpdated(s, signal.available, signal.reply))
      else Some(s)
  }

  /** Dispatches the events in order, stopping at a failed lookup. */
  function Run(s: Sim, managers: map<PlayerId, ManagerId>, events: seq<Event>): (r: Option<Sim>)
    ensures r.Some? ==> r.value.component.info == s.component.info && r.value.component.self == s.component.self
    decreases |events|
  {
    if |events| == 0 then Some(s)
    else
      match Dispatch(s, managers, events[0])
      case None => None
      case Some(next) => Run(next, managers, events[1..])
  }

  predicate AllUpdatesHonour(events: seq<Event>) {
    forall i :: 0 <= i < |events| && events[i].Updated? ==> Honours(events[i].signal.reply)
  }

  lemma AllUpdatesHonourTail(events: seq<Event>)
    requires |events| > 0 && AllUpdatesHonour(events)
    ensures AllUpdatesHonour(events[1..])
  {
  }

  /** The token/signal invariant and the grant/revoke alternation survive every
      lifecycle, whatever the order of hooks and callbacks. */
  lemma {:induction false} RunPreservesConsistent(s: Sim, managers: map<PlayerId, ManagerId>, events: seq<Event>)
    requires Consistent(s) && AllUpdatesHonour(events)
    ensures Run(s, managers, events).Some? ==> Consistent(Run(s, managers, events).value)
    decreases |events|
  {
    if |events| > 0 {
      var e := events[0];
      if e.Updated? && Delivers(s, e.from) {
        StepPreservesConsistent(s, e.signal.available, e.signal.reply);
      }
      match Dispatch(s, managers, e)
      case None =>
      case Some(next) =>
        AllUpdatesHonourTail(events);
        RunPreservesConsistent(next, managers, events[1..]);
    }
  }

  /** Every manager call the component makes is for its own actor, with its
      configured (non-empty) prerequisite list. */
  ghost predicate ManagerCallsWellFormed(s: Sim) {
    forall i :: 0 <= i < |s.managerCalls| ==>
      && s.managerCalls[i].actor == s.component.self
      && s.managerCalls[i].prerequisites == s.component.info.prerequisites
      && s.managerCalls[i].prerequisites != []
  }

  lemma {:induction false} RunKeepsManagerCallsWellFormed(s: Sim, managers: map<PlayerId, ManagerId>, events: seq<Event>)
    requires ManagerCallsWellFormed(s)
    ensures Run(s, managers, events).Some? ==> ManagerCallsWellFormed(Run(s, managers, events).value)
    decreases |events|
  {
    if |events| > 0 {
      match Dispatch(s, managers, events[0])
      case None =>
      case Some(next) =>
        assert ManagerCallsWellFormed(next) by {
          assert forall i :: 0 <= i < |s.managerCalls| ==> next.managerCalls[i] == s.managerCalls[i];
        }
        RunKeepsManagerCallsWellFormed(next, managers, events[1..]);
    }
  }

  /** An empty prerequisite list keeps the manager log unchanged for the
      whole lifecycle. */
  lemma {:induction false} EmptyPrerequisitesNeverRegister(s: Sim, managers: map<PlayerId, ManagerId>, events: seq<Event>)
    requires s.component.info.prerequisites == []
    ensures Run(s, managers, events).Some? ==> Run(s, managers, events).value.managerCalls == s.managerCalls
    decreases |events|
  {
    if |events| > 0 {
      match Dispatch(s, managers, events[0])
      case None =>
      case Some(next) => EmptyPrerequisitesNeverRegister(next, managers, events[1..]);
    }
  }

  /** A component with no prerequisites that starts unregistered is never
      called back, so it never makes a ledger call and never records a signal. */
  lemma {:induction false} EmptyPrerequisitesNeverGrant(s: Sim, managers: map<PlayerId, ManagerId>, events: seq<Event>)
    requires s.component.info.prerequisites == [] && s.managerCalls == []
    ensures Run(s, managers, events).Some? ==>
      && Run(s, managers, events).value.ledgerCalls == s.ledgerCalls
      && Run(s, managers, events).value.component.wasAvailable == s.component.wasAvailable
      && Run(s, managers, events).value.component.conditionToken == s.component.conditionToken
    decreases |events|
  {
    if |events| > 0 {
      match Dispatch(s, managers, events[0])
      case None =>
      case Some(next) => EmptyPrerequisitesNeverGrant(next, managers, events[1..]);
    }
  }

  /** The whole lifecycle from construction: the invariant holds throughout,
      every manager call carries the configured list, and with no
      prerequisites nothing is ever registered or granted. */
  lemma LifecycleFromCreation(info: Info, self: ActorId, owner: PlayerId, managers: map<PlayerId, ManagerId>, events: seq<Event>)
    requires owner in managers && AllUpdatesHonour(events)
    ensures var r := Run(Create(info, self, owner, managers).value, managers, events);
      r.Some? ==>
        && Consistent(r.value)
        && ManagerCallsWellFormed(r.value)
        && (info.prerequisites == [] ==> r.value.managerCalls == [] && r.value.ledgerCalls == [])
  {
    var s := Create(info, self, owner, managers).value;
    InitialStateConsistent(info, self, owner, managers);
    RunPreservesConsistent(s, managers, events);
    RunKeepsManagerCallsWellFormed(s, managers, events);
    if info.prerequisites == [] {
      EmptyPrerequisitesNeverRegister(s, managers, events);
      EmptyPrerequisitesNeverGrant(s, managers, events);
    }
  }

  /** The ownership-change gap: a change of owner leaves every manager's
      registration exactly as it was, so the old manager still calls back,
      while a later world exit unregisters from the new manager. */
  lemma OwnerChangeKeepsOldRegistration(s: Sim, newOwner: PlayerId, managers: map<PlayerId, ManagerId>, m: ManagerId)
    requires newOwner in managers
    ensures var r := OnOwnerChanged(s, newOwner, managers).value;
      && (Delivers(r, m) <==> Delivers(s, m))
      && RemovedFromWorld(r).managerCalls
           == s.managerCalls + (if s.component.info.prerequisites == [] then []
                                else [Unregister(managers[newOwner], s.component.self, s.component.info.prerequisites)])
  {
  }
}
