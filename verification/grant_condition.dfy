/**
  The `GrantConditionOnPrerequisite` trait: a per-actor component that turns
  a boolean "prerequisites available" signal into grant and revoke calls on
  the actor's condition ledger, and ties its registration with the owner's
  prerequisite manager to the actor's lifecycle.

  Every hook is a pure function from one `Sim` (the component's fields plus
  the logs of calls it has made on its collaborators) to the next.
 */
module GrantCondition {
  import opened Optional
  import opened Collaborators

  /** The trait's static configuration: the condition to grant and the
      prerequisites that gate it (possibly none). */
  datatype Info = Info(condition: string, prerequisites: seq<string>)

  /** The component's fields. `self` is the actor it is attached to;
      `conditionManager` is the actor's ledger if it has one; `globalManager`
      is the prerequisite manager of the current owner. */
  datatype Component = Component(
    info: Info,
    self: ActorId,
    wasAvailable: bool,
    conditionManager: Option<LedgerId>,
    globalManager: ManagerId,
    conditionToken: int)

  /** The component together with every call it has made on a ledger and on
      a prerequisite manager, oldest first. */
  datatype Sim = Sim(component: Component, ledgerCalls: seq<LedgerCall>, managerCalls: seq<ManagerCall>)

  /** The prerequisite manager of `owner`, if the owner has one; looking it up
      for an owner without one is the framework's fatal error. */
  function ManagerOf(managers: map<PlayerId, ManagerId>, owner: PlayerId): Option<ManagerId> {
    if owner in managers then Some(managers[owner]) else None
  }

  /** Constructs the trait for actor `self` owned by `owner`: no signal seen,
      no grant outstanding, no ledger bound yet, no call made. */
  function Create(info: Info, self: ActorId, owner: PlayerId, managers: map<PlayerId, ManagerId>): (r: Option<Sim>)
    ensures r.None? <==> owner !in managers
    ensures r.Some? ==>
      && r.value.component.info == info
      && r.value.component.self == self
      && r.value.component.globalManager == managers[owner]
      && !r.value.component.wasAvailable
      && !IsValidToken(r.value.component.conditionToken)
      && r.value.component.conditionManager.None?
      && r.value.ledgerCalls == []
      && r.value.managerCalls == []
  {
    match ManagerOf(managers, owner)
    case None => None
    case Some(m) =>
      Some(Sim(Component(info, self, false, None, m, InvalidConditionToken), [], []))
  }

  /** `INotifyCreated.Created`: caches the actor's ledger, if it has one. */
  function Created(s: Sim, ledger: Option<LedgerId>): (r: Sim)
    ensures r.component.conditionManager == ledger
    ensures r.component.(conditionManager := s.component.conditionManager) == s.component
    ensures r.ledgerCalls == s.ledgerCalls && r.managerCalls == s.managerCalls
  {
    s.(component := s.component.(conditionManager := ledger))
  }

  /** `INotifyAddedToWorld.AddedToWorld`: registers with the current manager,
      but only when there are prerequisites to register. */
  function AddedToWorld(s: Sim): (r: Sim)
    ensures r.component == s.component && r.ledgerCalls == s.ledgerCalls
    ensures |s.managerCalls| <= |r.managerCalls| <= |s.managerCalls| + 1
    ensures r.managerCalls[..|s.managerCalls|] == s.managerCalls
    ensures |r.managerCalls| > |s.managerCalls| <==> s.component.info.prerequisites != []
    ensures |r.managerCalls| > |s.managerCalls| ==>
      r.managerCalls[|s.managerCalls|]
        == Register(s.component.globalManager, s.component.self, s.component.info.prerequisites)
  {
    if |s.component.info.prerequisites| > 0 then
      var c := s.component;
      s.(managerCalls := s.managerCalls + [Register(c.globalManager, c.self, c.info.prerequisites)])
    else s
  }

  /** `INotifyRemovedFromWorld.RemovedFromWorld`: unregisters from the current
      manager, with the same list, again only when there are prerequisites. */
  function RemovedFromWorld(s: Sim): (r: Sim)
    ensures r.component == s.component && r.ledgerCalls == s.ledgerCalls
    ensures |s.managerCalls| <= |r.managerCalls| <= |s.managerCalls| + 1
    ensures r.managerCalls[..|s.managerCalls|] == s.managerCalls
    ensures |r.managerCalls| > |s.managerCalls| <==> s.component.info.prerequisites != []
    ensures |r.managerCalls| > |s.managerCalls| ==>
      r.managerCalls[|s.managerCalls|]
        == Unregister(s.component.globalManager, s.component.self, s.component.info.prerequisites)
  {
    if |s.component.info.prerequisites| > 0 then
      var c := s.component;
      s.(managerCalls := s.managerCalls + [Unregister(c.globalManager, c.self, c.info.prerequisites)])
    else s
  }

  /** `INotifyOwnerChanged.OnOwnerChanged`: rebinds the manager reference to
      the new owner's manager and does nothing else — no unregister from the
      old manager, no register with the new one, token and signal untouched. */
  function OnOwnerChanged(s: Sim, newOwner: PlayerId, managers: map<PlayerId, ManagerId>): (r: Option<Sim>)
    ensures r.None? <==> newOwner !in managers
    ensures r.Some? ==>
      && r.value.component == s.component.(globalManager := managers[newOwner])
      && r.value.ledgerCalls == s.ledgerCalls
      && r.value.managerCalls == s.managerCalls
  {
    match ManagerOf(managers, newOwner)
    case None => None
    case Some(m) => Some(s.(component := s.component.(globalManager := m)))
  }

  /** `PrerequisitesUpdated`: the grant/revoke state machine. A repeated
      signal, or a missing ledger, returns at once; otherwise a rise grants
      when no token is held, a fall revokes the held token, and the signal is
      recorded either way. */
  function PrerequisitesUpdated(s: Sim, available: bool, reply: LedgerReply): (r: Sim)
    // nothing but the signal, the token and the ledger log ever changes
    ensures r.managerCalls == s.managerCalls
    ensures r.component
      == s.component.(wasAvailable := r.component.wasAvailable, conditionToken := r.component.conditionToken)
    // the ledger log only grows, by at most one call
    ensures |s.ledgerCalls| <= |r.ledgerCalls| <= |s.ledgerCalls| + 1
    ensures r.ledgerCalls[..|s.ledgerCalls|] == s.ledgerCalls
    // the early return: a repeated signal or a missing ledger changes nothing
    ensures available == s.component.wasAvailable || s.component.conditionManager.None? ==> r == s
    // past the early return the signal is always recorded
    ensures s.component.conditionManager.Some? ==> r.component.wasAvailable == available
    // a ledger call happens only on a real transition, in the signal's direction
    ensures |r.ledgerCalls| > |s.ledgerCalls| ==>
      && available != s.component.wasAvailable
      && s.component.conditionManager.Some?
      && (r.ledgerCalls[|s.ledgerCalls|].GrantCondition? <==> available)
  {
    var c := s.component;
    if available == c.wasAvailable || c.conditionManager.None? then s
    else
      var ledger := c.conditionManager.value;
      if available && !IsValidToken(c.conditionToken) then
        var call := GrantCondition(ledger, c.self, c.info.condition, reply.granted);
        Sim(c.(conditionToken := reply.granted, wasAvailable := available), s.ledgerCalls + [call], s.managerCalls)
      else if !available && IsValidToken(c.conditionToken) then
        var call := RevokeCondition(ledger, c.self, c.conditionToken, reply.revoked);
        Sim(c.(conditionToken := reply.revoked, wasAvailable := available), s.ledgerCalls + [call], s.managerCalls)
      else
        s.(component := c.(wasAvailable := available))
  }

  /** A rise with a ledger bound and no token held issues exactly one grant,
      for the configured condition, and keeps the token it returns. */
  lemma GrantOnRise(s: Sim, reply: LedgerReply)
    requires !s.component.wasAvailable && s.component.conditionManager.Some?
    requires !IsValidToken(s.component.conditionToken)
    ensures var r := PrerequisitesUpdated(s, true, reply);
      && r.ledgerCalls == s.ledgerCalls
           + [GrantCondition(s.component.conditionManager.value, s.component.self, s.component.info.condition, reply.granted)]
      && r.component.conditionToken == reply.granted
      && r.component.wasAvailable
  {
  }

  /** A fall with a ledger bound and a token held issues exactly one revoke,
      of that token, and keeps the value the ledger returns. */
  lemma RevokeOnFall(s: Sim, reply: LedgerReply)
    requires s.component.wasAvailable && s.component.conditionManager.Some?
    requires IsValidToken(s.component.conditionToken)
    ensures var r := PrerequisitesUpdated(s, false, reply);
      && r.ledgerCalls == s.ledgerCalls
           + [RevokeCondition(s.component.conditionManager.value, s.component.self, s.component.conditionToken, reply.revoked)]
      && r.component.conditionToken == reply.revoked
      && !r.component.wasAvailable
  {
  }

  /** The signal is recorded even when neither branch calls the ledger:
      a rise while a token is already held, or a fall while none is. */
  lemma RecordsSignalWithoutLedgerCall(s: Sim, available: bool, reply: LedgerReply)
    requires available != s.component.wasAvailable && s.component.conditionManager.Some?
    requires available == IsValidToken(s.component.conditionToken)
    ensures var r := PrerequisitesUpdated(s, available, reply);
      && r.ledgerCalls == s.ledgerCalls
      && r.component == s.component.(wasAvailable := available)
  {
  }
}
