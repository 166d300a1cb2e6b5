/**
  Two concrete lifecycles: a barracks-gated infantry condition granted and
  revoked once, and the ownership-change gap, where the old owner's manager
  keeps driving the component after the owner changed.
 */
module Scenarios {
  import opened Optional
  import opened Collaborators
  import opened GrantCondition
  import opened SignalTraces
  import opened Lifecycle

  const Infantry := Info("canBuildInfantry", ["barracks"])
  const Actor: ActorId := 7
  const Ledger: LedgerId := 3
  const OwnerA: PlayerId := 1
  const OwnerB: PlayerId := 2
  const ManagerA: ManagerId := 10
  const ManagerB: ManagerId := 20
  const Managers := map[OwnerA := ManagerA, OwnerB := ManagerB]

  /** A token the ledger may hand out: any value but the sentinel. */
  const T1: int := InvalidConditionToken + 1
  const Honest := LedgerReply(T1, InvalidConditionToken)

  /** Register, a redundant "unavailable", a rise, a repeated rise, a fall,
      world exit: exactly one grant, one revoke of its token, one register and
      one unregister with the same list, and the component back where it began. */
  lemma InfantryScenario()
    ensures var s := Create(Infantry, Actor, OwnerA, Managers).value;
      var events := [NotifyCreated(Some(Ledger)), EnterWorld,
                     Updated(ManagerA, Signal(false, Honest)),
                     Updated(ManagerA, Signal(true, Honest)),
                     Updated(ManagerA, Signal(true, Honest)),
                     Updated(ManagerA, Signal(false, Honest)),
                     ExitWorld];
      var r := Run(s, Managers, events);
      && r.Some?
      && r.value.ledgerCalls
           == [GrantCondition(Ledger, Actor, "canBuildInfantry", T1),
               RevokeCondition(Ledger, Actor, T1, InvalidConditionToken)]
      && r.value.managerCalls
           == [Register(ManagerA, Actor, ["barracks"]), Unregister(ManagerA, Actor, ["barracks"])]
      && !r.value.component.wasAvailable
      && !IsValidToken(r.value.component.conditionToken)
  {
    var s0 := Create(Infantry, Actor, OwnerA, Managers).value;
    var s1 := Created(s0, Some(Ledger));
    var s2 := AddedToWorld(s1);
    assert Delivers(s2, ManagerA);
    var s3 := PrerequisitesUpdated(s2, false, Honest);
    assert s3 == s2;
    var s4 := PrerequisitesUpdated(s3, true, Honest);
    var s5 := PrerequisitesUpdated(s4, true, Honest);
    assert s5 == s4;
    var s6 := PrerequisitesUpdated(s5, false, Honest);
    var s7 := RemovedFromWorld(s6);
    var events := [NotifyCreated(Some(Ledger)), EnterWorld,
                   Updated(ManagerA, Signal(false, Honest)),
                   Updated(ManagerA, Signal(true, Honest)),
                   Updated(ManagerA, Signal(true, Honest)),
                   Updated(ManagerA, Signal(false, Honest)),
                   ExitWorld];
    assert Run(s6, Managers, events[6..]) == Some(s7) by {
      assert events[6..][1..] == [];
    }
    assert Run(s5, Managers, events[5..]) == Some(s7) by { assert events[5..][1..] == events[6..]; }
    assert Run(s4, Managers, events[4..]) == Some(s7) by { assert events[4..][1..] == events[5..]; }
    assert Run(s3, Managers, events[3..]) == Some(s7) by { assert events[3..][1..] == events[4..]; }
    assert Run(s2, Managers, events[2..]) == Some(s7) by { assert events[2..][1..] == events[3..]; }
    assert Run(s1, Managers, events[1..]) == Some(s7) by { assert events[1..][1..] == events[2..]; }
  }

  /** The ownership-change gap: after a grant under owner A's manager the
      owner becomes B. Owner A's manager still holds the registration and its
      fall signal still revokes; owner B's manager never registered the actor,
      so its signal is never delivered; world exit unregisters from B and
      leaves A's registration behind. */
  lemma OwnershipChangeGapScenario()
    ensures var s := Create(Infantry, Actor, OwnerA, Managers).value;
      var events := [NotifyCreated(Some(Ledger)), EnterWorld,
                     Updated(ManagerA, Signal(true, Honest)),
                     OwnerChanged(OwnerB),
                     Updated(ManagerA, Signal(false, Honest)),
                     Updated(ManagerB, Signal(true, Honest)),
                     ExitWorld];
      var r := Run(s, Managers, events);
      && r.Some?
      && r.value.ledgerCalls
           == [GrantCondition(Ledger, Actor, "canBuildInfantry", T1),
               RevokeCondition(Ledger, Actor, T1, InvalidConditionToken)]
      && r.value.managerCalls
           == [Register(ManagerA, Actor, ["barracks"]), Unregister(ManagerB, Actor, ["barracks"])]
      && r.value.component.globalManager == ManagerB
      && !r.value.component.wasAvailable
      && Delivers(r.value, ManagerA)
      && !Delivers(r.value, ManagerB)
  {
    var s0 := Create(Infantry, Actor, OwnerA, Managers).value;
    var s1 := Created(s0, Some(Ledger));
    var s2 := AddedToWorld(s1);
    assert Delivers(s2, ManagerA);
    var s3 := PrerequisitesUpdated(s2, true, Honest);
    var s4 := OnOwnerChanged(s3, OwnerB, Managers).value;
    assert Delivers(s4, ManagerA);
    var s5 := PrerequisitesUpdated(s4, false, Honest);
    assert s5.managerCalls == [Register(ManagerA, Actor, ["barracks"])];
    assert s5.managerCalls[..0] == [];
    assert !RegisteredWith([], ManagerB, Actor);
    assert s5.component.self == Actor;
    assert !RegisteredWith(s5.managerCalls, ManagerB, Actor);
    assert !Delivers(s5, ManagerB);
    var s6 := s5;
    var s7 := RemovedFromWorld(s6);
    assert Delivers(s7, ManagerA) && !Delivers(s7, ManagerB);
    var events := [NotifyCreated(Some(Ledger)), EnterWorld,
                   Updated(ManagerA, Signal(true, Honest)),
                   OwnerChanged(OwnerB),
                   Updated(ManagerA, Signal(false, Honest)),
                   Updated(ManagerB, Signal(true, Honest)),
                   ExitWorld];
    assert Run(s6, Managers, events[6..]) == Some(s7) by {
      assert events[6..][1..] == [];
    }
    assert Run(s5, Managers, events[5..]) == Some(s7) by { assert events[5..][1..] == events[6..]; }
    assert Run(s4, Managers, events[4..]) == Some(s7) by { assert events[4..][1..] == events[5..]; }
    assert Run(s3, Managers, events[3..]) == Some(s7) by { assert events[3..][1..] == events[4..]; }
    assert Run(s2, Managers, events[2..]) == Some(s7) by { assert events[2..][1..] == events[3..]; }
    assert Run(s1, Managers, events[1..]) == Some(s7) by { assert events[1..][1..] == events[2..]; }
  }
}
