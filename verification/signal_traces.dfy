/**
  Properties of `PrerequisitesUpdated` over arbitrary finite sequences of
  availability signals: the token/signal invariant, at most one outstanding
  grant, strict grant/revoke alternation, idempotence and the no-ledger
  inertness.
 */
module SignalTraces {
  import opened Optional
  import opened Collaborators
  import opened GrantCondition

  /** One availability callback, with what the bound ledger would answer. */
  datatype Signal = Signal(available: bool, reply: LedgerReply)

  predicate AllHonour(sigs: seq<Signal>) {
    forall i :: 0 <= i < |sigs| ==> Honours(sigs[i].reply)
  }

  /** Feeds the signals to the component, first signal first. */
  function Signals(s: Sim, sigs: seq<Signal>): (r: Sim)
    ensures r.managerCalls == s.managerCalls
    ensures r.component.info == s.component.info && r.component.self == s.component.self
    ensures r.component.conditionManager == s.component.conditionManager
    ensures r.component.globalManager == s.component.globalManager
    ensures |s.ledgerCalls| <= |r.ledgerCalls| <= |s.ledgerCalls| + |sigs|
    ensures r.ledgerCalls[..|s.ledgerCalls|] == s.ledgerCalls
    decreases |sigs|
  {
    if |sigs| == 0 then s
    else Signals(PrerequisitesUpdated(s, sigs[0].available, sigs[0].reply), sigs[1..])
  }

  /** A ledger log in which grants and revokes strictly alternate, starting
      with a grant, and each revoke names the token the grant before it
      returned. */
  ghost predicate Alternating(log: seq<LedgerCall>) {
    && (forall i :: 0 <= i < |log| ==> (log[i].GrantCondition? <==> i % 2 == 0))
    && (forall i :: 1 <= i < |log| && log[i].RevokeCondition? ==> log[i].token == log[i - 1].token)
  }

  /** The component's invariant while the ledger honours its contract: a valid
      token is held exactly when the last signal was "available", the log is
      alternating and ends in a grant exactly then, and that grant's token is
      the one held. */
  ghost predicate Consistent(s: Sim) {
    && (IsValidToken(s.component.conditionToken) <==> s.component.wasAvailable)
    && Alternating(s.ledgerCalls)
    && (|s.ledgerCalls| % 2 == 1 <==> s.component.wasAvailable)
    && (s.component.wasAvailable ==> s.ledgerCalls[|s.ledgerCalls| - 1].token == s.component.conditionToken)
  }

  /** A freshly constructed component satisfies the invariant, with no grant
      outstanding. */
  lemma InitialStateConsistent(info: Info, self: ActorId, owner: PlayerId, managers: map<PlayerId, ManagerId>)
    requires owner in managers
    ensures Create(info, self, owner, managers).Some?
    ensures Consistent(Create(info, self, owner, managers).value)
    ensures Outstanding(Create(info, self, owner, managers).value.ledgerCalls) == 0
  {
  }

  /** Every single update preserves the invariant, provided the ledger's
      answer honours its contract. */
  lemma StepPreservesConsistent(s: Sim, available: bool, reply: LedgerReply)
    requires Consistent(s) && Honours(reply)
    ensures Consistent(PrerequisitesUpdated(s, available, reply))
  {
  }

  /** Under the invariant the defensive branch is dead: every real transition
      with a ledger bound makes exactly one ledger call. */
  lemma TransitionAlwaysCallsLedger(s: Sim, available: bool, reply: LedgerReply)
    requires Consistent(s)
    requires available != s.component.wasAvailable && s.component.conditionManager.Some?
    ensures |PrerequisitesUpdated(s, available, reply).ledgerCalls| == |s.ledgerCalls| + 1
  {
  }

  /** The invariant holds after any sequence of honoured signals. */
  lemma {:induction false} SignalsPreserveConsistent(s: Sim, sigs: seq<Signal>)
    requires Consistent(s) && AllHonour(sigs)
    ensures Consistent(Signals(s, sigs))
    decreases |sigs|
  {
    if |sigs| > 0 {
      StepPreservesConsistent(s, sigs[0].available, sigs[0].reply);
      assert AllHonour(sigs[1..]) by {
        forall i | 0 <= i < |sigs[1..]| ensures Honours(sigs[1..][i].reply) {
          assert sigs[1..][i] == sigs[i + 1];
        }
      }
      SignalsPreserveConsistent(PrerequisitesUpdated(s, sigs[0].available, sigs[0].reply), sigs[1..]);
    }
  }

  /** In an alternating log, grants minus revokes is the parity of its length. */
  lemma {:induction false} AlternatingOutstanding(log: seq<LedgerCall>)
    requires Alternating(log)
    ensures Outstanding(log) == |log| % 2
    decreases |log|
  {
    if |log| > 0 {
      var init := log[..|log| - 1];
      assert forall i :: 0 <= i < |init| ==> init[i] == log[i];
      AlternatingOutstanding(init);
    }
  }

  /** Every prefix of an alternating log is alternating. */
  lemma AlternatingPrefix(log: seq<LedgerCall>, k: nat)
    requires Alternating(log) && k <= |log|
    ensures Alternating(log[..k])
  {
  }

  /** At most one outstanding grant: after any honoured signal sequence from a
      consistent state, at every point of the ledger history the number of
      grants minus the number of revokes is 0 or 1. */
  lemma AtMostOneOutstandingGrant(s: Sim, sigs: seq<Signal>)
    requires Consistent(s) && AllHonour(sigs)
    ensures var log := Signals(s, sigs).ledgerCalls;
      forall k :: 0 <= k <= |log| ==> 0 <= Outstanding(log[..k]) <= 1
  {
    var log := Signals(s, sigs).ledgerCalls;
    SignalsPreserveConsistent(s, sigs);
    forall k | 0 <= k <= |log|
      ensures 0 <= Outstanding(log[..k]) <= 1
    {
      AlternatingPrefix(log, k);
      AlternatingOutstanding(log[..k]);
    }
  }

  /** No two grants without an intervening revoke, and the revoke right after
      a grant always names that grant's token. */
  lemma GrantsSeparatedByMatchingRevoke(s: Sim, sigs: seq<Signal>, i: nat, j: nat)
    requires Consistent(s) && AllHonour(sigs)
    requires i < j < |Signals(s, sigs).ledgerCalls|
    requires Signals(s, sigs).ledgerCalls[i].GrantCondition?
    requires Signals(s, sigs).ledgerCalls[j].GrantCondition?
    ensures i + 1 < j
    ensures Signals(s, sigs).ledgerCalls[i + 1].RevokeCondition?
    ensures Signals(s, sigs).ledgerCalls[i + 1].token == Signals(s, sigs).ledgerCalls[i].token
  {
    SignalsPreserveConsistent(s, sigs);
  }

  /** A signal equal to the recorded one is a complete no-op; in particular the
      second of two identical signals does nothing, so two identical signals in
      a row make at most one ledger call. */
  lemma RepeatedSignalIsNoOp(s: Sim, available: bool, r1: LedgerReply, r2: LedgerReply)
    ensures var once := PrerequisitesUpdated(s, available, r1);
      && PrerequisitesUpdated(once, available, r2) == once
      && |PrerequisitesUpdated(once, available, r2).ledgerCalls| <= |s.ledgerCalls| + 1
  {
  }

  /** With no ledger bound, every signal sequence is a complete no-op: no
      ledger call, and the recorded signal never changes. */
  lemma {:induction false} NoLedgerSignalsInert(s: Sim, sigs: seq<Signal>)
    requires s.component.conditionManager.None?
    ensures Signals(s, sigs) == s
    decreases |sigs|
  {
    if |sigs| > 0 {
      NoLedgerSignalsInert(PrerequisitesUpdated(s, sigs[0].available, sigs[0].reply), sigs[1..]);
    }
  }

  /** Round trip: from a consistent idle state with a ledger bound, a rise
      then a fall makes one grant and one revoke of the granted token, and
      restores the component exactly. */
  lemma GrantRevokeRoundTrip(s: Sim, r1: LedgerReply, r2: LedgerReply)
    requires Consistent(s) && Honours(r1) && Honours(r2)
    requires !s.component.wasAvailable && s.component.conditionManager.Some?
    ensures var r := PrerequisitesUpdated(PrerequisitesUpdated(s, true, r1), false, r2);
      && r.component == s.component
      && |r.ledgerCalls| == |s.ledgerCalls| + 2
      && r.ledgerCalls[|s.ledgerCalls|].GrantCondition?
      && r.ledgerCalls[|s.ledgerCalls| + 1].RevokeCondition?
      && r.ledgerCalls[|s.ledgerCalls| + 1].token == r.ledgerCalls[|s.ledgerCalls|].token
  {
  }

  /** The ledger contract is needed: if a grant may hand back the invalid
      sentinel, the signals rise, fall, rise leave two grants and no revoke. */
  lemma ContractNeededForAtMostOne(info: Info, self: ActorId, owner: PlayerId, managers: map<PlayerId, ManagerId>, ledger: LedgerId)
    requires owner in managers
    ensures var s := Created(Create(info, self, owner, managers).value, Some(ledger));
      var bad := LedgerReply(InvalidConditionToken, InvalidConditionToken);
      Outstanding(Signals(s, [Signal(true, bad), Signal(false, bad), Signal(true, bad)]).ledgerCalls) == 2
  {
    var s := Created(Create(info, self, owner, managers).value, Some(ledger));
    var bad := LedgerReply(InvalidConditionToken, InvalidConditionToken);
    var s1 := PrerequisitesUpdated(s, true, bad);
    var s2 := PrerequisitesUpdated(s1, false, bad);
    var s3 := PrerequisitesUpdated(s2, true, bad);
    var sigs := [Signal(true, bad), Signal(false, bad), Signal(true, bad)];
    assert Signals(s, sigs) == Signals(s1, sigs[1..]);
    assert sigs[1..][1..] == [Signal(true, bad)];
    assert Signals(s1, sigs[1..]) == Signals(s2, [Signal(true, bad)]);
    assert Signals(s3, []) == s3;
    assert s3.ledgerCalls[..1][..0] == [];
    assert s3.ledgerCalls[..1] == s2.ledgerCalls;
  }
}
