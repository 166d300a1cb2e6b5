/**
  The two collaborators of the component, seen only at their interface:
  the actor's condition ledger (`ConditionManager`) and the owner's
  prerequisite manager (`GrantConditionOnPrerequisiteManager`). Neither is
  modelled beyond the calls the component makes on it; each call is
  appended to a log so that properties can say exactly which calls happen.
 */
module Collaborators {

  type ActorId = nat
  type PlayerId = nat
  type ManagerId = nat
  type LedgerId = nat

  /** The ledger's "no grant outstanding" token. Its concrete value belongs to
      the ledger and is deliberately left unspecified here: every property of
      the model holds whatever integer it is. */
  const InvalidConditionToken: int

  predicate IsValidToken(token: int) {
    token != InvalidConditionToken
  }

  /** A call made on a condition ledger, together with what the ledger answered. */
  datatype LedgerCall =
    | GrantCondition(ledger: LedgerId, actor: ActorId, condition: string, token: int)
    | RevokeCondition(ledger: LedgerId, actor: ActorId, token: int, result: int)

  /** What the bound ledger answers if it is called during one availability
      update: the token a grant would return and the value a revoke would return. */
  datatype LedgerReply = LedgerReply(granted: int, revoked: int)

  /** The assumed ledger contract: a grant hands out a valid token, a revoke
      hands back the invalid sentinel. */
  predicate Honours(reply: LedgerReply) {
    IsValidToken(reply.granted) && !IsValidToken(reply.revoked)
  }

  /** A call made on a prerequisite manager. */
  datatype ManagerCall =
    | Register(manager: ManagerId, actor: ActorId, prerequisites: seq<string>)
    | Unregister(manager: ManagerId, actor: ActorId, prerequisites: seq<string>)

  /** Number of grant calls in a ledger log. */
  function Grants(log: seq<LedgerCall>): (n: nat)
    ensures n <= |log|
    decreases |log|
  {
    if |log| == 0 then 0
    else Grants(log[..|log| - 1]) + (if log[|log| - 1].GrantCondition? then 1 else 0)
  }

  /** Number of revoke calls in a ledger log. */
  function Revokes(log: seq<LedgerCall>): (n: nat)
    ensures n + Grants(log) == |log|
    decreases |log|
  {
    if |log| == 0 then 0
    else Revokes(log[..|log| - 1]) + (if log[|log| - 1].RevokeCondition? then 1 else 0)
  }

  /** Grants minus revokes: how many grants the log leaves outstanding. */
  function Outstanding(log: seq<LedgerCall>): int {
    Grants(log) - Revokes(log)
  }

  /** The manager's registration bookkeeping, seen from outside: manager `m`
      holds a registration for `actor` when the last register or unregister
      call addressed to `m` for that actor was a register. */
  predicate RegisteredWith(log: seq<ManagerCall>, m: ManagerId, actor: ActorId)
    decreases |log|
  {
    if |log| == 0 then false
    else
      var c := log[|log| - 1];
      if c.manager == m && c.actor == actor then c.Register?
      else RegisteredWith(log[..|log| - 1], m, actor)
  }
}
