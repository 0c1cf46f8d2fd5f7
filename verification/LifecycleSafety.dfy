/** Safety of the entity lifecycle over every run: any number of owners reserve, retry,
    block, resume, cancel, delete, abort and clean up in any interleaving. */
module LifecycleSafety {
  import opened Outcomes
  import opened Lifecycle

  // ---------- Steps ----------

  /** `seen` is the operation row a caller read at some earlier moment. */
  datatype Step =
    | DoReserve(create: CreateInput, id: Id)
    | DoBeginDelete(delete: DeleteInput, id: Id)
    | DoMaterialize(id: Id, seen: Op)
    | DoActivate(id: Id, now: int)
    | DoFinishDeletion(id: Id, result: Option<string>, now: int)
    | DoAbortDeletion(id: Id, failure: Failed, now: int)
    | DoRetry(id: Id, seen: Op, failure: Failed, now: int)
    | DoKvFailure(id: Id, seen: Op, failure: Failed, now: int)
    | DoResolve(id: Id, seen: Op, resume: bool, revision: nat, now: int)
    | DoAccountProgress(id: Id, seen: Op, counts: bool, code: string, now: int)
    | DoBeginCompensation(id: Id, seen: Op, failure: Failed)
    | DoFinishCompensation(id: Id, cleanup: bool, now: int)
    | DoCleanup(ids: set<Id>, now: int)
    | DoProject(id: Id)
    | DoTombstone(id: Id)

  /** A row read earlier is the current row or an older revision of it. */
  predicate ReadEarlier(s: State, id: Id, seen: Op) {
    id in s.ops ==>
      var op := s.ops[id];
      op == seen || (seen.revision < op.revision && SameIdentity(op, seen))
  }

  predicate SameIdentity(a: Op, b: Op) {
    a.owner == b.owner && a.key == b.key && a.hash == b.hash && a.entity == b.entity && a.action == b.action
  }

  /** Reservations go with the entity being created: participant handles in its world. */
  predicate WellScoped(input: CreateInput) {
    && (forall k :: k in input.reservations && k.kind == BotHandle ==>
         input.guard.ActiveBotWorld? && k.scope == input.guard.world)
    && (input.entity.kind == Account ==> input.owner == input.entity.id)
    && (input.entity.kind != Account ==> !input.guard.NoGuard?)
  }

  /** A new entity has no visible row, and any row of its id has its owner. */
  predicate FreshEntity(s: State, input: CreateInput) {
    input.entity in s.rows ==> s.rows[input.entity].owner == input.owner && !RowActive(s, input.entity)
  }

  /** What callers guarantee: fresh operation ids; one owner's work on one operation is
      serialized, so an operation is finished only from the phase its runner saw. */
  predicate Enabled(s: State, step: Step) {
    match step
    case DoReserve(input, id) =>
      id !in s.ops && WellScoped(input) && FreshEntity(s, input)
    case DoBeginDelete(input, id) =>
      id !in s.ops && (input.entity in s.rows ==> s.rows[input.entity].owner == input.owner) &&
      (input.entity.kind == Account ==> input.owner == input.entity.id)
    case DoMaterialize(id, seen) => ReadEarlier(s, id, seen)
    case DoActivate(id, _) => id in s.ops && s.ops[id].action == Create && s.ops[id].phase in {Pending, Materializing}
    case DoFinishDeletion(id, result, _) =>
      id in s.ops && s.ops[id].action == Delete && Live(s.ops[id]) && (result.Some? <==> s.ops[id].entity.kind == Account)
    case DoAbortDeletion(id, _, _) => id in s.ops && s.ops[id].action == Delete && Live(s.ops[id])
    case DoRetry(id, seen, _, _) => ReadEarlier(s, id, seen)
    case DoKvFailure(id, seen, _, _) => ReadEarlier(s, id, seen) && seen.entity.kind == Bot && seen.action == Create
    case DoResolve(id, seen, _, _, _) =>
      ReadEarlier(s, id, seen) && seen.entity.kind == Bot && seen.action == Create && seen.kv == Blocked
    case DoAccountProgress(id, seen, _, _, _) => ReadEarlier(s, id, seen)
    case DoBeginCompensation(id, seen, _) => ReadEarlier(s, id, seen)
    case DoFinishCompensation(id, _, _) => id in s.ops && s.ops[id].phase == Compensating
    case DoCleanup(ids, now) => forall id :: id in ids ==> id in s.ops && Expired(s.ops[id], now)
    case DoProject(id) => id in s.ops && s.ops[id].action == Create && Live(s.ops[id]) && !RowActive(s, s.ops[id].entity)
    case DoTombstone(id) => id in s.ops && s.ops[id].action == Delete && Live(s.ops[id])
  }

  function Committed'(b: Batch, s: State): State {
    match b
    case Committed(s') => s'
    case UniqueViolation => s
  }

  function Apply(s: State, step: Step): State
    requires Enabled(s, step)
  {
    match step
    case DoReserve(input, id) => Committed'(ReserveBatch(s, input, id), s)
    case DoBeginDelete(input, id) => Committed'(DeleteBatch(s, input, id), s)
    case DoMaterialize(id, seen) => Materialize(s, id, seen)
    case DoActivate(id, now) => Activate(s, id, now)
    case DoFinishDeletion(id, result, now) => FinishDeletion(s, id, result, now)
    case DoAbortDeletion(id, failure, now) => AbortDeletion(s, id, failure, now)
    case DoRetry(id, seen, failure, now) => Retry(s, id, seen, failure, now)
    case DoKvFailure(id, seen, failure, now) => KvFailure(s, id, seen, failure, now)
    case DoResolve(id, seen, resume, revision, now) => Resolve(s, id, seen, resume, revision, now)
    case DoAccountProgress(id, seen, counts, code, now) => AccountProgress(s, id, seen, counts, code, now)
    case DoBeginCompensation(id, seen, failure) => BeginCompensation(s, id, seen, failure)
    case DoFinishCompensation(id, cleanup, now) => FinishCompensation(s, id, cleanup, now)
    case DoCleanup(ids, now) => Cleanup(s, ids)
    case DoProject(id) => Project(s, id)
    case DoTombstone(id) => Tombstone(s, id)
  }

  // ---------- The invariant ----------

  predicate KeysUnique(s: State) {
    forall a, b :: a in s.ops && b in s.ops && s.ops[a].owner == s.ops[b].owner && s.ops[a].key == s.ops[b].key ==> a == b
  }

  /** One operation row on its own. "Blocked" is exactly: failed without a cleanup date. */
  predicate OpValid(op: Op) {
    && op.revision >= 1
    && (op.kv == Blocked <==> op.phase == TerminalFailed && op.cleanupAt == None)
    && (op.kv == Blocked ==> op.entity.kind == Bot && op.action == Create)
    && (Live(op) ==> op.cleanupAt == None)
    && (Holding(op) <==> op.request.Some?)
    && (op.result.Some? ==> op.entity.kind == Account && op.action == Delete && op.phase == Terminal)
    && (op.action == Create ==> op.phase in {Pending, Materializing, Compensating, Terminal, TerminalFailed})
    && (op.action == Delete ==> op.phase in {Deleting, Compensating, Terminal, TerminalFailed})
    && op.kvCount <= KV_RETRY_LIMIT
    && (op.kv != Blocked ==> op.kvCount < KV_RETRY_LIMIT)
    && (op.kv != Calm ==> op.kvDeadline.Some?)
  }

  predicate OpsValid(s: State) {
    forall id :: id in s.ops ==> OpValid(s.ops[id])
  }

  /** The entity row names the operation and stands in the same phase. */
  predicate Agrees(s: State, id: Id)
    requires id in s.ops
  {
    var op := s.ops[id];
    op.entity in s.entities && s.entities[op.entity].activeOp == id &&
    s.entities[op.entity].phase == op.phase && s.entities[op.entity].owner == op.owner
  }

  predicate PhasesAgree(s: State) {
    forall id :: id in s.ops && Holding(s.ops[id]) ==> Agrees(s, id)
  }

  /** A pending claim belongs to a live or blocked creation of its own entity. */
  predicate ClaimHeld(s: State, k: ClaimKey)
    requires k in s.claims
  {
    s.claims[k].holder.Some? ==>
      var id := s.claims[k].holder.value;
      id in s.ops && Holding(s.ops[id]) && s.ops[id].action == Create &&
      s.claims[k].entity == s.ops[id].entity && s.claims[k].owner == s.ops[id].owner
  }

  predicate ClaimsHeld(s: State) {
    forall k :: k in s.claims ==> ClaimHeld(s, k)
  }

  predicate SecretsHeld(s: State) {
    forall id :: id in s.secrets ==> id in s.ops && Holding(s.ops[id]) && s.ops[id].action == Create
  }

  /** Participant handles are claimed only in visible worlds. */
  predicate ScopesOpen(s: State) {
    forall k :: k in s.claims && k.kind == BotHandle ==> RowActive(s, EntityKey(World, k.scope))
  }

  /** While an operation is live or blocked its entity is not visible. */
  predicate WorkHidden(s: State) {
    forall id :: id in s.ops && Holding(s.ops[id]) ==> !RowActive(s, s.ops[id].entity)
  }

  predicate OwnersAgree(s: State) {
    && (forall key :: key in s.entities && key in s.rows ==> s.entities[key].owner == s.rows[key].owner)
    && (forall id :: id in s.ops && s.ops[id].entity.kind == Account ==> s.ops[id].owner == s.ops[id].entity.id)
  }

  /** While an account deletion is live: no creation of that owner is live or blocked, and
      no other owner's participant claim sits in its worlds. */
  predicate AccountClosed(s: State, account: Id) {
    && (forall id :: id in s.ops && s.ops[id].owner == account && s.ops[id].action == Create ==> !Holding(s.ops[id]))
    && NoForeignClaims(s, account)
  }

  predicate DeletingAccount(s: State, id: Id) {
    id in s.ops && Live(s.ops[id]) && s.ops[id].action == Delete && s.ops[id].entity.kind == Account
  }

  predicate AccountsClosed(s: State) {
    forall id :: id in s.ops && DeletingAccount(s, id) ==> AccountClosed(s, s.ops[id].owner)
  }

  predicate Inv(s: State) {
    && KeysUnique(s)
    && OpsValid(s)
    && PhasesAgree(s)
    && ClaimsHeld(s)
    && SecretsHeld(s)
    && ScopesOpen(s)
    && WorkHidden(s)
    && OwnersAgree(s)
    && AccountsClosed(s)
  }

  // ---------- Every step keeps the invariant ----------

  /** Same operations in every respect but their progress, same owners of entity rows, and
      the other tables untouched. */
  predicate SameShape(s: State, s': State) {
    && s'.claims == s.claims && s'.rows == s.rows && s'.secrets == s.secrets
    && s'.ops.Keys == s.ops.Keys && s'.entities.Keys == s.entities.Keys
    && (forall id :: id in s.ops ==> SameIdentity(s'.ops[id], s.ops[id]) && (Holding(s'.ops[id]) <==> Holding(s.ops[id])))
    && (forall key :: key in s.entities ==> s'.entities[key].owner == s.entities[key].owner)
  }

  lemma ShapeKeepsTables(s: State, s': State)
    requires Inv(s) && SameShape(s, s')
    ensures KeysUnique(s') && ClaimsHeld(s') && SecretsHeld(s')
  {
    hide ScopesOpen, WorkHidden, AccountsClosed, PhasesAgree, OpsValid, OwnersAgree;
    forall k | k in s'.claims ensures ClaimHeld(s', k) {
      assert ClaimHeld(s, k);
    }
  }

  lemma ShapeKeepsRows(s: State, s': State)
    requires Inv(s) && SameShape(s, s')
    ensures ScopesOpen(s') && WorkHidden(s') && OwnersAgree(s')
  {
    hide KeysUnique, ClaimsHeld, SecretsHeld, AccountsClosed, PhasesAgree, OpsValid;
    assert forall key :: RowActive(s', key) == RowActive(s, key);
  }

  lemma ShapeKeepsAccounts(s: State, s': State)
    requires Inv(s) && SameShape(s, s') && OpsValid(s')
    ensures AccountsClosed(s')
  {
    hide KeysUnique, ClaimsHeld, SecretsHeld, PhasesAgree, ScopesOpen, WorkHidden, OwnersAgree;
    forall id | id in s'.ops && DeletingAccount(s', id) ensures AccountClosed(s', s'.ops[id].owner) {
      assert OpValid(s.ops[id]) && DeletingAccount(s, id);
      var account := s.ops[id].owner;
      assert AccountClosed(s, account);
      forall k | k in s'.claims && InWorldOf(s', k, account) ensures s'.claims[k].owner == account {
        assert InWorldOf(s, k, account);
      }
    }
  }

  lemma RowFacts(s: State, id: Id)
    requires Inv(s) && id in s.ops
    ensures OpValid(s.ops[id]) && (Holding(s.ops[id]) ==> Agrees(s, id))
  {
  }

  /** The common move: one operation and its entity row change phase together. */
  lemma MoveKeepsInv(s: State, id: Id, op: Op)
    requires Inv(s) && id in s.ops && Holding(s.ops[id]) && Holding(op)
    requires OpValid(op) && SameIdentity(op, s.ops[id])
    ensures Inv(MoveEntity(SetOp(s, id, op), op.entity, id, op.phase))
  {
    hide KeysUnique, ClaimsHeld, SecretsHeld, ScopesOpen, WorkHidden, OwnersAgree, AccountsClosed, OpValid, PhasesAgree;
    var s' := MoveEntity(SetOp(s, id, op), op.entity, id, op.phase);
    assert s'.ops == s.ops[id := op];
    assert SameShape(s, s');
    ShapeKeepsTables(s, s');
    ShapeKeepsRows(s, s');
    ShapeKeepsAccounts(s, s');
    MovePhasesAgree(s, id, op);
  }

  lemma MovePhasesAgree(s: State, id: Id, op: Op)
    requires PhasesAgree(s) && id in s.ops && Holding(s.ops[id]) && op.entity == s.ops[id].entity && op.owner == s.ops[id].owner
    ensures PhasesAgree(MoveEntity(SetOp(s, id, op), op.entity, id, op.phase))
  {
    var s' := MoveEntity(SetOp(s, id, op), op.entity, id, op.phase);
    forall other | other in s'.ops && Holding(s'.ops[other]) ensures Agrees(s', other) {
      assert Agrees(s, other) && Agrees(s, id);
    }
  }

  /** A statement that bumps the entity row of an operation alone: either to the phase the
      operation already has (a stale fence), or for a finished operation. */
  lemma EntityMoveKeepsInv(s: State, id: Id, phase: Phase)
    requires Inv(s) && id in s.ops && (s.ops[id].phase == phase || !Holding(s.ops[id]))
    ensures Inv(MoveEntity(s, s.ops[id].entity, id, phase))
  {
    var s' := MoveEntity(s, s.ops[id].entity, id, phase);
    assert SameShape(s, s');
    ShapeKeepsTables(s, s');
    ShapeKeepsRows(s, s');
    ShapeKeepsAccounts(s, s');
    hide KeysUnique, ClaimsHeld, SecretsHeld, ScopesOpen, WorkHidden, OwnersAgree, AccountsClosed, OpValid;
    forall other | other in s'.ops && Holding(s'.ops[other]) ensures Agrees(s', other) {
      assert Agrees(s, other);
    }
  }

  lemma MaterializeKeepsInv(s: State, id: Id, seen: Op)
    requires Inv(s) && ReadEarlier(s, id, seen)
    ensures Inv(Materialize(s, id, seen))
  {
    hide Inv;
    if id in s.ops && seen.phase == Pending {
      RowFacts(s, id);
      var op := s.ops[id];
      if op.phase == Pending {
        MoveKeepsInv(s, id, op.(phase := Materializing, revision := op.revision + 1));
      } else if op.entity in s.entities && s.entities[op.entity].phase == Pending && s.entities[op.entity].activeOp == id {
        // Only a finished operation could still name a pending entity row.
        EntityMoveKeepsInv(s, id, Materializing);
      }
    }
  }

  lemma RetryKeepsInv(s: State, id: Id, seen: Op, failure: Failed, now: int)
    requires Inv(s) && ReadEarlier(s, id, seen)
    ensures Inv(Retry(s, id, seen, failure, now))
  {
    hide Inv;
    if id in s.ops && Live(s.ops[id]) {
      RowFacts(s, id);
      MoveKeepsInv(s, id, Retried(s.ops[id], seen, failure, now));
    }
  }

  lemma KvFailureKeepsInv(s: State, id: Id, seen: Op, failure: Failed, now: int)
    requires Inv(s) && ReadEarlier(s, id, seen) && seen.entity.kind == Bot && seen.action == Create
    ensures Inv(KvFailure(s, id, seen, failure, now))
  {
    hide Inv;
    if id in s.ops {
      var op := s.ops[id];
      RowFacts(s, id);
      var phase := if KvExhausted(seen, now) then TerminalFailed else Materializing;
      if op.revision == seen.revision && op.phase in {Pending, Materializing} {
        MoveKeepsInv(s, id, KvFailed(op, seen, failure, now));
      } else if op.revision == seen.revision + 1 && op.phase == phase {
        EntityMoveKeepsInv(s, id, phase);
      }
    }
  }

  lemma ResolveKeepsInv(s: State, id: Id, seen: Op, resume: bool, revision: nat, now: int)
    requires Inv(s) && ReadEarlier(s, id, seen) && seen.entity.kind == Bot && seen.action == Create
    ensures Inv(Resolve(s, id, seen, resume, revision, now))
  {
    hide Inv;
    if id in s.ops {
      var op := s.ops[id];
      RowFacts(s, id);
      var phase := if resume then Materializing else Compensating;
      if op.owner == seen.owner && op.revision == revision && op.kv == Blocked && (!resume || RowActive(s, EntityKey(Account, seen.owner))) {
        MoveKeepsInv(s, id, Resolved(op, resume, now));
      } else if op.revision == revision + 1 && op.phase == phase {
        EntityMoveKeepsInv(s, id, phase);
      }
    }
  }

  lemma AccountProgressKeepsInv(s: State, id: Id, seen: Op, counts: bool, code: string, now: int)
    requires Inv(s) && ReadEarlier(s, id, seen)
    ensures Inv(AccountProgress(s, id, seen, counts, code, now))
  {
    hide Inv;
    if id in s.ops && Live(s.ops[id]) && s.ops[id].entity.kind == Account && s.ops[id].action == Delete {
      RowFacts(s, id);
      MoveKeepsInv(s, id, Progressed(s.ops[id], counts, code, now));
    }
  }

  lemma BeginCompensationKeepsInv(s: State, id: Id, seen: Op, failure: Failed)
    requires Inv(s) && ReadEarlier(s, id, seen)
    ensures Inv(BeginCompensation(s, id, seen, failure))
  {
    hide Inv;
    if seen.phase != TerminalFailed && id in s.ops && Live(s.ops[id]) {
      RowFacts(s, id);
      MoveKeepsInv(s, id, Compensated(s.ops[id], failure));
    }
  }

  lemma {:induction false} ClaimAllAdds(claims: map<ClaimKey, Claim>, reservations: seq<ClaimKey>, claim: Claim)
    requires ClaimAll(claims, reservations, claim).Some?
    ensures var after := ClaimAll(claims, reservations, claim).value;
            && after.Keys == claims.Keys + (set k | k in reservations)
            && (forall k :: k in claims ==> after[k] == claims[k])
            && (forall k :: k in reservations ==> k !in claims && after[k] == claim)
    decreases reservations
  {
    if reservations != [] {
      ClaimAllAdds(claims[reservations[0] := claim], reservations[1..], claim);
      var after := ClaimAll(claims, reservations, claim).value;
      assert reservations == [reservations[0]] + reservations[1..];
      forall k | k in reservations ensures k !in claims && after[k] == claim {
        if k != reservations[0] {
          assert k in reservations[1..];
        }
      }
    }
  }

  /** A new operation joins: the shared facts about the operation table. */
  lemma JoinKeepsOps(s: State, s': State, id: Id, op: Op)
    requires Inv(s) && id !in s.ops && s'.ops == s.ops[id := op]
    requires OpValid(op) && !KeyUsed(s, op.owner, op.key)
    ensures KeysUnique(s') && OpsValid(s')
    ensures forall other :: other in s.ops ==> other != id && s'.ops[other] == s.ops[other]
  {
    hide PhasesAgree, ClaimsHeld, SecretsHeld, ScopesOpen, WorkHidden, OwnersAgree, AccountsClosed, OpValid;
    forall other | other in s.ops ensures !(s.ops[other].owner == op.owner && s.ops[other].key == op.key) {
      assert !HasKey(s, other, op.owner, op.key);
    }
  }

  lemma ReserveKeepsInv(s: State, input: CreateInput, id: Id)
    requires Inv(s) && id !in s.ops && WellScoped(input) && FreshEntity(s, input)
    ensures Inv(Committed'(ReserveBatch(s, input, id), s))
  {
    var batch := ReserveBatch(s, input, id);
    if batch.Committed? && GuardHolds(s, input) {
      var s' := batch.state;
      JoinKeepsOps(s, s', id, NewCreation(input));
      ReserveKeepsHolders(s, input, id);
      ReserveKeepsRows(s, input, id);
      hide KeysUnique, OpsValid, PhasesAgree, ClaimsHeld, SecretsHeld, ScopesOpen, WorkHidden, OwnersAgree;
      forall other | other in s'.ops && DeletingAccount(s', other) ensures AccountClosed(s', s'.ops[other].owner) {
        ReserveKeepsAccountClosed(s, input, id, other);
      }
    }
  }

  lemma ReserveKeepsHolders(s: State, input: CreateInput, id: Id)
    requires Inv(s) && id !in s.ops && GuardHolds(s, input) && ReserveBatch(s, input, id).Committed?
    ensures var s' := ReserveBatch(s, input, id).state; PhasesAgree(s') && ClaimsHeld(s') && SecretsHeld(s')
  {
    hide KeysUnique, OpsValid, ScopesOpen, WorkHidden, OwnersAgree, AccountsClosed;
    var s' := ReserveBatch(s, input, id).state;
    ClaimAllAdds(s.claims, input.reservations, Claim(input.entity, input.owner, Some(id)));
    forall other | other in s'.ops && Holding(s'.ops[other]) ensures Agrees(s', other) {
      assert other in s.ops ==> Agrees(s, other);
    }
    forall k | k in s'.claims ensures ClaimHeld(s', k) {
      assert k in s.claims ==> ClaimHeld(s, k);
    }
  }

  lemma ReserveKeepsRows(s: State, input: CreateInput, id: Id)
    requires Inv(s) && id !in s.ops && WellScoped(input) && FreshEntity(s, input) && GuardHolds(s, input)
    requires ReserveBatch(s, input, id).Committed?
    ensures var s' := ReserveBatch(s, input, id).state; ScopesOpen(s') && WorkHidden(s') && OwnersAgree(s')
  {
    hide KeysUnique, OpsValid, PhasesAgree, ClaimsHeld, SecretsHeld, AccountsClosed;
    var s' := ReserveBatch(s, input, id).state;
    ClaimAllAdds(s.claims, input.reservations, Claim(input.entity, input.owner, Some(id)));
    assert forall key :: RowActive(s', key) == RowActive(s, key);
  }

  /** No reservation can reach an account whose deletion is live, nor its worlds. */
  lemma ReserveKeepsAccountClosed(s: State, input: CreateInput, id: Id, deletion: Id)
    requires Inv(s) && id !in s.ops && WellScoped(input) && GuardHolds(s, input)
    requires ReserveBatch(s, input, id).Committed? && DeletingAccount(s, deletion)
    ensures AccountClosed(ReserveBatch(s, input, id).state, s.ops[deletion].owner)
  {
    hide KeysUnique, OpsValid, ClaimsHeld, SecretsHeld, ScopesOpen;
    var s' := ReserveBatch(s, input, id).state;
    var account := s.ops[deletion].owner;
    assert Agrees(s, deletion) && !RowActive(s, EntityKey(Account, account));
    assert input.owner != account;
    ClaimAllAdds(s.claims, input.reservations, Claim(input.entity, input.owner, Some(id)));
    assert AccountClosed(s, account);
    forall k | k in s'.claims && InWorldOf(s', k, account) ensures s'.claims[k].owner == account {
      assert k in s.claims && InWorldOf(s, k, account);
    }
  }

  lemma BeginDeleteKeepsInv(s: State, input: DeleteInput, id: Id)
    requires Inv(s) && id !in s.ops
    requires input.entity in s.rows ==> s.rows[input.entity].owner == input.owner
    requires input.entity.kind == Account ==> input.owner == input.entity.id
    ensures Inv(Committed'(DeleteBatch(s, input, id), s))
  {
    var batch := DeleteBatch(s, input, id);
    if batch.Committed? && DeleteGuard(s, input) {
      var s' := batch.state;
      JoinKeepsOps(s, s', id, NewDeletion(input));
      BeginDeleteKeepsHolders(s, input, id);
      BeginDeleteKeepsRows(s, input, id);
      BeginDeleteKeepsAccounts(s, input, id);
    }
  }

  predicate Begins(s: State, input: DeleteInput, id: Id) {
    && id !in s.ops && DeleteGuard(s, input) && DeleteBatch(s, input, id).Committed?
    && s.rows[input.entity].owner == input.owner
    && (input.entity.kind == Account ==> input.owner == input.entity.id)
  }

  lemma BeginDeleteKeepsHolders(s: State, input: DeleteInput, id: Id)
    requires Inv(s) && Begins(s, input, id)
    ensures var s' := DeleteBatch(s, input, id).state; PhasesAgree(s') && ClaimsHeld(s') && SecretsHeld(s')
  {
    hide KeysUnique, OpsValid, ScopesOpen, AccountsClosed;
    var s' := DeleteBatch(s, input, id).state;
    forall other | other in s'.ops && Holding(s'.ops[other]) ensures Agrees(s', other) {
      assert other in s.ops ==> Agrees(s, other) && s.ops[other].entity != input.entity;
    }
    forall k | k in s'.claims ensures ClaimHeld(s', k) {
      assert ClaimHeld(s, k);
    }
  }

  lemma BeginDeleteKeepsRows(s: State, input: DeleteInput, id: Id)
    requires Inv(s) && Begins(s, input, id)
    ensures var s' := DeleteBatch(s, input, id).state; ScopesOpen(s') && WorkHidden(s') && OwnersAgree(s')
  {
    hide KeysUnique, OpsValid, PhasesAgree, ClaimsHeld, SecretsHeld, AccountsClosed;
    var s' := DeleteBatch(s, input, id).state;
    assert forall key :: key != input.entity ==> RowActive(s', key) == RowActive(s, key);
    forall k | k in s'.claims && k.kind == BotHandle ensures RowActive(s', EntityKey(World, k.scope)) {
      assert RowActive(s, EntityKey(World, k.scope));
    }
  }

  lemma BeginDeleteKeepsAccounts(s: State, input: DeleteInput, id: Id)
    requires Inv(s) && Begins(s, input, id)
    ensures AccountsClosed(DeleteBatch(s, input, id).state)
  {
    hide KeysUnique, OpsValid, PhasesAgree, ClaimsHeld, SecretsHeld, ScopesOpen, WorkHidden;
    var s' := DeleteBatch(s, input, id).state;
    forall other | other in s'.ops && DeletingAccount(s', other) ensures AccountClosed(s', s'.ops[other].owner) {
      var account := s'.ops[other].owner;
      if other != id {
        assert DeletingAccount(s, other) && AccountClosed(s, account);
      }
      forall k | k in s'.claims && InWorldOf(s', k, account) ensures s'.claims[k].owner == account {
        assert InWorldOf(s, k, account);
      }
    }
  }

  // ---------- Finishing steps ----------

  /** Operations only finish or disappear, claims and rows only go or keep their owners. */
  predicate Shrinks(s: State, s': State) {
    && s'.ops.Keys <= s.ops.Keys
    && (forall id :: id in s'.ops ==> SameIdentity(s'.ops[id], s.ops[id]) && (Holding(s'.ops[id]) ==> Holding(s.ops[id])))
    && s'.claims.Keys <= s.claims.Keys
    && (forall k :: k in s'.claims ==> s'.claims[k].owner == s.claims[k].owner && s'.claims[k].entity == s.claims[k].entity
                                       && s'.claims[k].holder in {s.claims[k].holder, None})
    && s'.rows.Keys <= s.rows.Keys
    && (forall key :: key in s'.rows ==> s'.rows[key].owner == s.rows[key].owner)
    && s'.entities.Keys <= s.entities.Keys
    && (forall key :: key in s'.entities ==> s'.entities[key].owner == s.entities[key].owner)
    && s'.secrets.Keys <= s.secrets.Keys
  }

  lemma ShrinkKeepsAccounts(s: State, s': State)
    requires Inv(s) && Shrinks(s, s') && OpsValid(s')
    ensures AccountsClosed(s') && OwnersAgree(s') && KeysUnique(s')
  {
    hide ClaimsHeld, SecretsHeld, PhasesAgree, ScopesOpen, WorkHidden;
    forall id | id in s'.ops && DeletingAccount(s', id) ensures AccountClosed(s', s'.ops[id].owner) {
      assert OpValid(s.ops[id]) && DeletingAccount(s, id);
      var account := s.ops[id].owner;
      assert AccountClosed(s, account);
      forall k | k in s'.claims && InWorldOf(s', k, account) ensures s'.claims[k].owner == account {
        assert InWorldOf(s, k, account);
      }
    }
  }

  /** What finishing one operation must get right besides shrinking. */
  ghost predicate Finishes(s: State, s': State, id: Id)
    requires id in s.ops
  {
    var key := s.ops[id].entity;
    && Shrinks(s, s')
    && id in s'.ops && s'.ops == s.ops[id := s'.ops[id]] && OpValid(s'.ops[id]) && !Holding(s'.ops[id])
    && (forall other :: other in s.entities && other != key ==> other in s'.entities && s'.entities[other] == s.entities[other])
    && (forall k :: k in s'.claims ==> s'.claims[k].holder != Some(id))
    && id !in s'.secrets
    && RowsGrow(s, s', key)
  }

  /** At most the one row becomes visible, and none stops being visible. */
  ghost predicate RowsGrow(s: State, s': State, key: EntityKey) {
    && (forall other :: RowActive(s, other) ==> RowActive(s', other))
    && (forall other :: other != key ==> RowActive(s', other) == RowActive(s, other))
  }

  lemma RowsGrowCases(s: State, s': State, key: EntityKey)
    requires s'.rows in {s.rows, RowSet(s.rows, key, Visible), HiddenRowDropped(s.rows, key)}
    ensures RowsGrow(s, s', key)
  {
  }

  lemma FinishKeepsInv(s: State, s': State, id: Id)
    requires Inv(s) && id in s.ops && Holding(s.ops[id]) && Finishes(s, s', id)
    ensures Inv(s')
  {
    assert OpsValid(s');
    ShrinkKeepsAccounts(s, s');
    FinishKeepsPhases(s, s', id);
    FinishKeepsHolders(s, s', id);
    FinishKeepsRows(s, s', id);
  }

  lemma FinishKeepsPhases(s: State, s': State, id: Id)
    requires Inv(s) && id in s.ops && Holding(s.ops[id]) && Finishes(s, s', id)
    ensures PhasesAgree(s')
  {
    hide KeysUnique, OpsValid, OpValid, ClaimsHeld, SecretsHeld, ScopesOpen, WorkHidden, OwnersAgree, AccountsClosed, RowsGrow, Shrinks;
    assert Agrees(s, id);
    forall other | other in s'.ops && Holding(s'.ops[other]) ensures Agrees(s', other) {
      assert Agrees(s, other) && other != id;
    }
  }

  lemma FinishKeepsHolders(s: State, s': State, id: Id)
    requires Inv(s) && id in s.ops && Holding(s.ops[id]) && Finishes(s, s', id)
    ensures ClaimsHeld(s') && SecretsHeld(s')
  {
    hide KeysUnique, OpsValid, OpValid, PhasesAgree, ScopesOpen, WorkHidden, OwnersAgree, AccountsClosed, RowsGrow;
    forall k | k in s'.claims ensures ClaimHeld(s', k) {
      assert ClaimHeld(s, k);
    }
  }

  lemma FinishKeepsRows(s: State, s': State, id: Id)
    requires Inv(s) && id in s.ops && Holding(s.ops[id]) && Finishes(s, s', id)
    ensures ScopesOpen(s') && WorkHidden(s')
  {
    hide KeysUnique, OpsValid, OpValid, ClaimsHeld, SecretsHeld, OwnersAgree, AccountsClosed;
    forall other | other in s'.ops && Holding(s'.ops[other]) ensures !RowActive(s', s'.ops[other].entity) {
      assert Agrees(s, other) && Agrees(s, id);
    }
  }

  /** A deletion holds no pending claim and no secret. */
  lemma DeletionHoldsNothing(s: State, id: Id)
    requires Inv(s) && id in s.ops && s.ops[id].action == Delete
    ensures (forall k :: k in s.claims ==> s.claims[k].holder != Some(id)) && id !in s.secrets
  {
    forall k | k in s.claims ensures s.claims[k].holder != Some(id) {
      assert ClaimHeld(s, k);
    }
  }

  lemma ActivateShrinks(s: State, id: Id, now: int)
    requires id in s.ops && OpValid(s.ops[id]) && Agrees(s, id) && Enabled(s, DoActivate(id, now))
    ensures Shrinks(s, Activate(s, id, now))
  {
    hide OpValid, Agrees;
  }

  lemma ActivateFinishes(s: State, id: Id, now: int)
    requires id in s.ops && OpValid(s.ops[id]) && Agrees(s, id) && Enabled(s, DoActivate(id, now))
    ensures Finishes(s, Activate(s, id, now), id)
  {
    ActivateShrinks(s, id, now);
    RowsGrowCases(s, Activate(s, id, now), s.ops[id].entity);
    hide Shrinks, RowsGrow, RowSet, HiddenRowDropped;
  }

  lemma ActivateKeepsInv(s: State, id: Id, now: int)
    requires Inv(s) && Enabled(s, DoActivate(id, now))
    ensures Inv(Activate(s, id, now))
  {
    RowFacts(s, id);
    hide Activate, Inv, Finishes;
    ActivateFinishes(s, id, now);
    FinishKeepsInv(s, Activate(s, id, now), id);
  }

  lemma AbortShrinks(s: State, id: Id, failure: Failed, now: int)
    requires id in s.ops && OpValid(s.ops[id]) && Agrees(s, id) && Enabled(s, DoAbortDeletion(id, failure, now))
    ensures Shrinks(s, AbortDeletion(s, id, failure, now))
  {
    hide OpValid, Agrees;
  }

  lemma AbortFinishes(s: State, id: Id, failure: Failed, now: int)
    requires id in s.ops && OpValid(s.ops[id]) && Agrees(s, id) && Enabled(s, DoAbortDeletion(id, failure, now))
    requires (forall k :: k in s.claims ==> s.claims[k].holder != Some(id)) && id !in s.secrets
    ensures Finishes(s, AbortDeletion(s, id, failure, now), id)
  {
    AbortShrinks(s, id, failure, now);
    RowsGrowCases(s, AbortDeletion(s, id, failure, now), s.ops[id].entity);
    hide Shrinks, RowsGrow, RowSet, HiddenRowDropped;
  }

  lemma AbortKeepsInv(s: State, id: Id, failure: Failed, now: int)
    requires Inv(s) && Enabled(s, DoAbortDeletion(id, failure, now))
    ensures Inv(AbortDeletion(s, id, failure, now))
  {
    RowFacts(s, id);
    DeletionHoldsNothing(s, id);
    hide AbortDeletion, Inv, Finishes;
    AbortFinishes(s, id, failure, now);
    FinishKeepsInv(s, AbortDeletion(s, id, failure, now), id);
  }

  lemma FinishDeletionShrinks(s: State, id: Id, result: Option<string>, now: int)
    requires id in s.ops && OpValid(s.ops[id]) && Agrees(s, id) && Enabled(s, DoFinishDeletion(id, result, now))
    ensures Shrinks(s, FinishDeletion(s, id, result, now))
  {
    hide OpValid, Agrees;
  }

  lemma FinishDeletionFinishes(s: State, id: Id, result: Option<string>, now: int)
    requires id in s.ops && OpValid(s.ops[id]) && Agrees(s, id) && Enabled(s, DoFinishDeletion(id, result, now))
    requires (forall k :: k in s.claims ==> s.claims[k].holder != Some(id)) && id !in s.secrets
    ensures Finishes(s, FinishDeletion(s, id, result, now), id)
  {
    FinishDeletionShrinks(s, id, result, now);
    RowsGrowCases(s, FinishDeletion(s, id, result, now), s.ops[id].entity);
    hide Shrinks, RowsGrow, RowSet, HiddenRowDropped;
  }

  lemma FinishDeletionKeepsInv(s: State, id: Id, result: Option<string>, now: int)
    requires Inv(s) && Enabled(s, DoFinishDeletion(id, result, now))
    ensures Inv(FinishDeletion(s, id, result, now))
  {
    RowFacts(s, id);
    DeletionHoldsNothing(s, id);
    hide FinishDeletion, Inv, Finishes;
    FinishDeletionFinishes(s, id, result, now);
    FinishKeepsInv(s, FinishDeletion(s, id, result, now), id);
  }

  lemma FinishCompensationShrinks(s: State, id: Id, cleanup: bool, now: int)
    requires id in s.ops && OpValid(s.ops[id]) && Agrees(s, id) && Enabled(s, DoFinishCompensation(id, cleanup, now))
    ensures Shrinks(s, FinishCompensation(s, id, cleanup, now))
  {
    hide OpValid, Agrees;
  }

  lemma FinishCompensationFinishes(s: State, id: Id, cleanup: bool, now: int)
    requires id in s.ops && OpValid(s.ops[id]) && Agrees(s, id) && Enabled(s, DoFinishCompensation(id, cleanup, now))
    ensures Finishes(s, FinishCompensation(s, id, cleanup, now), id)
  {
    FinishCompensationShrinks(s, id, cleanup, now);
    RowsGrowCases(s, FinishCompensation(s, id, cleanup, now), s.ops[id].entity);
    hide Shrinks, RowsGrow, RowSet, HiddenRowDropped;
  }

  lemma FinishCompensationKeepsInv(s: State, id: Id, cleanup: bool, now: int)
    requires Inv(s) && Enabled(s, DoFinishCompensation(id, cleanup, now))
    ensures Inv(FinishCompensation(s, id, cleanup, now))
  {
    RowFacts(s, id);
    hide FinishCompensation, Inv, Finishes;
    FinishCompensationFinishes(s, id, cleanup, now);
    FinishKeepsInv(s, FinishCompensation(s, id, cleanup, now), id);
  }

  /** Retention cleanup removes finished operation rows only, and its cascades find nothing. */
  lemma CleanupCascadesNothing(s: State, ids: set<Id>, now: int)
    requires Inv(s) && Enabled(s, DoCleanup(ids, now))
    ensures Cleanup(s, ids) == s.(ops := s.ops - ids)
    ensures forall id :: id in ids ==> !Holding(s.ops[id])
  {
    forall id | id in ids ensures !Holding(s.ops[id]) && id !in s.secrets {
      assert OpValid(s.ops[id]);
    }
    forall k | k in s.claims ensures !(s.claims[k].holder.Some? && s.claims[k].holder.value in ids) {
      assert ClaimHeld(s, k);
    }
    assert s.secrets - ids == s.secrets;
  }

  lemma CleanupKeepsInv(s: State, ids: set<Id>, now: int)
    requires Inv(s) && Enabled(s, DoCleanup(ids, now))
    ensures Inv(Cleanup(s, ids))
  {
    CleanupCascadesNothing(s, ids, now);
    SubsetKeepsInv(s, Cleanup(s, ids));
    hide Inv;
  }

  /** Rows that change without any visibility change, and finished operations that go. */
  lemma SubsetKeepsInv(s: State, s': State)
    requires Inv(s) && Shrinks(s, s')
    requires s'.claims == s.claims && s'.secrets == s.secrets && s'.entities == s.entities
    requires forall id :: id in s.ops && Holding(s.ops[id]) ==> id in s'.ops
    requires forall id :: id in s'.ops ==> s'.ops[id] == s.ops[id]
    requires forall key :: RowActive(s', key) == RowActive(s, key)
    ensures Inv(s')
  {
    assert OpsValid(s');
    ShrinkKeepsAccounts(s, s');
    hide KeysUnique, OpsValid, OpValid, OwnersAgree, AccountsClosed, Shrinks, RowActive;
    forall other | other in s'.ops && Holding(s'.ops[other]) ensures Agrees(s', other) {
      assert Agrees(s, other);
    }
    forall k | k in s'.claims ensures ClaimHeld(s', k) {
      assert ClaimHeld(s, k);
    }
  }

  lemma ProjectKeepsInv(s: State, id: Id)
    requires Inv(s) && Enabled(s, DoProject(id))
    ensures Inv(Project(s, id))
  {
    var s' := Project(s, id);
    var key := s.ops[id].entity;
    RowFacts(s, id);
    ProjectKeepsAccounts(s, id);
    hide AccountsClosed, OpValid;
    assert forall other :: RowActive(s', other) == RowActive(s, other);
    forall other | other in s'.ops && Holding(s'.ops[other]) ensures Agrees(s', other) {
      assert Agrees(s, other);
    }
    forall k | k in s'.claims ensures ClaimHeld(s', k) {
      assert ClaimHeld(s, k);
    }
  }

  /** A projected world carries no claim yet: claims are scoped to visible worlds only. */
  lemma ProjectKeepsAccounts(s: State, id: Id)
    requires Inv(s) && Enabled(s, DoProject(id))
    ensures AccountsClosed(Project(s, id))
  {
    hide KeysUnique, OpsValid, PhasesAgree, ClaimsHeld, SecretsHeld, WorkHidden, OwnersAgree;
    var s' := Project(s, id);
    forall other | other in s'.ops && DeletingAccount(s', other) ensures AccountClosed(s', s'.ops[other].owner) {
      assert DeletingAccount(s, other);
      var account := s.ops[other].owner;
      assert AccountClosed(s, account);
      forall k | k in s'.claims && InWorldOf(s', k, account) ensures s'.claims[k].owner == account {
        assert RowActive(s, EntityKey(World, k.scope));
        assert InWorldOf(s, k, account);
      }
    }
  }

  lemma TombstoneKeepsInv(s: State, id: Id)
    requires Inv(s) && Enabled(s, DoTombstone(id))
    ensures Inv(Tombstone(s, id))
  {
    hide KeysUnique, OpsValid, PhasesAgree, ClaimsHeld, SecretsHeld, ScopesOpen, OwnersAgree, AccountsClosed;
    assert !RowActive(s, s.ops[id].entity);
    SubsetKeepsInv(s, Tombstone(s, id));
    hide Inv;
  }

  /** Main theorem: every enabled step, of any owner, keeps the invariant. */
  lemma StepKeepsInv(s: State, step: Step)
    requires Inv(s) && Enabled(s, step)
    ensures Inv(Apply(s, step))
  {
    hide Inv, ReadEarlier;
    match step
    case DoReserve(input, id) => ReserveKeepsInv(s, input, id);
    case DoBeginDelete(input, id) => BeginDeleteKeepsInv(s, input, id);
    case DoMaterialize(id, seen) => MaterializeKeepsInv(s, id, seen);
    case DoActivate(id, now) => ActivateKeepsInv(s, id, now);
    case DoFinishDeletion(id, result, now) => FinishDeletionKeepsInv(s, id, result, now);
    case DoAbortDeletion(id, failure, now) => AbortKeepsInv(s, id, failure, now);
    case DoRetry(id, seen, failure, now) => RetryKeepsInv(s, id, seen, failure, now);
    case DoKvFailure(id, seen, failure, now) => KvFailureKeepsInv(s, id, seen, failure, now);
    case DoResolve(id, seen, resume, revision, now) => ResolveKeepsInv(s, id, seen, resume, revision, now);
    case DoAccountProgress(id, seen, counts, code, now) => AccountProgressKeepsInv(s, id, seen, counts, code, now);
    case DoBeginCompensation(id, seen, failure) => BeginCompensationKeepsInv(s, id, seen, failure);
    case DoFinishCompensation(id, cleanup, now) => FinishCompensationKeepsInv(s, id, cleanup, now);
    case DoCleanup(ids, now) => CleanupKeepsInv(s, ids, now);
    case DoProject(id) => ProjectKeepsInv(s, id);
    case DoTombstone(id) => TombstoneKeepsInv(s, id);
  }

  // ---------- Runs ----------

  /** A run: states linked by enabled steps. */
  ghost predicate IsRun(states: seq<State>, steps: seq<Step>) {
    && |states| == |steps| + 1
    && forall i :: 0 <= i < |steps| ==> Enabled(states[i], steps[i]) && states[i + 1] == Apply(states[i], steps[i])
  }

  /** While a world deletion is live no participant handle is claimed in that world; while
      an account deletion is live the account is closed. */
  predicate DeletionSafe(s: State) {
    && (forall id :: id in s.ops && Live(s.ops[id]) && s.ops[id].action == Delete && s.ops[id].entity.kind == World
          ==> WorldUnclaimed(s, s.ops[id].entity.id))
    && AccountsClosed(s)
  }

  lemma InvIsSafe(s: State)
    requires Inv(s)
    ensures DeletionSafe(s)
  {
    forall id | id in s.ops && Live(s.ops[id]) && s.ops[id].action == Delete && s.ops[id].entity.kind == World
      ensures WorldUnclaimed(s, s.ops[id].entity.id)
    {
      assert !RowActive(s, s.ops[id].entity);
    }
  }

  lemma {:induction false} RunsAreSafe(states: seq<State>, steps: seq<Step>, i: nat)
    requires IsRun(states, steps) && Inv(states[0]) && i < |states|
    ensures Inv(states[i]) && DeletionSafe(states[i])
  {
    hide Inv, Enabled, Apply, DeletionSafe;
    if i > 0 {
      RunsAreSafe(states, steps, i - 1);
      StepKeepsInv(states[i - 1], steps[i - 1]);
    }
    InvIsSafe(states[i]);
  }
}
