/** The lifecycle as the program performs it: tables updated in place, statement by
    statement inside each batch. Every method keeps the invariant and is proved to have
    the effect of its step. */
module LifecycleDatabase {
  import opened Outcomes
  import opened Lifecycle
  import opened LifecycleSafety
  import opened LifecycleHistory
  import opened Retention

  class Database {
    var ops: map<Id, Op>
    var entities: map<EntityKey, Entity>
    var claims: map<ClaimKey, Claim>
    var secrets: map<Id, string>
    var rows: map<EntityKey, Row>

    ghost function View(): State
      reads this
    {
      State(ops, entities, claims, secrets, rows)
    }

    constructor ()
      ensures View() == State(map[], map[], map[], map[], map[]) && Inv(View())
    {
      ops, entities, claims, secrets, rows := map[], map[], map[], map[], map[];
    }

    method FindByKey(owner: Id, key: string) returns (found: Option<Id>)
      requires Inv(View())
      ensures found == Existing(View(), owner, key)
    {
      var matching := set id | id in ops && ops[id].owner == owner && ops[id].key == key;
      if matching == {} {
        assert forall id :: id in ops ==> (HasKey(View(), id, owner, key) <==> id in matching);
        found := None;
      } else {
        var id :| id in matching;
        ExistingIsUnique(View(), owner, key, id);
        found := Some(id);
      }
    }

    /** reserveCreateLifecycleInternal: lookup, batch, and the answer after it. */
    method ReserveCreation(input: CreateInput, id: Id) returns (reply: Reply)
      requires Inv(View()) && Enabled(View(), DoReserve(input, id))
      modifies this
      ensures (reply, View()) == Reserve(old(View()), old(View()), input, id)
      ensures View() == old(View()) || View() == Apply(old(View()), DoReserve(input, id))
      ensures Inv(View())
    {
      hide Inv, Enabled;
      StepKeepsInv(View(), DoReserve(input, id));
      ReserveIsFresh(View(), input, id);
      var existing := FindByKey(input.owner, input.key);
      if existing.Some? {
        return Match(ops[existing.value], existing.value, input.hash, Create);
      }
      var open := GuardOpen(input);
      if !open {
        return NotFound;
      }
      if input.entity in entities {
        return Conflict;
      }
      var inserted := claims;
      ghost var claim := Claim(input.entity, input.owner, Some(id));
      for i := 0 to |input.reservations|
        invariant ClaimAll(claims, input.reservations, claim) == ClaimAll(inserted, input.reservations[i..], claim)
      {
        if input.reservations[i] in inserted {
          return Conflict;
        }
        inserted := inserted[input.reservations[i] := Claim(input.entity, input.owner, Some(id))];
      }
      claims := inserted;
      ops := ops[id := NewCreation(input)];
      entities := entities[input.entity := Entity(input.owner, Pending, 1, id)];
      if input.secret.Some? {
        secrets := secrets[id := input.secret.value];
      }
      reply := Answer(id, true);
    }

    method IsActive(key: EntityKey) returns (active: bool)
      ensures active == RowActive(View(), key)
    {
      active := key in rows && rows[key].state == Visible && !rows[key].deleted;
    }

    method GuardOpen(input: CreateInput) returns (open: bool)
      ensures open == GuardHolds(View(), input)
    {
      if input.guard.NoGuard? {
        return true;
      }
      open := IsActive(EntityKey(Account, input.owner));
      if open && input.guard.ActiveBotWorld? {
        var world := EntityKey(World, input.guard.world);
        open := IsActive(world);
        if open {
          open := IsActive(EntityKey(Account, rows[world].owner));
        }
      }
    }

    /** beginDeleteLifecycleInternal with its three guards. */
    method BeginDeletion(input: DeleteInput, id: Id) returns (reply: Reply)
      requires Inv(View()) && Enabled(View(), DoBeginDelete(input, id))
      modifies this
      ensures (reply, View()) == BeginDelete(old(View()), old(View()), input, id)
      ensures View() == old(View()) || View() == Apply(old(View()), DoBeginDelete(input, id))
      ensures Inv(View())
      ensures reply == Answer(id, true) ==> input.entity in rows && rows[input.entity].state == BeingDeleted
    {
      StepKeepsInv(View(), DoBeginDelete(input, id));
      hide Inv;
      var existing := FindByKey(input.owner, input.key);
      if existing.Some? {
        return Match(ops[existing.value], existing.value, input.hash, Delete);
      }
      var active := IsActive(input.entity);
      if !active {
        return NotFound;
      }
      var blocked := DeletionBlocked(input);
      if blocked {
        return if input.entity.kind == Bot then NotFound else Conflict;
      }
      ops := ops[id := NewDeletion(input)];
      if input.entity !in entities {
        entities := entities[input.entity := Entity(input.owner, Deleting, 1, id)];
      } else if entities[input.entity].owner == input.owner {
        var e := entities[input.entity];
        entities := entities[input.entity := e.(phase := Deleting, revision := e.revision + 1, activeOp := id)];
      }
      rows := rows[input.entity := rows[input.entity].(state := BeingDeleted)];
      reply := Answer(id, true);
    }

    method DeletionBlocked(input: DeleteInput) returns (blocked: bool)
      requires RowActive(View(), input.entity)
      ensures blocked == !DeleteGuard(View(), input)
    {
      match input.entity.kind
      case Bot => blocked := false;
      case World =>
        blocked := exists k :: k in claims && k.kind == BotHandle && k.scope == input.entity.id;
      case Account =>
        var busy := exists id :: id in ops && ops[id].owner == input.owner && Holding(ops[id]);
        var foreign := exists k :: k in claims && k.kind == BotHandle && EntityKey(World, k.scope) in rows &&
                                   rows[EntityKey(World, k.scope)].owner == input.owner && claims[k].owner != input.owner;
        assert foreign <==> !NoForeignClaims(View(), input.owner) by {
          assert forall k :: k in claims ==>
            (InWorldOf(View(), k, input.owner) <==>
              k.kind == BotHandle && EntityKey(World, k.scope) in rows && rows[EntityKey(World, k.scope)].owner == input.owner);
        }
        blocked := busy || foreign;
    }

    /** UPDATE of the entity row while it names the operation. */
    method TouchEntity(key: EntityKey, id: Id, phase: Phase)
      modifies this`entities
      ensures entities == EntityMoved(old(entities), key, id, phase)
    {
      if key in entities && entities[key].activeOp == id {
        var e := entities[key];
        entities := entities[key := e.(phase := phase, revision := e.revision + 1)];
      }
    }

    method MarkMaterializing(id: Id, seen: Op)
      requires Inv(View()) && Enabled(View(), DoMaterialize(id, seen))
      modifies this
      ensures View() == Apply(old(View()), DoMaterialize(id, seen)) && Inv(View())
    {
      hide Inv, Enabled, Apply;
      StepKeepsInv(View(), DoMaterialize(id, seen));
      MaterializeStep(View(), id, seen);
      if seen.phase != Pending || id !in ops {
        return;
      }
      if ops[id].phase == Pending {
        ops := ops[id := ops[id].(phase := Materializing, revision := ops[id].revision + 1)];
      }
      if seen.entity in entities && entities[seen.entity].phase == Pending {
        TouchEntity(seen.entity, id, Materializing);
      }
    }

    /** activateLifecycleEntity; false is its error that no index row became visible. */
    method ActivateEntity(id: Id, now: int) returns (visible: bool)
      requires Inv(View()) && Enabled(View(), DoActivate(id, now))
      modifies this
      ensures View() == Apply(old(View()), DoActivate(id, now)) && Inv(View())
      ensures visible <==> old(ops[id].entity in rows && !rows[ops[id].entity].deleted)
      ensures visible <==> RowActive(View(), old(ops[id].entity))
    {
      StepKeepsInv(View(), DoActivate(id, now));
      hide Inv;
      var op := ops[id];
      claims := ActivateClaims(claims, id);
      visible := op.entity in rows && !rows[op.entity].deleted;
      if visible {
        rows := rows[op.entity := rows[op.entity].(state := Visible)];
      }
      if op.entity in entities && entities[op.entity].phase in {Pending, Materializing} {
        TouchEntity(op.entity, id, Active);
      }
      secrets := secrets - {id};
      ops := ops[id := Finished(op, Terminal, op.result, now)];
    }

    method FinalizeDeletion(id: Id, result: Option<string>, now: int)
      requires Inv(View()) && Enabled(View(), DoFinishDeletion(id, result, now))
      modifies this
      ensures View() == Apply(old(View()), DoFinishDeletion(id, result, now)) && Inv(View())
    {
      StepKeepsInv(View(), DoFinishDeletion(id, result, now));
      RowFacts(View(), id);
      hide Inv;
      var op := ops[id];
      claims := DropClaims(claims, op.entity);
      secrets := secrets - {id};
      if op.entity in entities && entities[op.entity].activeOp == id {
        entities := entities - {op.entity};
      }
      ops := ops[id := Finished(op, Terminal, result, now)];
    }

    method AbortLiveDeletion(id: Id, failure: Failed, now: int)
      requires Inv(View()) && Enabled(View(), DoAbortDeletion(id, failure, now))
      modifies this
      ensures View() == Apply(old(View()), DoAbortDeletion(id, failure, now)) && Inv(View())
    {
      StepKeepsInv(View(), DoAbortDeletion(id, failure, now));
      hide Inv;
      var op := ops[id];
      rows := RowSet(rows, op.entity, Visible);
      TouchEntity(op.entity, id, Active);
      ops := ops[id := Finished(op, TerminalFailed, op.result, now).(failure := Some(failure))];
    }

    method RecordRetryableFailure(id: Id, seen: Op, failure: Failed, now: int)
      requires Inv(View()) && Enabled(View(), DoRetry(id, seen, failure, now))
      modifies this
      ensures View() == Apply(old(View()), DoRetry(id, seen, failure, now)) && Inv(View())
    {
      StepKeepsInv(View(), DoRetry(id, seen, failure, now));
      hide Inv;
      if id in ops && Live(ops[id]) {
        ops := ops[id := Retried(ops[id], seen, failure, now)];
        TouchEntity(seen.entity, id, RetryPhase(seen));
      }
    }

    /** recordCreationKvFailure; false is its conflict: the row had moved on. */
    method RecordKvFailure(id: Id, seen: Op, failure: Failed, now: int) returns (recorded: bool)
      requires Inv(View()) && Enabled(View(), DoKvFailure(id, seen, failure, now))
      modifies this
      ensures View() == Apply(old(View()), DoKvFailure(id, seen, failure, now)) && Inv(View())
      ensures recorded ==> id in old(ops) && old(ops[id]) == seen && ops == old(ops)[id := KvFailed(seen, seen, failure, now)]
      ensures !recorded ==> ops == old(ops)
    {
      StepKeepsInv(View(), DoKvFailure(id, seen, failure, now));
      hide Inv;
      var exhausted := KvExhausted(seen, now);
      var phase := if exhausted then TerminalFailed else Materializing;
      recorded := id in ops && ops[id].revision == seen.revision && ops[id].phase in {Pending, Materializing};
      if recorded {
        ops := ops[id := KvFailed(ops[id], seen, failure, now)];
      }
      if id in ops && ops[id].revision == seen.revision + 1 && ops[id].phase == phase {
        TouchEntity(seen.entity, id, phase);
      }
    }

    method ResolveBlockedCreation(id: Id, seen: Op, resume: bool, revision: nat, now: int) returns (resolved: bool)
      requires Inv(View()) && Enabled(View(), DoResolve(id, seen, resume, revision, now))
      modifies this
      ensures View() == Apply(old(View()), DoResolve(id, seen, resume, revision, now)) && Inv(View())
      ensures resolved && resume ==> RowActive(old(View()), EntityKey(Account, seen.owner))
      ensures !resolved ==> ops == old(ops)
    {
      StepKeepsInv(View(), DoResolve(id, seen, resume, revision, now));
      hide Inv;
      var phase := if resume then Materializing else Compensating;
      var active := IsActive(EntityKey(Account, seen.owner));
      resolved := id in ops && ops[id].owner == seen.owner && ops[id].revision == revision && ops[id].kv == Blocked && (!resume || active);
      if resolved {
        ops := ops[id := Resolved(ops[id], resume, now)];
      }
      if id in ops && ops[id].revision == revision + 1 && ops[id].phase == phase {
        TouchEntity(seen.entity, id, phase);
      }
    }

    method RecordAccountProgress(id: Id, seen: Op, counts: bool, code: string, now: int)
      requires Inv(View()) && Enabled(View(), DoAccountProgress(id, seen, counts, code, now))
      modifies this
      ensures View() == Apply(old(View()), DoAccountProgress(id, seen, counts, code, now)) && Inv(View())
    {
      StepKeepsInv(View(), DoAccountProgress(id, seen, counts, code, now));
      hide Inv;
      if id in ops && Live(ops[id]) && ops[id].entity.kind == Account && ops[id].action == Delete {
        ops := ops[id := Progressed(ops[id], counts, code, now)];
        TouchEntity(seen.entity, id, Deleting);
      }
    }

    method StartCompensation(id: Id, seen: Op, failure: Failed)
      requires Inv(View()) && Enabled(View(), DoBeginCompensation(id, seen, failure))
      modifies this
      ensures View() == Apply(old(View()), DoBeginCompensation(id, seen, failure)) && Inv(View())
    {
      StepKeepsInv(View(), DoBeginCompensation(id, seen, failure));
      hide Inv;
      if seen.phase != TerminalFailed && id in ops && Live(ops[id]) {
        ops := ops[id := Compensated(ops[id], failure)];
        TouchEntity(seen.entity, id, Compensating);
      }
    }

    method FinalizeCompensation(id: Id, cleanup: bool, now: int)
      requires Inv(View()) && Enabled(View(), DoFinishCompensation(id, cleanup, now))
      modifies this
      ensures View() == Apply(old(View()), DoFinishCompensation(id, cleanup, now)) && Inv(View())
    {
      StepKeepsInv(View(), DoFinishCompensation(id, cleanup, now));
      hide Inv;
      var op := ops[id];
      if cleanup && op.entity in rows && rows[op.entity].state != Visible {
        rows := rows - {op.entity};
      }
      claims := ReleaseClaims(claims, id);
      secrets := secrets - {id};
      if op.entity in entities && entities[op.entity].activeOp == id {
        entities := entities - {op.entity};
      }
      ops := ops[id := Finished(op, TerminalFailed, op.result, now).(failure := op.failure)];
    }

    /** Terminal retention cleanup: at least one and at most 500 expired rows a call, the
        oldest first. A blocked creation and a live operation are never among them, and
        nothing else is lost with them. */
    method CleanupTerminal(now: int, limit: int) returns (removed: set<Id>)
      requires Inv(View())
      modifies this
      ensures Inv(View()) && OldestFirst(CleanupDates(old(ops)), removed, now, BoundedLimit(limit))
      ensures forall id :: id in removed ==>
                id in old(ops) && old(ops)[id].phase in {Terminal, TerminalFailed} && old(ops)[id].kv != Blocked &&
                old(ops)[id].cleanupAt.Some? && old(ops)[id].cleanupAt.value <= now
      ensures View() == old(View()).(ops := old(ops) - removed)
    {
      hide Inv, OldestFirst, CleanupDates;
      removed := ChooseOldest(CleanupDates(ops), now, BoundedLimit(limit));
      ghost var before := View();
      ChosenAreExpired(before, removed, now, BoundedLimit(limit));
      StepKeepsInv(before, DoCleanup(removed, now));
      CleanupCascadesNothing(before, removed, now);
      ops := ops - removed;
      assert View() == Cleanup(before, removed);
    }
  }

  /** The default is 100; any other limit is brought into 1 to 500. */
  function BoundedLimit(limit: int): nat {
    if limit < 1 then 1 else if limit > 500 then 500 else limit
  }

  /** When finished rows may go; a blocked creation has no such date. */
  function CleanupDates(ops: map<Id, Op>): map<Id, int> {
    map id | id in ops && ops[id].kv != Blocked && ops[id].cleanupAt.Some? :: ops[id].cleanupAt.value
  }

  lemma ChosenAreExpired(s: State, chosen: set<Id>, now: int, limit: nat)
    requires OldestFirst(CleanupDates(s.ops), chosen, now, limit)
    ensures Enabled(s, DoCleanup(chosen, now))
  {
  }

  lemma ReserveIsFresh(s: State, input: CreateInput, id: Id)
    requires Enabled(s, DoReserve(input, id))
    ensures id !in s.ops
  {
  }

  lemma MaterializeStep(s: State, id: Id, seen: Op)
    requires Enabled(s, DoMaterialize(id, seen))
    ensures Apply(s, DoMaterialize(id, seen)) == Materialize(s, id, seen)
    ensures id in s.ops ==> s.ops[id].entity == seen.entity
  {
  }
}
