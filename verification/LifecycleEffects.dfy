/** What each lifecycle batch does for its callers: what readers then see, what is claimed,
    what a repeat of the request gets, and which pairs of batches undo each other. */
module LifecycleEffects {
  import opened Outcomes
  import opened Lifecycle
  import opened LifecycleSafety
  import opened LifecycleHistory

  // ---------- Words for the tables ----------

  /** Readers find the entity. */
  predicate Seen(s: State, key: EntityKey) {
    key in s.rows && !s.rows[key].deleted && s.rows[key].state == Visible
  }

  /** The row says it, unless it is deleted or missing; every other row stays. */
  predicate RowBecomes(s: State, s': State, key: EntityKey, state: Visibility) {
    && s'.rows.Keys == s.rows.Keys
    && (forall other :: other in s.rows && other != key ==> s'.rows[other] == s.rows[other])
    && (key in s.rows ==> s'.rows[key].owner == s.rows[key].owner && s'.rows[key].deleted == s.rows[key].deleted)
    && (key in s.rows ==> s'.rows[key].state == if s.rows[key].deleted then s.rows[key].state else state)
  }

  /** The entity row of the operation is in this phase, one revision on; no other changes. */
  predicate EntityBecomes(s: State, s': State, id: Id, phase: Phase)
    requires id in s.ops
  {
    var key := s.ops[id].entity;
    && key in s.entities && s'.entities.Keys == s.entities.Keys
    && (forall other :: other in s.entities && other != key ==> s'.entities[other] == s.entities[other])
    && s'.entities[key] == Entity(s.entities[key].owner, phase, s.entities[key].revision + 1, id)
  }

  /** Only this operation row changes, and it is the same operation one revision on. */
  predicate OpMoves(s: State, s': State, id: Id) {
    && id in s.ops && s'.ops.Keys == s.ops.Keys
    && (forall other :: other in s.ops && other != id ==> s'.ops[other] == s.ops[other])
    && SameIdentity(s'.ops[id], s.ops[id]) && s'.ops[id].revision == s.ops[id].revision + 1
  }

  /** What every finished operation keeps: no request, and thirty days until it may go. */
  predicate Closed(op: Op, op': Op, phase: Phase, now: int) {
    && op'.phase == phase && op'.request == None && op'.nextRetry == None && op'.cleanupAt == Some(now + 2_592_000_000)
    && op'.retries == op.retries && op'.kv == op.kv && op'.kvCount == op.kvCount && op'.kvDeadline == op.kvDeadline
  }

  predicate OthersStay(s: State, s': State) {
    s'.claims == s.claims && s'.secrets == s.secrets && s'.rows == s.rows
  }

  // ---------- Creation ----------

  /** The condition under which the whole reservation batch inserts. */
  predicate Open(s: State, input: CreateInput) {
    && (!input.guard.NoGuard? ==> Seen(s, EntityKey(Account, input.owner)))
    && (input.guard.ActiveBotWorld? ==>
         var world := EntityKey(World, input.guard.world);
         Seen(s, world) && Seen(s, EntityKey(Account, s.rows[world].owner)))
  }

  /** No unique key is in the way. */
  predicate Free(s: State, input: CreateInput) {
    && (forall id :: id in s.ops ==> s.ops[id].owner != input.owner || s.ops[id].key != input.key)
    && input.entity !in s.entities
    && (forall k :: k in input.reservations ==> k !in s.claims)
    && Distinct(input.reservations)
  }

  predicate Distinct(keys: seq<ClaimKey>) {
    forall i, j :: 0 <= i < j < |keys| ==> keys[i] != keys[j]
  }

  lemma DistinctFront(keys: seq<ClaimKey>)
    requires keys != []
    ensures Distinct(keys) <==> keys[0] !in keys[1..] && Distinct(keys[1..])
  {
    var rest := keys[1..];
    assert forall j :: 0 < j < |keys| ==> keys[j] == rest[j - 1];
    assert forall j :: 0 <= j < |rest| ==> rest[j] == keys[j + 1];
  }

  lemma {:induction false} ClaimAllSucceeds(claims: map<ClaimKey, Claim>, reservations: seq<ClaimKey>, claim: Claim)
    ensures ClaimAll(claims, reservations, claim).Some? <==> (forall k :: k in reservations ==> k !in claims) && Distinct(reservations)
    decreases reservations
  {
    hide Distinct;
    if reservations != [] {
      var first, rest := reservations[0], reservations[1..];
      ClaimAllSucceeds(claims[first := claim], rest, claim);
      assert reservations == [first] + rest;
      DistinctFront(reservations);
    } else {
      assert Distinct(reservations) by {
        NoneIsDistinct();
      }
    }
  }

  lemma NoneIsDistinct()
    ensures Distinct([])
  {
  }

  predicate Reserved(s: State, s': State, input: CreateInput, id: Id) {
    && s'.ops.Keys == s.ops.Keys + {id}
    && (forall other :: other in s.ops ==> s'.ops[other] == s.ops[other])
    && s'.ops[id].owner == input.owner && s'.ops[id].key == input.key && s'.ops[id].hash == input.hash
    && s'.ops[id].request == Some(input.request) && s'.ops[id].entity == input.entity
    && s'.ops[id].action == Create && s'.ops[id].phase == Pending && s'.ops[id].retries == 0
    && s'.ops[id].kv == Calm && s'.ops[id].kvCount == 0
    && s'.entities == s.entities[input.entity := Entity(input.owner, Pending, 1, id)]
    && s'.claims.Keys == s.claims.Keys + (set k | k in input.reservations)
    && (forall k :: k in s.claims ==> s'.claims[k] == s.claims[k])
    && (forall k :: k in input.reservations ==> s'.claims[k] == Claim(input.entity, input.owner, Some(id)))
    && s'.secrets == (if input.secret.Some? then s.secrets[id := input.secret.value] else s.secrets)
    && s'.rows == s.rows
  }

  /** All or nothing, and exactly when: closed guards insert nothing, a taken key refuses the
      batch, and otherwise operation, entity, claims and secret appear together. */
  lemma ReservationIsExact(s: State, input: CreateInput, id: Id)
    requires id !in s.ops
    ensures var batch := ReserveBatch(s, input, id);
            && (batch.UniqueViolation? <==> Open(s, input) && !Free(s, input))
            && (batch.Committed? ==> if Open(s, input) then Reserved(s, batch.state, input, id) else batch.state == s)
  {
    ClaimAllSucceeds(s.claims, input.reservations, Claim(input.entity, input.owner, Some(id)));
    if ReserveBatch(s, input, id).Committed? && Open(s, input) {
      ClaimAllAdds(s.claims, input.reservations, Claim(input.entity, input.owner, Some(id)));
    }
    assert KeyUsed(s, input.owner, input.key) <==> exists other :: other in s.ops && s.ops[other].owner == input.owner && s.ops[other].key == input.key by {
      if exists other :: other in s.ops && s.ops[other].owner == input.owner && s.ops[other].key == input.key {
        var other :| other in s.ops && s.ops[other].owner == input.owner && s.ops[other].key == input.key;
        assert HasKey(s, other, input.owner, input.key);
      }
    }
    hide ClaimAll, Distinct;
  }

  lemma MaterializeMoves(s: State, id: Id, seen: Op)
    requires Inv(s) && ReadEarlier(s, id, seen) && id in s.ops && s.ops[id].phase == Pending
    ensures var s' := Materialize(s, id, seen);
            if seen.phase != Pending then s' == s
            else
              && OpMoves(s, s', id) && EntityBecomes(s, s', id, Materializing) && OthersStay(s, s')
              && s'.ops[id] == s.ops[id].(phase := Materializing, revision := s.ops[id].revision + 1)
  {
    hide Inv;
    RowFacts(s, id);
  }

  /** Activation makes the entity visible, unless its row is deleted or missing, turns exactly
      its own pending claims active, and finishes the operation without its secret. */
  lemma ActivationShows(s: State, id: Id, now: int)
    requires Inv(s) && Enabled(s, DoActivate(id, now))
    ensures var s', key := Activate(s, id, now), s.ops[id].entity;
            && (Seen(s', key) <==> key in s.rows && !s.rows[key].deleted)
            && RowBecomes(s, s', key, Visible) && EntityBecomes(s, s', id, Active)
            && OpMoves(s, s', id) && Closed(s.ops[id], s'.ops[id], Terminal, now)
            && s'.ops[id].failure == None && s'.ops[id].result == s.ops[id].result
            && s'.secrets.Keys == s.secrets.Keys - {id} && (forall other :: other in s'.secrets ==> s'.secrets[other] == s.secrets[other])
            && s'.claims.Keys == s.claims.Keys
            && (forall k :: k in s.claims ==> s'.claims[k].entity == s.claims[k].entity && s'.claims[k].owner == s.claims[k].owner)
            && (forall k :: k in s.claims ==> s'.claims[k].holder == if s.claims[k].holder == Some(id) then None else s.claims[k].holder)
  {
    hide Inv;
    RowFacts(s, id);
  }

  // ---------- Deletion ----------

  /** What the deletion guard asks of the tables. */
  predicate Deletable(s: State, input: DeleteInput) {
    && Seen(s, input.entity)
    && (input.entity.kind == World ==> forall k :: k in s.claims && k.kind == BotHandle ==> k.scope != input.entity.id)
    && (input.entity.kind == Account ==>
         && (forall id :: id in s.ops && s.ops[id].owner == input.owner ==>
              s.ops[id].phase in {Terminal, TerminalFailed} && s.ops[id].kv != Blocked)
         && (forall k | k in s.claims && k.kind == BotHandle && EntityKey(World, k.scope) in s.rows
                        && s.rows[EntityKey(World, k.scope)].owner == input.owner :: s.claims[k].owner == input.owner))
  }

  predicate DeletionBegun(s: State, s': State, input: DeleteInput, id: Id) {
    && s'.ops.Keys == s.ops.Keys + {id}
    && (forall other :: other in s.ops ==> s'.ops[other] == s.ops[other])
    && s'.ops[id].owner == input.owner && s'.ops[id].key == input.key && s'.ops[id].hash == input.hash
    && s'.ops[id].request == Some(input.request) && s'.ops[id].entity == input.entity
    && s'.ops[id].action == Delete && s'.ops[id].phase == Deleting && s'.ops[id].retries == 0
    && !Seen(s', input.entity) && RowBecomes(s, s', input.entity, BeingDeleted)
    && input.entity in s'.entities && s'.entities.Keys == s.entities.Keys + {input.entity}
    && (forall other :: other in s.entities && other != input.entity ==> s'.entities[other] == s.entities[other])
    && s'.entities[input.entity].owner == input.owner && s'.entities[input.entity].phase == Deleting
    && s'.entities[input.entity].activeOp == id
    && s'.entities[input.entity].revision == (if input.entity in s.entities then s.entities[input.entity].revision + 1 else 1)
    && s'.claims == s.claims && s'.secrets == s.secrets
  }

  lemma GuardMeansDeletable(s: State, input: DeleteInput)
    ensures DeleteGuard(s, input) <==> Deletable(s, input)
  {
    if Deletable(s, input) && input.entity.kind == Account {
      assert NoForeignClaims(s, input.owner);
    }
    if DeleteGuard(s, input) && input.entity.kind == Account {
      forall k | k in s.claims && k.kind == BotHandle && EntityKey(World, k.scope) in s.rows &&
                 s.rows[EntityKey(World, k.scope)].owner == input.owner
        ensures s.claims[k].owner == input.owner
      {
        assert InWorldOf(s, k, input.owner);
      }
    }
  }

  /** A deletion begins exactly for a visible entity that nothing depends on; readers lose
      sight of it in the same batch. */
  lemma DeletionIsExact(s: State, input: DeleteInput, id: Id)
    requires Inv(s) && Enabled(s, DoBeginDelete(input, id))
    ensures var batch := DeleteBatch(s, input, id);
            && (batch.UniqueViolation? <==> Deletable(s, input) && KeyUsed(s, input.owner, input.key))
            && (batch.Committed? ==> if Deletable(s, input) then DeletionBegun(s, batch.state, input, id) else batch.state == s)
  {
    GuardMeansDeletable(s, input);
    assert OwnersAgree(s);
    assert Deletable(s, input) ==> Seen(s, input.entity);
    hide Inv, KeyUsed, DeleteGuard, Deletable;
  }

  /** A finished deletion frees every key of the entity and leaves no row for it. */
  lemma DeletionFinishes(s: State, id: Id, result: Option<string>, now: int)
    requires Inv(s) && Enabled(s, DoFinishDeletion(id, result, now))
    ensures var s', key := FinishDeletion(s, id, result, now), s.ops[id].entity;
            && s'.claims == (map k | k in s.claims && s.claims[k].entity != key :: s.claims[k])
            && s'.entities == s.entities - {key}
            && s'.secrets == s.secrets && s'.rows == s.rows
            && OpMoves(s, s', id) && Closed(s.ops[id], s'.ops[id], Terminal, now)
            && s'.ops[id].failure == None && s'.ops[id].result == result
  {
    hide Inv;
    RowFacts(s, id);
    DeletionHoldsNothing(s, id);
    assert s.secrets - {id} == s.secrets;
  }

  /** An aborted deletion shows the entity again and records why. */
  lemma AbortShows(s: State, id: Id, failure: Failed, now: int)
    requires Inv(s) && Enabled(s, DoAbortDeletion(id, failure, now))
    ensures var s', key := AbortDeletion(s, id, failure, now), s.ops[id].entity;
            && (Seen(s', key) <==> key in s.rows && !s.rows[key].deleted)
            && RowBecomes(s, s', key, Visible) && EntityBecomes(s, s', id, Active)
            && s'.claims == s.claims && s'.secrets == s.secrets
            && OpMoves(s, s', id) && Closed(s.ops[id], s'.ops[id], TerminalFailed, now)
            && s'.ops[id].failure == Some(failure)
  {
    hide Inv;
    RowFacts(s, id);
  }

  // ---------- Failures ----------

  /** A retryable failure, counted from the row as it was read: the first seven schedule
      another try after five seconds, the eighth turns to compensation. */
  lemma RetryIsExact(s: State, id: Id, seen: Op, failure: Failed, now: int)
    requires Inv(s) && id in s.ops && Live(s.ops[id]) && ReadEarlier(s, id, seen)
    ensures var op, s' := s.ops[id], Retry(s, id, seen, failure, now);
            var op', last := s'.ops[id], seen.retries >= 7;
            && OpMoves(s, s', id) && EntityBecomes(s, s', id, op'.phase) && OthersStay(s, s')
            && op'.retries == seen.retries + 1
            && op'.phase == (if last then Compensating else if op.action == Create then Materializing else Deleting)
            && op'.nextRetry == (if last then None else Some(now + 5_000))
            && op'.failure == Some(Failed(if last then "retry_exhausted" else failure.category, failure.code))
            && op'.request == op.request && op'.cleanupAt == None && op'.kv == op.kv
  {
    hide Inv;
    RowFacts(s, id);
  }

  lemma RetryOfFinishedDoesNothing(s: State, id: Id, seen: Op, failure: Failed, now: int)
    requires id in s.ops ==> s.ops[id].phase in {Terminal, TerminalFailed}
    ensures Retry(s, id, seen, failure, now) == s && BeginCompensation(s, id, seen, failure) == s
    ensures forall counts, code: string :: AccountProgress(s, id, seen, counts, code, now) == s
  {
  }

  /** A KV failure of a bot's creation as it was read: half a minute to the next try, within
      one hour of the first failure and within 127 failures; then it waits for an operator. */
  lemma KvFailureIsExact(s: State, id: Id, failure: Failed, now: int)
    requires Inv(s) && id in s.ops && s.ops[id].entity.kind == Bot && s.ops[id].phase in {Pending, Materializing}
    ensures var op, s' := s.ops[id], KvFailure(s, id, s.ops[id], failure, now);
            var op', deadline := s'.ops[id], if op.kvDeadline.Some? then op.kvDeadline.value else now + 3_600_000;
            var last := op.kvCount >= 127 || now >= deadline;
            && OpMoves(s, s', id) && EntityBecomes(s, s', id, op'.phase) && OthersStay(s, s')
            && op'.kvCount == op.kvCount + 1 && op'.kvDeadline == Some(deadline) && op'.retries == op.retries
            && op'.phase == (if last then TerminalFailed else Materializing)
            && op'.kv == (if last then Blocked else Retrying)
            && op'.nextRetry == (if last then None else if now + 30_000 < deadline then Some(now + 30_000) else Some(deadline))
            && op'.failure == Some(if last then Failed("retry_exhausted", failure.code) else failure)
            && op'.request == op.request && op'.cleanupAt == None
  {
    hide Inv;
    RowFacts(s, id);
  }

  /** An operator's decision on a blocked creation: a resumed one may fail for a whole hour
      again, a cancelled one is compensated. Resuming needs the owner to be visible. */
  lemma ResolutionIsExact(s: State, id: Id, resume: bool, now: int)
    requires Inv(s) && id in s.ops && s.ops[id].kv == Blocked
    ensures var op, s' := s.ops[id], Resolve(s, id, s.ops[id], resume, s.ops[id].revision, now);
            if resume && !Seen(s, EntityKey(Account, op.owner)) then s' == s
            else
              var op' := s'.ops[id];
              && OpMoves(s, s', id) && EntityBecomes(s, s', id, op'.phase) && OthersStay(s, s')
              && op'.phase == (if resume then Materializing else Compensating)
              && op'.kv == Calm && op'.kvCount == 0 && op'.kvDeadline == None && op'.cleanupAt == None
              && op'.nextRetry == (if resume then Some(now) else None)
              && op'.retries == op.retries && op'.request == op.request && op'.failure == op.failure
  {
    hide Inv;
    RowFacts(s, id);
  }

  /** Progress of an account deletion keeps it going and counts only what is a failure. */
  lemma ProgressIsExact(s: State, id: Id, seen: Op, counts: bool, code: string, now: int)
    requires Inv(s) && ReadEarlier(s, id, seen) && id in s.ops
    ensures var op, s' := s.ops[id], AccountProgress(s, id, seen, counts, code, now);
            if op.phase in {Terminal, TerminalFailed} || op.entity.kind != Account || op.action != Delete then s' == s
            else
              && OpMoves(s, s', id) && EntityBecomes(s, s', id, Deleting) && OthersStay(s, s')
              && s'.ops[id].phase == Deleting && s'.ops[id].retries == op.retries + (if counts then 1 else 0)
              && s'.ops[id].nextRetry == Some(now + 5_000) && s'.ops[id].failure == Some(Failed("external_retryable", code))
              && s'.ops[id].request == op.request
  {
    hide Inv;
    RowFacts(s, id);
  }

  lemma CompensationBegins(s: State, id: Id, seen: Op, failure: Failed)
    requires Inv(s) && ReadEarlier(s, id, seen) && id in s.ops && Live(s.ops[id])
    ensures var op, s' := s.ops[id], BeginCompensation(s, id, seen, failure);
            if seen.phase == TerminalFailed then s' == s
            else
              && OpMoves(s, s', id) && EntityBecomes(s, s', id, Compensating) && OthersStay(s, s')
              && s'.ops[id].phase == Compensating && s'.ops[id].nextRetry == None && s'.ops[id].failure == Some(failure)
              && s'.ops[id].retries == op.retries && s'.ops[id].request == op.request
  {
    hide Inv;
    RowFacts(s, id);
  }

  /** Everything the operation held is gone from the tables, and nothing else. */
  predicate Released(s: State, s': State, id: Id, cleanup: bool)
    requires id in s.ops
  {
    var key := s.ops[id].entity;
    && s'.claims == (map k | k in s.claims && s.claims[k].holder != Some(id) :: s.claims[k])
    && s'.secrets == s.secrets - {id} && s'.entities == s.entities - {key}
    && s'.rows == (if cleanup && key in s.rows && s.rows[key].state != Visible then s.rows - {key} else s.rows)
  }

  /** Finished compensation releases everything and keeps the failure for the record. */
  lemma CompensationFinishes(s: State, id: Id, cleanup: bool, now: int)
    requires Inv(s) && Enabled(s, DoFinishCompensation(id, cleanup, now))
    ensures var s', key := FinishCompensation(s, id, cleanup, now), s.ops[id].entity;
            && Released(s, s', id, cleanup) && !Seen(s', key)
            && OpMoves(s, s', id) && Closed(s.ops[id], s'.ops[id], TerminalFailed, now)
            && s'.ops[id].failure == s.ops[id].failure
  {
    RowFacts(s, id);
    assert !RowActive(s, s.ops[id].entity);
    hide Inv;
  }

  /** The finishing statements leave an operation of the other kind, or a finished one, alone. */
  lemma FinishingNeedsItsPhase(s: State, id: Id, result: Option<string>, failure: Failed, cleanup: bool, now: int)
    requires id in s.ops
    ensures s.ops[id].action == Delete || s.ops[id].phase !in {Pending, Materializing, Active} ==> Activate(s, id, now).ops == s.ops
    ensures s.ops[id].action == Create || s.ops[id].phase !in {Deleting, Compensating} ==> FinishDeletion(s, id, result, now).ops == s.ops
    ensures s.ops[id].action == Create || s.ops[id].phase in {Terminal, TerminalFailed} ==> AbortDeletion(s, id, failure, now).ops == s.ops
    ensures s.ops[id].phase != Compensating ==> FinishCompensation(s, id, cleanup, now).ops == s.ops
  {
  }

  // ---------- Batches that undo each other ----------

  /** Beginning a deletion and aborting it leaves what readers see, all claims and all secrets
      as they were. */
  lemma AbortRestores(s: State, input: DeleteInput, id: Id, failure: Failed, now: int)
    requires Inv(s) && Enabled(s, DoBeginDelete(input, id)) && Deletable(s, input) && !KeyUsed(s, input.owner, input.key)
    ensures var begun := Apply(s, DoBeginDelete(input, id));
            && id in begun.ops
            && var s' := AbortDeletion(begun, id, failure, now);
               && s'.rows == s.rows && s'.claims == s.claims && s'.secrets == s.secrets
               && (forall other :: other in s.entities && other != input.entity ==> other in s'.entities && s'.entities[other] == s.entities[other])
               && input.entity in s'.entities && s'.entities[input.entity].phase == Active && s'.entities[input.entity].owner == input.owner
  {
    hide Inv, AbortDeletion, Apply, Deletable, OpMoves, Closed;
    DeletionApplies(s, input, id);
    var begun := Apply(s, DoBeginDelete(input, id));
    AbortShows(begun, id, failure, now);
    var s' := AbortDeletion(begun, id, failure, now);
    assert forall key :: key in s.rows ==> s'.rows[key] == s.rows[key];
  }

  lemma DeletionApplies(s: State, input: DeleteInput, id: Id)
    requires Inv(s) && Enabled(s, DoBeginDelete(input, id)) && Deletable(s, input) && !KeyUsed(s, input.owner, input.key)
    ensures var begun := Apply(s, DoBeginDelete(input, id));
            Inv(begun) && DeletionBegun(s, begun, input, id) && Seen(s, input.entity) && Enabled(begun, DoAbortDeletion(id, Failed("", ""), 0))
  {
    StepKeepsInv(s, DoBeginDelete(input, id));
    DeletionIsExact(s, input, id);
    hide Inv, DeletionBegun;
    assert DeletionBegun(s, Apply(s, DoBeginDelete(input, id)), input, id);
    BegunIsLive(s, Apply(s, DoBeginDelete(input, id)), input, id);
  }

  lemma BegunIsLive(s: State, begun: State, input: DeleteInput, id: Id)
    requires DeletionBegun(s, begun, input, id)
    ensures Enabled(begun, DoAbortDeletion(id, Failed("", ""), 0))
  {
  }

  /** Reserving a creation and compensating it leaves no trace but the failed operation. */
  lemma CompensationRestores(s: State, input: CreateInput, id: Id, failure: Failed, cleanup: bool, now: int)
    requires Inv(s) && Enabled(s, DoReserve(input, id)) && Open(s, input) && Free(s, input)
    ensures var reserved := Apply(s, DoReserve(input, id));
            && id in reserved.ops
            && var failed := BeginCompensation(reserved, id, reserved.ops[id], failure);
               && id in failed.ops
               && var s' := FinishCompensation(failed, id, cleanup, now);
                  && s'.claims == s.claims && s'.secrets == s.secrets && s'.entities == s.entities
                  && (input.entity !in s.rows ==> s'.rows == s.rows)
                  && s'.ops.Keys == s.ops.Keys + {id} && (forall other :: other in s.ops ==> s'.ops[other] == s.ops[other])
                  && s'.ops[id].phase == TerminalFailed && s'.ops[id].failure == Some(failure)
  {
    hide Inv, ReserveBatch, BeginCompensation, FinishCompensation, Open, Free, Released, Apply, Enabled, EntityBecomes, Reserved;
    ReservationApplies(s, input, id);
    FreshHoldsNothing(s, id);
    var reserved := Apply(s, DoReserve(input, id));
    CompensationBegins(reserved, id, reserved.ops[id], failure);
    var failed := BeginCompensation(reserved, id, reserved.ops[id], failure);
    CompensationCanFinish(reserved, id, failure, cleanup, now);
    CompensationFinishes(failed, id, cleanup, now);
    ReleaseRestores(s, reserved, failed, FinishCompensation(failed, id, cleanup, now), input, id, cleanup);
  }

  lemma ReservationApplies(s: State, input: CreateInput, id: Id)
    requires Inv(s) && Enabled(s, DoReserve(input, id)) && Open(s, input) && Free(s, input)
    ensures var reserved := Apply(s, DoReserve(input, id));
            && id !in s.ops && Inv(reserved) && Reserved(s, reserved, input, id)
            && reserved.ops.Keys == s.ops.Keys + {id} && (forall other :: other in s.ops ==> reserved.ops[other] == s.ops[other])
            && Live(reserved.ops[id]) && reserved.ops[id].phase == Pending && reserved.ops[id].action == Create
  {
    StepKeepsInv(s, DoReserve(input, id));
    ReservationIsExact(s, input, id);
    hide Inv;
  }

  lemma CompensationCanFinish(s: State, id: Id, failure: Failed, cleanup: bool, now: int)
    requires Inv(s) && id in s.ops && Live(s.ops[id])
    ensures var failed := BeginCompensation(s, id, s.ops[id], failure);
            Inv(failed) && Enabled(failed, DoFinishCompensation(id, cleanup, now))
  {
    hide Inv, BeginCompensation, EntityBecomes;
    CompensationBegins(s, id, s.ops[id], failure);
    BeginCompensationKeepsInv(s, id, s.ops[id], failure);
  }

  lemma ReleaseRestores(s: State, reserved: State, failed: State, s': State, input: CreateInput, id: Id, cleanup: bool)
    requires id !in s.ops && Reserved(s, reserved, input, id) && Free(s, input)
    requires (forall k :: k in s.claims ==> s.claims[k].holder != Some(id)) && id !in s.secrets
    requires OpMoves(reserved, failed, id) && OthersStay(reserved, failed) && EntityBecomes(reserved, failed, id, Compensating)
    requires Released(failed, s', id, cleanup)
    ensures s'.claims == s.claims && s'.secrets == s.secrets && s'.entities == s.entities
    ensures input.entity !in s.rows ==> s'.rows == s.rows
  {
    assert failed.ops[id].entity == input.entity;
    assert failed.entities - {input.entity} == s.entities;
  }

  lemma FreshHoldsNothing(s: State, id: Id)
    requires Inv(s) && id !in s.ops
    ensures (forall k :: k in s.claims ==> s.claims[k].holder != Some(id)) && id !in s.secrets
  {
    forall k | k in s.claims ensures s.claims[k].holder != Some(id) {
      assert ClaimHeld(s, k);
    }
  }

  /** The life of a bot, from its reservation to its deletion: it is seen in between, and in
      the end all keys, secrets and entity rows are as before. */
  lemma BotsLeaveNothing(s: State, input: CreateInput, id: Id, deletion: DeleteInput, last: Id, now: int, later: int)
    returns (states: seq<State>)
    requires Inv(s) && Enabled(s, DoReserve(input, id)) && Open(s, input) && Free(s, input) && input.entity.kind == Bot
    requires forall k :: k in s.claims ==> s.claims[k].entity != input.entity
    requires last !in s.ops && last != id && deletion.owner == input.owner && deletion.entity == input.entity
    requires deletion.key != input.key && !KeyUsed(s, deletion.owner, deletion.key)
    ensures IsRun(states, [DoReserve(input, id), DoProject(id), DoActivate(id, now), DoBeginDelete(deletion, last),
                           DoFinishDeletion(last, None, later)])
    ensures states[0] == s && Seen(states[3], input.entity) && !Seen(states[4], input.entity)
    ensures states[5].claims == s.claims && states[5].secrets == s.secrets && states[5].entities == s.entities
  {
    hide Inv, Enabled, Apply, Open, Free, Appeared, Gone, Reserved, IsRun, KeyUsed;
    ReservationApplies(s, input, id);
    var s1 := Apply(s, DoReserve(input, id));
    var s2, s3 := BotAppears(s1, id, now);
    BotCanGo(s, s1, s3, input, id, deletion, last);
    var s4, s5 := BotGoes(s3, deletion, last, later);
    TraceIsGone(s, s1, s3, s5, input, id);
    states := [s, s1, s2, s3, s4, s5];
    FiveSteps(states, [DoReserve(input, id), DoProject(id), DoActivate(id, now), DoBeginDelete(deletion, last),
                       DoFinishDeletion(last, None, later)]);
  }

  lemma FiveSteps(states: seq<State>, steps: seq<Step>)
    requires |states| == 6 && |steps| == 5
    requires Enabled(states[0], steps[0]) && states[1] == Apply(states[0], steps[0])
    requires Enabled(states[1], steps[1]) && states[2] == Apply(states[1], steps[1])
    requires Enabled(states[2], steps[2]) && states[3] == Apply(states[2], steps[2])
    requires Enabled(states[3], steps[3]) && states[4] == Apply(states[3], steps[3])
    requires Enabled(states[4], steps[4]) && states[5] == Apply(states[4], steps[4])
    ensures IsRun(states, steps)
  {
    hide Enabled, Apply;
  }

  /** A pending creation has been projected and activated. */
  predicate Appeared(s: State, s': State, id: Id)
    requires id in s.ops
  {
    var key := s.ops[id].entity;
    && s'.ops.Keys == s.ops.Keys && (forall other :: other in s.ops ==> SameIdentity(s'.ops[other], s.ops[other]))
    && key in s'.rows && s'.rows[key].owner == s.ops[id].owner && Seen(s', key)
    && s'.entities.Keys == s.entities.Keys
    && (forall other :: other in s.entities && other != key ==> s'.entities[other] == s.entities[other])
    && s'.secrets == s.secrets - {id} && s'.claims.Keys == s.claims.Keys
    && (forall k :: k in s.claims ==> s'.claims[k].entity == s.claims[k].entity)
    && (forall k :: k in s.claims && s.claims[k].holder != Some(id) ==> s'.claims[k] == s.claims[k])
  }

  lemma BotAppears(s: State, id: Id, now: int) returns (projected: State, s': State)
    requires Inv(s) && id in s.ops && s.ops[id].action == Create && s.ops[id].phase == Pending
    ensures Enabled(s, DoProject(id)) && projected == Apply(s, DoProject(id))
    ensures Enabled(projected, DoActivate(id, now)) && s' == Apply(projected, DoActivate(id, now))
    ensures Inv(s') && Appeared(s, s', id)
  {
    hide Inv, Activate, Appeared, OpMoves, EntityBecomes, RowBecomes, Closed;
    PendingCanBeProjected(s, id);
    projected := Apply(s, DoProject(id));
    StepKeepsInv(s, DoProject(id));
    ActivationShows(projected, id, now);
    StepKeepsInv(projected, DoActivate(id, now));
    s' := Apply(projected, DoActivate(id, now));
    ActivationAppears(s, projected, s', id);
  }

  lemma PendingCanBeProjected(s: State, id: Id)
    requires Inv(s) && id in s.ops && s.ops[id].action == Create && s.ops[id].phase == Pending
    ensures Enabled(s, DoProject(id))
  {
    assert Live(s.ops[id]) && !RowActive(s, s.ops[id].entity);
    hide Inv;
  }

  lemma ActivationAppears(s: State, projected: State, s': State, id: Id)
    requires id in s.ops && projected == Project(s, id) && Seen(s', s.ops[id].entity)
    requires RowBecomes(projected, s', s.ops[id].entity, Visible) && EntityBecomes(projected, s', id, Active) && OpMoves(projected, s', id)
    requires s'.secrets.Keys == s.secrets.Keys - {id} && forall other :: other in s'.secrets ==> s'.secrets[other] == s.secrets[other]
    requires s'.claims.Keys == s.claims.Keys
    requires forall k :: k in s.claims ==> s'.claims[k].entity == s.claims[k].entity && s'.claims[k].owner == s.claims[k].owner
    requires forall k :: k in s.claims ==> s'.claims[k].holder == if s.claims[k].holder == Some(id) then None else s.claims[k].holder
    ensures Appeared(s, s', id)
  {
    assert s'.secrets == s.secrets - {id};
  }

  predicate Gone(s: State, s': State, key: EntityKey) {
    && s'.claims == (map k | k in s.claims && s.claims[k].entity != key :: s.claims[k])
    && s'.entities == s.entities - {key} && s'.secrets == s.secrets
  }

  lemma BotGoes(s: State, input: DeleteInput, id: Id, now: int) returns (begun: State, s': State)
    requires Inv(s) && id !in s.ops && input.entity.kind == Bot && Seen(s, input.entity)
    requires s.rows[input.entity].owner == input.owner && !KeyUsed(s, input.owner, input.key)
    ensures Enabled(s, DoBeginDelete(input, id)) && begun == Apply(s, DoBeginDelete(input, id))
    ensures Enabled(begun, DoFinishDeletion(id, None, now)) && s' == Apply(begun, DoFinishDeletion(id, None, now))
    ensures !Seen(begun, input.entity) && Gone(s, s', input.entity)
  {
    hide Inv, DeleteBatch, FinishDeletion, KeyUsed, Deletable, OpMoves, Closed;
    BotIsDeletable(s, input);
    DeletionIsExact(s, input, id);
    StepKeepsInv(s, DoBeginDelete(input, id));
    begun := Apply(s, DoBeginDelete(input, id));
    DeletionFinishes(begun, id, None, now);
    s' := Apply(begun, DoFinishDeletion(id, None, now));
    assert s'.entities == s.entities - {input.entity};
  }

  lemma BotIsDeletable(s: State, input: DeleteInput)
    requires Seen(s, input.entity) && input.entity.kind == Bot
    ensures Deletable(s, input)
  {
  }

  lemma BotCanGo(s: State, reserved: State, s': State, input: CreateInput, id: Id, deletion: DeleteInput, last: Id)
    requires id !in s.ops && last !in s.ops && last != id && Reserved(s, reserved, input, id) && Appeared(reserved, s', id)
    requires deletion.key != input.key && !KeyUsed(s, deletion.owner, deletion.key)
    ensures last !in s'.ops && !KeyUsed(s', deletion.owner, deletion.key)
    ensures Seen(s', input.entity) && s'.rows[input.entity].owner == input.owner
  {
    forall other | other in s'.ops ensures !HasKey(s', other, deletion.owner, deletion.key) {
      assert other != id ==> !HasKey(s, other, deletion.owner, deletion.key);
    }
  }

  lemma TraceIsGone(s: State, reserved: State, seen: State, s': State, input: CreateInput, id: Id)
    requires Inv(s) && id !in s.ops && Reserved(s, reserved, input, id) && Free(s, input)
    requires Appeared(reserved, seen, id) && Gone(seen, s', input.entity)
    requires forall k :: k in s.claims ==> s.claims[k].entity != input.entity
    ensures s'.claims == s.claims && s'.secrets == s.secrets && s'.entities == s.entities
  {
    hide Inv;
    FreshHoldsNothing(s, id);
    assert reserved.ops[id].entity == input.entity;
    ClaimsAreBack(s, reserved, seen, s', input, id);
    assert s'.entities == s.entities by {
      hide Free, SameIdentity, Distinct, Seen;
      assert input.entity !in s.entities by {
        EntityIsFree(s, input);
      }
    }
    assert s'.secrets == s.secrets;
  }

  lemma EntityIsFree(s: State, input: CreateInput)
    requires Free(s, input)
    ensures input.entity !in s.entities && forall k :: k in input.reservations ==> k !in s.claims
  {
  }

  lemma ClaimsAreBack(s: State, reserved: State, seen: State, s': State, input: CreateInput, id: Id)
    requires id !in s.ops && Reserved(s, reserved, input, id) && Free(s, input)
    requires Appeared(reserved, seen, id) && Gone(seen, s', input.entity)
    requires forall k :: k in s.claims ==> s.claims[k].entity != input.entity && s.claims[k].holder != Some(id)
    ensures s'.claims == s.claims
  {
    hide Free, SameIdentity, Seen;
    EntityIsFree(s, input);
    forall k | k in s.claims ensures k in s'.claims && s'.claims[k] == s.claims[k] {
      assert reserved.claims[k] == s.claims[k];
    }
  }

  // ---------- Replies ----------

  /** The reply to a first reservation request: made, not found, or a conflict of keys. */
  lemma ReservationReply(s: State, input: CreateInput, id: Id)
    requires id !in s.ops && forall other :: other in s.ops ==> s.ops[other].owner != input.owner || s.ops[other].key != input.key
    ensures Reserve(s, s, input, id).0 == if !Open(s, input) then NotFound else if Free(s, input) then Answer(id, true) else Conflict
    ensures !(Open(s, input) && Free(s, input)) ==> Reserve(s, s, input, id).1 == s
  {
    ReservationIsExact(s, input, id);
    NoOperationNoKey(s, input.owner, input.key);
    hide Open, Free, ReserveBatch, KeyUsed;
  }

  lemma NoOperationNoKey(s: State, owner: Id, key: string)
    requires forall other :: other in s.ops ==> s.ops[other].owner != owner || s.ops[other].key != key
    ensures !KeyUsed(s, owner, key)
  {
  }

  /** The reply to a first deletion request. What is not there is not found; what something
      depends on is a conflict. */
  lemma DeletionReply(s: State, input: DeleteInput, id: Id)
    requires Inv(s) && Enabled(s, DoBeginDelete(input, id))
    requires forall other :: other in s.ops ==> s.ops[other].owner != input.owner || s.ops[other].key != input.key
    ensures BeginDelete(s, s, input, id).0 == if !Seen(s, input.entity) then NotFound else if Deletable(s, input) then Answer(id, true) else Conflict
    ensures !Deletable(s, input) ==> BeginDelete(s, s, input, id).1 == s
  {
    DeletionIsExact(s, input, id);
    NoOperationNoKey(s, input.owner, input.key);
    BotsAreDeletable(s, input);
    hide Inv, DeleteBatch, KeyUsed;
    assert !Seen(s, input.entity) ==> !Deletable(s, input);
    hide Deletable;
  }

  lemma BotsAreDeletable(s: State, input: DeleteInput)
    ensures Seen(s, input.entity) && input.entity.kind == Bot ==> Deletable(s, input)
    ensures Seen(s, input.entity) <==> RowActive(s, input.entity)
  {
  }

  /** A key answers for the operation it was first used for, and for nothing else. */
  lemma KeysAnswerForTheirOperation(s: State, first: Id, create: CreateInput, delete: DeleteInput, id: Id)
    requires Inv(s) && first in s.ops && id !in s.ops
    ensures s.ops[first].owner == create.owner && s.ops[first].key == create.key ==>
              Reserve(s, s, create, id) ==
              (if s.ops[first].hash == create.hash && s.ops[first].action == Create then Answer(first, false) else Conflict, s)
    ensures s.ops[first].owner == delete.owner && s.ops[first].key == delete.key ==>
              BeginDelete(s, s, delete, id) ==
              (if s.ops[first].hash == delete.hash && s.ops[first].action == Delete then Answer(first, false) else Conflict, s)
  {
    hide Reserve, BeginDelete;
    if s.ops[first].owner == create.owner && s.ops[first].key == create.key {
      assert HasKey(s, first, create.owner, create.key);
      RepeatedReservationIsIdempotent(s, s, create, id, first);
    }
    if s.ops[first].owner == delete.owner && s.ops[first].key == delete.key {
      assert HasKey(s, first, delete.owner, delete.key);
      RepeatedDeletionChangesNothing(s, s, delete, id, first);
    }
    hide Inv;
  }

  // ---------- Repeats over runs ----------

  /** While its row is kept, an operation stays what it was asked for. */
  lemma {:induction false} IdentityStays(states: seq<State>, steps: seq<Step>, i: nat, j: nat, id: Id)
    requires IsRun(states, steps) && Inv(states[0]) && i <= j < |states|
    requires forall k :: i <= k <= j ==> id in states[k].ops
    ensures SameIdentity(states[j].ops[id], states[i].ops[id])
    decreases j - i
  {
    if i < j {
      RunsAreSafe(states, steps, i);
      assert id in states[i].ops && id in states[i + 1].ops && states[i + 1] == Apply(states[i], steps[i]);
      RowsOnlyAdvance(states[i], steps[i], id);
      IdentityStays(states, steps, i + 1, j, id);
    }
  }

  /** Whatever happens in between, the same request finds its first operation as long as the
      row is kept, and the same key with another request is refused. */
  lemma RepeatsFindTheFirst(states: seq<State>, steps: seq<Step>, i: nat, j: nat, first: Id, again: CreateInput, id: Id)
    requires IsRun(states, steps) && Inv(states[0]) && i < j < |states|
    requires steps[i].DoReserve? && steps[i].id == first && first in states[i + 1].ops
    requires forall k :: i < k <= j ==> first in states[k].ops
    requires again.owner == steps[i].create.owner && again.key == steps[i].create.key && id !in states[j].ops
    ensures Reserve(states[j], states[j], again, id) ==
            (if again.hash == steps[i].create.hash then Answer(first, false) else Conflict, states[j])
  {
    assert states[i + 1] == Apply(states[i], steps[i]) && Enabled(states[i], steps[i]);
    ReservationIsExact(states[i], steps[i].create, first);
    IdentityStays(states, steps, i + 1, j, first);
    RunsAreSafe(states, steps, j);
    hide Apply, Enabled, IsRun, ReserveBatch, Reserve, Inv;
    assert HasKey(states[j], first, again.owner, again.key);
    RepeatedReservationIsIdempotent(states[j], states[j], again, id, first);
  }

  lemma RepeatedDeletionsFindTheFirst(states: seq<State>, steps: seq<Step>, i: nat, j: nat, first: Id, again: DeleteInput, id: Id)
    requires IsRun(states, steps) && Inv(states[0]) && i < j < |states|
    requires steps[i].DoBeginDelete? && steps[i].id == first && first in states[i + 1].ops
    requires forall k :: i < k <= j ==> first in states[k].ops
    requires again.owner == steps[i].delete.owner && again.key == steps[i].delete.key && id !in states[j].ops
    ensures BeginDelete(states[j], states[j], again, id) ==
            (if again.hash == steps[i].delete.hash then Answer(first, false) else Conflict, states[j])
  {
    assert states[i + 1] == Apply(states[i], steps[i]) && Enabled(states[i], steps[i]);
    RunsAreSafe(states, steps, i);
    DeletionIsExact(states[i], steps[i].delete, first);
    IdentityStays(states, steps, i + 1, j, first);
    RunsAreSafe(states, steps, j);
    hide Apply, Enabled, IsRun, DeleteBatch, BeginDelete, Inv;
    assert HasKey(states[j], first, again.owner, again.key);
    RepeatedDeletionChangesNothing(states[j], states[j], again, id, first);
  }
}
