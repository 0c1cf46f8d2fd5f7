/** How single operations develop: which moves exist, what a repeat of a request does,
    what a finished operation leaves behind, and how long KV failures can go on. */
module LifecycleHistory {
  import opened Outcomes
  import opened Lifecycle
  import opened LifecycleSafety

  // ---------- One row, one step ----------

  /** The operation a step works on. */
  function Target(step: Step): Option<Id> {
    match step
    case DoReserve(_, id) => Some(id)
    case DoBeginDelete(_, id) => Some(id)
    case DoCleanup(_, _) => None
    case DoProject(_) => None
    case DoTombstone(_) => None
    case _ => Some(step.id)
  }

  /** Steps that insert or remove rows. */
  predicate Resizes(step: Step) {
    step.DoReserve? || step.DoBeginDelete? || step.DoCleanup? || step.DoProject? || step.DoTombstone?
  }

  lemma ResizingKeepsRows(s: State, step: Step, id: Id)
    requires Enabled(s, step) && Resizes(step) && id in s.ops && id in Apply(s, step).ops
    ensures Apply(s, step).ops[id] == s.ops[id]
  {
    hide ReadEarlier, Expired, RowActive, KeyUsed, ClaimAll, GuardHolds, DeleteGuard, RowSet, EntityMoved,
         EntityTaken, EntityDropped, ActivateClaims, DropClaims, ReleaseClaims, HiddenRowDropped, WellScoped, FreshEntity;
  }

  /** Steps whose caller passes the row it read. */
  predicate Fenced(step: Step) {
    step.DoRetry? || step.DoKvFailure? || step.DoResolve? || step.DoAccountProgress? || step.DoBeginCompensation?
  }

  /** `s'` differs from `s` in no operation row but that of `id`. */
  predicate WritesOnly(s: State, s': State, id: Id) {
    s'.ops.Keys == s.ops.Keys && forall other :: other in s.ops && other != id ==> s'.ops[other] == s.ops[other]
  }

  lemma KvFailureWritesOnly(s: State, id: Id, seen: Op, failure: Failed, now: int)
    ensures WritesOnly(s, KvFailure(s, id, seen, failure, now), id)
  {
    hide KvFailed, KvExhausted, EntityMoved;
  }

  lemma ResolveWritesOnly(s: State, id: Id, seen: Op, resume: bool, revision: nat, now: int)
    ensures WritesOnly(s, Resolve(s, id, seen, resume, revision, now), id)
  {
    hide Resolved, RowActive, EntityMoved;
  }

  lemma FencedWritesOneRow(s: State, step: Step, id: Id)
    requires Enabled(s, step) && Fenced(step) && Target(step) != Some(id)
    ensures id in Apply(s, step).ops <==> id in s.ops
    ensures id in s.ops ==> Apply(s, step).ops[id] == s.ops[id]
  {
    hide Enabled, ReadEarlier, Retried, Progressed, Compensated, EntityMoved, KvFailure, Resolve, Materialize,
         Activate, FinishDeletion, AbortDeletion, FinishCompensation, ReserveBatch, DeleteBatch, Cleanup;
    match step
    case DoKvFailure(target, seen, failure, now) => KvFailureWritesOnly(s, target, seen, failure, now);
    case DoResolve(target, seen, resume, revision, now) => ResolveWritesOnly(s, target, seen, resume, revision, now);
    case _ =>
  }

  lemma UnfencedWritesOneRow(s: State, step: Step, id: Id)
    requires Enabled(s, step) && !Fenced(step) && !Resizes(step) && Target(step) != Some(id)
    ensures id in Apply(s, step).ops <==> id in s.ops
    ensures id in s.ops ==> Apply(s, step).ops[id] == s.ops[id]
  {
    hide Enabled, ReadEarlier, Finished, RowSet, EntityMoved, EntityDropped, ActivateClaims, DropClaims, ReleaseClaims, HiddenRowDropped,
         Retry, KvFailure, Resolve, AccountProgress, BeginCompensation, ReserveBatch, DeleteBatch, Cleanup;
  }

  lemma OtherRowsStay(s: State, step: Step, id: Id)
    requires Enabled(s, step) && Target(step) != Some(id) && id in s.ops && id in Apply(s, step).ops
    ensures Apply(s, step).ops[id] == s.ops[id]
  {
    hide Enabled, Apply;
    if Resizes(step) {
      ResizingKeepsRows(s, step, id);
    } else if Fenced(step) {
      FencedWritesOneRow(s, step, id);
    } else {
      UnfencedWritesOneRow(s, step, id);
    }
  }

  /** Identity stays, the revision grows by one, `terminal` is absorbing. */
  predicate Advances(op: Op, op': Op) {
    && SameIdentity(op', op)
    && (op' == op || (op'.revision == op.revision + 1 && op.phase != Terminal))
  }

  /** KV bookkeeping of a step that is neither a recorded KV failure nor a resolution. */
  predicate KvKept(op: Op, op': Op) {
    op'.kvCount == op.kvCount && op'.kvDeadline == op.kvDeadline
  }

  lemma FencedStep(s: State, step: Step, id: Id)
    requires Inv(s) && Enabled(s, step) && Target(step) == Some(id) && id in s.ops && id in Apply(s, step).ops
    requires !step.DoKvFailure? && !step.DoResolve? && !Resizes(step) && Fenced(step)
    ensures var op, op' := s.ops[id], Apply(s, step).ops[id];
            Advances(op, op') && KvKept(op, op') && (op' != op ==> Live(op))
  {
    RowFacts(s, id);
    hide Inv, Expired, RowActive, KvFailure, Resolve, OpValid, Agrees, ReserveBatch, DeleteBatch, Cleanup,
         Materialize, Activate, FinishDeletion, AbortDeletion, FinishCompensation, EntityMoved;
  }

  lemma UnfencedStep(s: State, step: Step, id: Id)
    requires Inv(s) && Enabled(s, step) && Target(step) == Some(id) && id in s.ops && id in Apply(s, step).ops
    requires !step.DoKvFailure? && !step.DoResolve? && !Resizes(step) && !Fenced(step)
    ensures var op, op' := s.ops[id], Apply(s, step).ops[id];
            Advances(op, op') && KvKept(op, op') && (op' != op ==> Live(op))
  {
    RowFacts(s, id);
    hide Inv, Expired, RowActive, KvFailure, Resolve, OpValid, Agrees, ReserveBatch, DeleteBatch, Cleanup,
         ReadEarlier, Retry, AccountProgress, BeginCompensation, EntityMoved, EntityDropped, RowSet, ActivateClaims, DropClaims, ReleaseClaims, HiddenRowDropped;
    if step.DoMaterialize? || step.DoActivate? {
      hide FinishDeletion, AbortDeletion, FinishCompensation;
    } else {
      hide Materialize, Activate;
    }
  }

  lemma KvFailureStep(s: State, id: Id, seen: Op, failure: Failed, now: int)
    requires Inv(s) && Enabled(s, DoKvFailure(id, seen, failure, now)) && id in s.ops
    ensures var op, op' := s.ops[id], KvFailure(s, id, seen, failure, now).ops[id];
            && Advances(op, op')
            && (op' != op ==> Live(op) && seen == op && op' == KvFailed(op, op, failure, now))
  {
    RowFacts(s, id);
    hide Inv, Agrees, EntityMoved;
  }

  lemma ResolveStep(s: State, id: Id, seen: Op, resume: bool, revision: nat, now: int)
    requires Inv(s) && Enabled(s, DoResolve(id, seen, resume, revision, now)) && id in s.ops
    ensures var op, op' := s.ops[id], Resolve(s, id, seen, resume, revision, now).ops[id];
            && Advances(op, op')
            && (op' != op ==> op.kv == Blocked && op' == Resolved(op, resume, now))
  {
    RowFacts(s, id);
    hide Inv, Agrees, EntityMoved, RowActive;
  }

  /** Every change of an operation row, by any step: its identity stays, its revision grows,
      `terminal` is absorbing, `terminal_failed` is left only by resolving a blocked creation. */
  lemma RowsOnlyAdvance(s: State, step: Step, id: Id)
    requires Inv(s) && Enabled(s, step) && id in s.ops && id in Apply(s, step).ops
    ensures var op, op' := s.ops[id], Apply(s, step).ops[id];
            && Advances(op, op')
            && (op.phase == TerminalFailed && op' != op ==> step.DoResolve? && op.kv == Blocked && Live(op'))
            && (op'.phase == TerminalFailed && op'.cleanupAt == None <==> op'.kv == Blocked)
  {
    StepKeepsInv(s, step);
    RowFacts(Apply(s, step), id);
    hide Inv, Enabled, Agrees;
    if Target(step) != Some(id) {
      OtherRowsStay(s, step, id);
    } else if step.DoKvFailure? {
      KvFailureStep(s, id, step.seen, step.failure, step.now);
    } else if step.DoResolve? {
      ResolveStep(s, id, step.seen, step.resume, step.revision, step.now);
    } else if Resizes(step) {
      ResizingKeepsRows(s, step, id);
    } else if Fenced(step) {
      FencedStep(s, step, id);
    } else {
      UnfencedStep(s, step, id);
    }
  }

  /** KV retry accounting of one step: the count moves by one per recorded failure and only
      then; a deadline, once set, moves only when an operator resolves the creation; and a
      recorded failure schedules no retry past it. */
  lemma KvAccounting(s: State, step: Step, id: Id)
    requires Inv(s) && Enabled(s, step) && id in s.ops && id in Apply(s, step).ops
    ensures var op, op' := s.ops[id], Apply(s, step).ops[id];
            && (op'.kvCount != op.kvCount ==> (step.DoKvFailure? && op'.kvCount == op.kvCount + 1) || (step.DoResolve? && op'.kvCount == 0))
            && (op.kvDeadline.Some? && op'.kvDeadline != op.kvDeadline ==> step.DoResolve? && op.kv == Blocked)
            && (step.DoKvFailure? && op' != op && op'.nextRetry.Some? ==>
                 op'.kvDeadline.Some? && op'.nextRetry.value <= op'.kvDeadline.value)
            && op'.kvCount <= KV_RETRY_LIMIT && (op'.kvCount == KV_RETRY_LIMIT ==> op'.kv == Blocked)
  {
    StepKeepsInv(s, step);
    RowFacts(Apply(s, step), id);
    hide Inv, Enabled, Agrees;
    if Target(step) != Some(id) {
      OtherRowsStay(s, step, id);
    } else if step.DoKvFailure? {
      KvFailureStep(s, id, step.seen, step.failure, step.now);
    } else if step.DoResolve? {
      ResolveStep(s, id, step.seen, step.resume, step.revision, step.now);
    } else if Resizes(step) {
      ResizingKeepsRows(s, step, id);
    } else if Fenced(step) {
      FencedStep(s, step, id);
    } else {
      UnfencedStep(s, step, id);
    }
  }

  /** A step that neither creates nor removes the operation. */
  predicate Introduces(step: Step, id: Id) {
    (step.DoReserve? && step.id == id) || (step.DoBeginDelete? && step.id == id)
  }

  /** What a caller read stays "the row or an older revision of it" for ever, so a revision
      fence that still matches proves the row is untouched since the read. */
  lemma {:induction false} ReadsStayEarlier(states: seq<State>, steps: seq<Step>, i: nat, j: nat, id: Id, seen: Op)
    requires IsRun(states, steps) && Inv(states[0]) && i <= j < |states|
    requires ReadEarlier(states[i], id, seen)
    requires forall k :: i <= k < j ==> !Introduces(steps[k], id)
    ensures ReadEarlier(states[j], id, seen)
    ensures id in states[j].ops && states[j].ops[id].revision == seen.revision ==> states[j].ops[id] == seen
    decreases j - i
  {
    if i < j {
      RunsAreSafe(states, steps, i);
      assert states[i + 1] == Apply(states[i], steps[i]);
      if id in states[i + 1].ops {
        AppearsOnlyIfIntroduced(states[i], steps[i], id);
      }
      if id in states[i + 1].ops {
        RowsOnlyAdvance(states[i], steps[i], id);
      }
      ReadsStayEarlier(states, steps, i + 1, j, id, seen);
    }
  }

  lemma AppearsOnlyIfIntroduced(s: State, step: Step, id: Id)
    requires Enabled(s, step) && !Introduces(step, id) && id in Apply(s, step).ops
    ensures id in s.ops
  {
    if Resizes(step) {
      hide ReadEarlier, Expired, RowActive, KeyUsed, ClaimAll, GuardHolds, DeleteGuard, RowSet, EntityMoved,
           EntityTaken, EntityDropped, ActivateClaims, DropClaims, ReleaseClaims, HiddenRowDropped, WellScoped, FreshEntity;
    } else if Target(step) != Some(id) {
      hide Enabled, Apply;
      if Fenced(step) {
        FencedWritesOneRow(s, step, id);
      } else {
        UnfencedWritesOneRow(s, step, id);
      }
    } else {
      hide KvFailed, Resolved, Finished, RowActive, EntityMoved, EntityDropped, RowSet;
    }
  }

  // ---------- Finished operations ----------

  /** A finished operation holds no pending claim and no secret, in any reachable state. */
  lemma FinishedHoldsNothing(s: State, id: Id)
    requires Inv(s) && id in s.ops && !Holding(s.ops[id])
    ensures (forall k :: k in s.claims ==> s.claims[k].holder != Some(id)) && id !in s.secrets
  {
    forall k | k in s.claims ensures s.claims[k].holder != Some(id) {
      assert ClaimHeld(s, k);
    }
  }

  /** Finished compensation leaves no claim, secret or entity row of its operation, and
      touches nothing that belongs to anyone else. */
  lemma CompensationLeavesNothing(s: State, id: Id, cleanup: bool, now: int)
    requires Inv(s) && Enabled(s, DoFinishCompensation(id, cleanup, now))
    ensures var s' := FinishCompensation(s, id, cleanup, now);
            && (forall k :: k in s'.claims ==> s'.claims[k].holder != Some(id))
            && (forall k :: k in s.claims && s.claims[k].holder != Some(id) ==> k in s'.claims && s'.claims[k] == s.claims[k])
            && s'.secrets == s.secrets - {id}
            && s'.entities == s.entities - {s.ops[id].entity}
            && s'.ops[id].phase == TerminalFailed && s'.ops[id].request == None
  {
    RowFacts(s, id);
  }

  /** Activation turns exactly the operation's own pending claims into active ones. */
  lemma ActivationKeepsKeys(s: State, id: Id, now: int)
    requires Inv(s) && Enabled(s, DoActivate(id, now))
    ensures var s' := Activate(s, id, now);
            && s'.claims.Keys == s.claims.Keys
            && (forall k :: k in s.claims ==>
                 s'.claims[k] == if s.claims[k].holder == Some(id) then s.claims[k].(holder := None) else s.claims[k])
            && s'.entities[s.ops[id].entity].phase == Active && s'.ops[id].phase == Terminal
  {
    RowFacts(s, id);
  }

  /** Finishing a deletion removes active claims of its entity only: nobody's pending one. */
  lemma DeletionDropsOnlyItsClaims(s: State, id: Id, result: Option<string>, now: int)
    requires Inv(s) && Enabled(s, DoFinishDeletion(id, result, now))
    ensures var s' := FinishDeletion(s, id, result, now);
            && (forall k :: k in s.claims && k !in s'.claims ==> s.claims[k].entity == s.ops[id].entity && s.claims[k].holder == None)
            && (forall k :: k in s'.claims ==> s'.claims[k].entity != s.ops[id].entity)
            && s.ops[id].entity !in s'.entities
  {
    RowFacts(s, id);
    forall k | k in s.claims && s.claims[k].entity == s.ops[id].entity ensures s.claims[k].holder == None {
      assert ClaimHeld(s, k);
      if s.claims[k].holder.Some? {
        RowFacts(s, s.claims[k].holder.value);
      }
    }
  }

  // ---------- Stale fences ----------

  /** A KV failure recorded under a stale read leaves the operation row alone, but its entity
      statement still fires if and only if the row is exactly one revision ahead, already in
      the phase the stale caller aims at. For a live or blocked creation nothing but the
      revision of that entity row moves then. */
  lemma StaleKvFailureTouchesEntity(s: State, id: Id, seen: Op, failure: Failed, now: int)
    requires Inv(s) && Enabled(s, DoKvFailure(id, seen, failure, now)) && id in s.ops && s.ops[id].revision != seen.revision
    ensures var s' := KvFailure(s, id, seen, failure, now);
            var phase := if KvExhausted(seen, now) then TerminalFailed else Materializing;
            && (s' != s <==> OneAhead(s, id, seen.entity, seen.revision, phase))
            && s' == s.(entities := s'.entities)
            && (s' != s && Holding(s.ops[id]) ==> s'.entities == Bumped(s.entities, seen.entity))
  {
    RowFacts(s, id);
    hide Inv, KvExhausted, RowActive;
  }

  /** The same for an operator's resume or cancel under a stale revision. */
  lemma StaleResolutionTouchesEntity(s: State, id: Id, seen: Op, resume: bool, revision: nat, now: int)
    requires Inv(s) && Enabled(s, DoResolve(id, seen, resume, revision, now)) && id in s.ops && s.ops[id].revision != revision
    ensures var s' := Resolve(s, id, seen, resume, revision, now);
            var phase := if resume then Materializing else Compensating;
            && (s' != s <==> OneAhead(s, id, seen.entity, revision, phase))
            && s' == s.(entities := s'.entities)
            && (s' != s ==> s'.entities == Bumped(s.entities, seen.entity))
  {
    RowFacts(s, id);
    hide Inv, RowActive;
  }

  predicate OneAhead(s: State, id: Id, entity: EntityKey, revision: nat, phase: Phase) {
    && id in s.ops && s.ops[id].revision == revision + 1 && s.ops[id].phase == phase
    && entity in s.entities && s.entities[entity].activeOp == id
  }

  function Bumped(entities: map<EntityKey, Entity>, entity: EntityKey): map<EntityKey, Entity>
    requires entity in entities
  {
    entities[entity := entities[entity].(revision := entities[entity].revision + 1)]
  }

  /** At an input: two workers record a KV failure of the same creation from the same read.
      The second changes no operation row and is told of a conflict, yet bumps the entity. */
  lemma SecondKvFailureBumpsEntity() returns (states: seq<State>, steps: seq<Step>, entity: EntityKey)
    ensures IsRun(states, steps) && Inv(states[0]) && |states| == 3 && steps[0] == steps[1] && steps[0].DoKvFailure?
    ensures states[1].ops != states[0].ops && states[2].ops == states[1].ops
    ensures entity in states[1].entities && states[2] == states[1].(entities := Bumped(states[1].entities, entity))
  {
    entity := EntityKey(Bot, "b");
    var op := Op("u", "key", "hash", Some("{}"), None, entity, Create, Pending, 1, 0, Calm, 0, None, None, None, None);
    var s0 := State(map["o" := op], map[entity := Entity("u", Pending, 1, "o")], map[], map[], map[]);
    var step := DoKvFailure("o", op, Failed("external_retryable", "creation_kv"), 0);
    var s1 := Apply(s0, step);
    StepKeepsInv(s0, step);
    var failed := KvFailed(op, op, step.failure, 0);
    assert s1.ops == map["o" := failed] && failed.phase == Materializing;
    StaleKvFailureTouchesEntity(s1, "o", op, step.failure, 0);
    var s2 := Apply(s1, step);
    states, steps := [s0, s1, s2], [step, step];
  }

  // ---------- Repeated requests ----------

  datatype Reply = Answer(id: Id, created: bool) | Conflict | NotFound

  ghost function Existing(s: State, owner: Id, key: string): Option<Id> {
    if KeyUsed(s, owner, key) then
      var id :| id in s.ops && HasKey(s, id, owner, key);
      Some(id)
    else None
  }

  function Match(op: Op, id: Id, hash: string, action: Action): Reply {
    if op.hash == hash && op.action == action then Answer(id, false) else Conflict
  }

  /** The whole reservation: a lookup in one state, the batch in a possibly later one. */
  ghost function Reserve(atLookup: State, atBatch: State, input: CreateInput, id: Id): (Reply, State) {
    var found := Existing(atLookup, input.owner, input.key);
    if found.Some? then (Match(atLookup.ops[found.value], found.value, input.hash, Create), atBatch)
    else
      match ReserveBatch(atBatch, input, id)
      case UniqueViolation =>
        var raced := Existing(atBatch, input.owner, input.key);
        (if raced.Some? then Match(atBatch.ops[raced.value], raced.value, input.hash, Create) else Conflict, atBatch)
      case Committed(after) => (if id in after.ops then Answer(id, true) else NotFound, after)
  }

  ghost function BeginDelete(atLookup: State, atBatch: State, input: DeleteInput, id: Id): (Reply, State) {
    var found := Existing(atLookup, input.owner, input.key);
    if found.Some? then (Match(atLookup.ops[found.value], found.value, input.hash, Delete), atBatch)
    else if !RowActive(atLookup, input.entity) then (NotFound, atBatch)
    else
      match DeleteBatch(atBatch, input, id)
      case UniqueViolation =>
        var raced := Existing(atBatch, input.owner, input.key);
        (if raced.Some? then Match(atBatch.ops[raced.value], raced.value, input.hash, Delete) else Conflict, atBatch)
      case Committed(after) =>
        (if id in after.ops then Answer(id, true) else if input.entity.kind == Bot then NotFound else Conflict, after)
  }

  lemma ExistingIsUnique(s: State, owner: Id, key: string, id: Id)
    requires KeysUnique(s) && id in s.ops && HasKey(s, id, owner, key)
    ensures Existing(s, owner, key) == Some(id)
  {
  }

  /** A repeat never changes anything. With the same hash it gets the first operation back;
      with another hash, or after a deletion under that key, it is refused. A repeat that
      races the first request past the lookup can instead meet a closed guard and be told
      that the owner or world is not active. */
  lemma RepeatedReservationIsIdempotent(atLookup: State, atBatch: State, input: CreateInput, id: Id, first: Id)
    requires Inv(atLookup) && Inv(atBatch) && id !in atBatch.ops
    requires first in atBatch.ops && HasKey(atBatch, first, input.owner, input.key)
    requires first in atLookup.ops ==> SameIdentity(atLookup.ops[first], atBatch.ops[first])
    requires KeyUsed(atLookup, input.owner, input.key) ==> first in atLookup.ops
    ensures var (reply, after) := Reserve(atLookup, atBatch, input, id);
            && after == atBatch
            && (first in atLookup.ops || GuardHolds(atBatch, input) ==>
                 reply == Match(atBatch.ops[first], first, input.hash, Create))
            && (!(first in atLookup.ops || GuardHolds(atBatch, input)) ==> reply == NotFound)
  {
    ExistingIsUnique(atBatch, input.owner, input.key, first);
    if first in atLookup.ops {
      ExistingIsUnique(atLookup, input.owner, input.key, first);
    }
  }

  /** A repeated deletion changes nothing either. Past the lookup its reply depends on the
      rows: the entity must have been visible at the lookup, and the deletion guard must hold
      again at the batch, before the first operation is found at all. */
  lemma RepeatedDeletionChangesNothing(atLookup: State, atBatch: State, input: DeleteInput, id: Id, first: Id)
    requires Inv(atLookup) && Inv(atBatch) && id !in atBatch.ops
    requires first in atBatch.ops && HasKey(atBatch, first, input.owner, input.key)
    requires first in atLookup.ops ==> SameIdentity(atLookup.ops[first], atBatch.ops[first])
    requires KeyUsed(atLookup, input.owner, input.key) ==> first in atLookup.ops
    ensures var (reply, after) := BeginDelete(atLookup, atBatch, input, id);
            && after == atBatch
            && reply == if first in atLookup.ops then Match(atBatch.ops[first], first, input.hash, Delete)
                        else if !RowActive(atLookup, input.entity) then NotFound
                        else if DeleteGuard(atBatch, input) then Match(atBatch.ops[first], first, input.hash, Delete)
                        else if input.entity.kind == Bot then NotFound
                        else Conflict
  {
    ExistingIsUnique(atBatch, input.owner, input.key, first);
    if first in atLookup.ops {
      ExistingIsUnique(atLookup, input.owner, input.key, first);
    }
  }

  /** So the same request gets the first deletion back if and only if the lookup already
      found it, or the entity has become deletable once more. */
  lemma RepeatedDeletionIsAnswered(atLookup: State, atBatch: State, input: DeleteInput, id: Id, first: Id)
    requires Inv(atLookup) && Inv(atBatch) && id !in atBatch.ops
    requires first in atBatch.ops && HasKey(atBatch, first, input.owner, input.key)
    requires first in atLookup.ops ==> SameIdentity(atLookup.ops[first], atBatch.ops[first])
    requires KeyUsed(atLookup, input.owner, input.key) ==> first in atLookup.ops
    requires atBatch.ops[first].hash == input.hash && atBatch.ops[first].action == Delete
    ensures BeginDelete(atLookup, atBatch, input, id).0 == Answer(first, false) <==>
            first in atLookup.ops || (RowActive(atLookup, input.entity) && DeleteGuard(atBatch, input))
  {
    RepeatedDeletionChangesNothing(atLookup, atBatch, input, id, first);
  }

  /** While the first deletion is under way, its entity is hidden: a repeat that raced past
      the lookup is always refused. */
  lemma RacingDeletionIsRefused(atLookup: State, atBatch: State, input: DeleteInput, id: Id, first: Id)
    requires Inv(atLookup) && Inv(atBatch) && id !in atBatch.ops
    requires first in atBatch.ops && HasKey(atBatch, first, input.owner, input.key)
    requires !KeyUsed(atLookup, input.owner, input.key)
    requires Holding(atBatch.ops[first]) && atBatch.ops[first].entity == input.entity
    ensures BeginDelete(atLookup, atBatch, input, id) ==
            (if !RowActive(atLookup, input.entity) || input.entity.kind == Bot then NotFound else Conflict, atBatch)
  {
    assert first in atLookup.ops ==> HasKey(atLookup, first, atLookup.ops[first].owner, atLookup.ops[first].key);
    ExistingIsUnique(atBatch, input.owner, input.key, first);
    assert !RowActive(atBatch, input.entity);
  }

  /** The deletion race at an input: one world, the same request twice, the second one's
      lookup before the first one's batch. */
  lemma DeletionRaceIsRefused() returns (states: seq<State>, steps: seq<Step>, input: DeleteInput)
    ensures IsRun(states, steps) && Inv(states[0]) && |states| == 2 && steps == [DoBeginDelete(input, "first")]
    ensures BeginDelete(states[0], states[0], input, "first") == (Answer("first", true), states[1])
    ensures BeginDelete(states[0], states[1], input, "second") == (Conflict, states[1])
  {
    var world := EntityKey(World, "w");
    input := DeleteInput("u", "key", "hash", "{}", world);
    var start := State(map[], map[], map[], map[], map[world := Row("u", Visible, false)]);
    steps := [DoBeginDelete(input, "first")];
    var after := Apply(start, steps[0]);
    states := [start, after];
    StepKeepsInv(start, steps[0]);
    assert HasKey(after, "first", "u", "key");
    RacingDeletionIsRefused(start, after, input, "second", "first");
  }

  lemma NoWorkIsValid(rows: map<EntityKey, Row>)
    ensures Inv(State(map[], map[], map[], map[], rows))
  {
  }

  /** The reservation race at an input: the first request's world was created and its account
      then began to go, before the second request reached its batch. */
  lemma ReservationRaceIsRefused() returns (states: seq<State>, steps: seq<Step>, input: CreateInput)
    ensures IsRun(states, steps) && Inv(states[0]) && |states| == 4 && steps[0] == DoReserve(input, "first")
    ensures Reserve(states[0], states[0], input, "first") == (Answer("first", true), states[1])
    ensures Reserve(states[0], states[3], input, "second") == (NotFound, states[3])
    ensures "first" in states[3].ops && states[3].ops["first"].hash == input.hash
  {
    hide Inv;
    var account, world := EntityKey(Account, "u"), EntityKey(World, "w");
    input := CreateInput("u", "key", "hash", "{}", world, [], None, ActiveOwner);
    var deletion := DeleteInput("u", "other", "hash", "{}", account);
    var s0 := State(map[], map[], map[], map[], map[account := Row("u", Visible, false)]);
    NoWorkIsValid(s0.rows);
    var step0, step1, step2 := DoReserve(input, "first"), DoActivate("first", 0), DoBeginDelete(deletion, "bye");
    var s1 := Apply(s0, step0);
    StepKeepsInv(s0, step0);
    assert s1.ops == map["first" := NewCreation(input)];
    var s2 := Apply(s1, step1);
    StepKeepsInv(s1, step1);
    assert s2.ops == map["first" := Finished(NewCreation(input), Terminal, None, 0)] && s2.claims == map[] && s2.rows == s0.rows;
    var s3 := Apply(s2, step2);
    StepKeepsInv(s2, step2);
    states, steps := [s0, s1, s2, s3], [step0, step1, step2];
    assert DeleteGuard(s2, deletion) && !KeyUsed(s2, "u", "other");
    assert s3.ops == s2.ops["bye" := NewDeletion(deletion)];
    assert HasKey(s3, "first", "u", "key");
    assert !KeyUsed(s0, "u", "key") && !GuardHolds(s3, input);
    RepeatedReservationIsIdempotent(s0, s3, input, "second", "first");
  }

  /** A new reservation claims every requested key, all previously free, for itself alone. */
  lemma ReservationClaimsItsKeys(s: State, input: CreateInput, id: Id)
    requires Inv(s) && Enabled(s, DoReserve(input, id))
    requires ReserveBatch(s, input, id).Committed? && GuardHolds(s, input)
    ensures var s' := ReserveBatch(s, input, id).state;
            && (forall k :: k in input.reservations ==> k !in s.claims && k in s'.claims && s'.claims[k] == Claim(input.entity, input.owner, Some(id)))
            && (forall k :: k in s'.claims && k !in input.reservations ==> k in s.claims && s'.claims[k] == s.claims[k])
            && id in s'.ops && s'.ops[id] == NewCreation(input)
            && input.entity in s'.entities && s'.entities[input.entity] == Entity(input.owner, Pending, 1, id)
  {
    ClaimAllAdds(s.claims, input.reservations, Claim(input.entity, input.owner, Some(id)));
  }
}
