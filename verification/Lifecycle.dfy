/** The entity lifecycle tables and the effect of each database batch on them.
    A batch is atomic; reads are separate and may be stale when a batch runs. */
module Lifecycle {
  import opened Outcomes

  const RETRY_LIMIT: nat := 8
  const RETRY_DELAY_MS: nat := 5_000
  const KV_RETRY_WINDOW_MS: nat := 3_600_000
  const KV_RETRY_LIMIT: nat := 128
  const KV_RETRY_DELAY_MS: nat := 30_000
  const RETENTION_MS: nat := 30 * 24 * 3_600_000

  // ---------- Rows ----------

  datatype EntityKind = Account | World | Bot
  datatype Action = Create | Delete
  datatype Phase = Pending | Materializing | Active | Deleting | Compensating | Terminal | TerminalFailed
  datatype KvState = Calm | Retrying | Blocked
  datatype Failed = Failed(category: string, code: string)

  type Id = string
  datatype EntityKey = EntityKey(kind: EntityKind, id: Id)

  datatype Op = Op(
    owner: Id, key: string, hash: string, request: Option<string>, result: Option<string>,
    entity: EntityKey, action: Action, phase: Phase, revision: nat, retries: nat,
    kv: KvState, kvCount: nat, kvDeadline: Option<int>, nextRetry: Option<int>,
    failure: Option<Failed>, cleanupAt: Option<int>)

  datatype Entity = Entity(owner: Id, phase: Phase, revision: nat, activeOp: Id)

  datatype KeyKind = ProviderSubject | UserHandle | WorldHandle | BotHandle
  datatype ClaimKey = ClaimKey(kind: KeyKind, scope: string, value: string)

  /** A pending claim names its operation; an active one names none. */
  datatype Claim = Claim(entity: EntityKey, owner: Id, holder: Option<Id>)

  /** The projection that readers see: users_index, worlds_index or bots_index. */
  datatype Visibility = Hidden | Visible | BeingDeleted
  datatype Row = Row(owner: Id, state: Visibility, deleted: bool)

  datatype State = State(
    ops: map<Id, Op>, entities: map<EntityKey, Entity>, claims: map<ClaimKey, Claim>,
    secrets: map<Id, string>, rows: map<EntityKey, Row>)

  predicate Live(op: Op) {
    op.phase != Terminal && op.phase != TerminalFailed
  }

  /** Live, or a creation waiting for an operator. */
  predicate Holding(op: Op) {
    Live(op) || op.kv == Blocked
  }

  predicate RowActive(s: State, key: EntityKey) {
    key in s.rows && s.rows[key].state == Visible && !s.rows[key].deleted
  }

  predicate HasKey(s: State, id: Id, owner: Id, key: string) {
    id in s.ops && s.ops[id].owner == owner && s.ops[id].key == key
  }

  predicate KeyUsed(s: State, owner: Id, key: string) {
    exists id :: id in s.ops && HasKey(s, id, owner, key)
  }

  // ---------- Reserving a creation ----------

  datatype CreateGuard = NoGuard | ActiveOwner | ActiveBotWorld(world: Id)

  datatype CreateInput = CreateInput(
    owner: Id, key: string, hash: string, request: string, entity: EntityKey,
    reservations: seq<ClaimKey>, secret: Option<string>, guard: CreateGuard)

  predicate WorldOpen(s: State, world: Id) {
    var key := EntityKey(World, world);
    RowActive(s, key) && RowActive(s, EntityKey(Account, s.rows[key].owner))
  }

  predicate GuardHolds(s: State, input: CreateInput) {
    match input.guard
    case NoGuard => true
    case ActiveOwner => RowActive(s, EntityKey(Account, input.owner))
    case ActiveBotWorld(world) => RowActive(s, EntityKey(Account, input.owner)) && WorldOpen(s, world)
  }

  function NewCreation(input: CreateInput): Op {
    Op(input.owner, input.key, input.hash, Some(input.request), None, input.entity, Create, Pending, 1, 0,
       Calm, 0, None, None, None, None)
  }

  /** Inserting the reservations one by one; None is a unique-constraint violation. */
  function ClaimAll(claims: map<ClaimKey, Claim>, reservations: seq<ClaimKey>, claim: Claim): Option<map<ClaimKey, Claim>>
    decreases reservations
  {
    if reservations == [] then Some(claims)
    else if reservations[0] in claims then None
    else ClaimAll(claims[reservations[0] := claim], reservations[1..], claim)
  }

  datatype Batch = Committed(state: State) | UniqueViolation

  /** The reservation batch. A failed guard inserts nothing, in any table. */
  function ReserveBatch(s: State, input: CreateInput, id: Id): Batch {
    if !GuardHolds(s, input) then Committed(s)
    else if KeyUsed(s, input.owner, input.key) || input.entity in s.entities then UniqueViolation
    else
      match ClaimAll(s.claims, input.reservations, Claim(input.entity, input.owner, Some(id)))
      case None => UniqueViolation
      case Some(claims) =>
        Committed(s.(
          ops := s.ops[id := NewCreation(input)],
          entities := s.entities[input.entity := Entity(input.owner, Pending, 1, id)],
          claims := claims,
          secrets := if input.secret.Some? then s.secrets[id := input.secret.value] else s.secrets))
  }

  // ---------- Beginning a deletion ----------

  datatype DeleteInput = DeleteInput(owner: Id, key: string, hash: string, request: string, entity: EntityKey)

  /** No claim on a participant handle in this world. */
  predicate WorldUnclaimed(s: State, world: Id) {
    forall k :: k in s.claims ==> !(k.kind == BotHandle && k.scope == world)
  }

  predicate InWorldOf(s: State, k: ClaimKey, owner: Id) {
    var world := EntityKey(World, k.scope);
    k.kind == BotHandle && world in s.rows && s.rows[world].owner == owner
  }

  predicate NoForeignClaims(s: State, owner: Id) {
    forall k | k in s.claims && InWorldOf(s, k, owner) :: s.claims[k].owner == owner
  }

  predicate OwnerIdle(s: State, owner: Id) {
    forall id :: id in s.ops && s.ops[id].owner == owner ==> !Holding(s.ops[id])
  }

  predicate DeleteGuard(s: State, input: DeleteInput) {
    RowActive(s, input.entity) &&
    match input.entity.kind
    case Account => OwnerIdle(s, input.owner) && NoForeignClaims(s, input.owner)
    case World => WorldUnclaimed(s, input.entity.id)
    case Bot => true
  }

  function NewDeletion(input: DeleteInput): Op {
    Op(input.owner, input.key, input.hash, Some(input.request), None, input.entity, Delete, Deleting, 1, 0,
       Calm, 0, None, None, None, None)
  }

  /** UPDATE of an index row that is not deleted. */
  function RowSet(rows: map<EntityKey, Row>, key: EntityKey, state: Visibility): map<EntityKey, Row> {
    if key in rows && !rows[key].deleted then rows[key := rows[key].(state := state)] else rows
  }

  /** Insert the entity row as deleting, or take it over when the owner is the same. */
  function EntityTaken(entities: map<EntityKey, Entity>, input: DeleteInput, id: Id): map<EntityKey, Entity> {
    if input.entity !in entities then entities[input.entity := Entity(input.owner, Deleting, 1, id)]
    else
      var e := entities[input.entity];
      if e.owner != input.owner then entities
      else entities[input.entity := e.(phase := Deleting, revision := e.revision + 1, activeOp := id)]
  }

  function DeleteBatch(s: State, input: DeleteInput, id: Id): Batch {
    if !DeleteGuard(s, input) then Committed(s)
    else if KeyUsed(s, input.owner, input.key) then UniqueViolation
    else Committed(s.(ops := s.ops[id := NewDeletion(input)],
                      entities := EntityTaken(s.entities, input, id),
                      rows := RowSet(s.rows, input.entity, BeingDeleted)))
  }

  // ---------- Moving an operation ----------

  /** UPDATE of one operation row, and of its entity row while that names the operation. */
  function EntityMoved(entities: map<EntityKey, Entity>, key: EntityKey, id: Id, phase: Phase): map<EntityKey, Entity> {
    if key in entities && entities[key].activeOp == id
    then entities[key := entities[key].(phase := phase, revision := entities[key].revision + 1)]
    else entities
  }

  function MoveEntity(s: State, key: EntityKey, id: Id, phase: Phase): State {
    s.(entities := EntityMoved(s.entities, key, id, phase))
  }

  function SetOp(s: State, id: Id, op: Op): State {
    s.(ops := s.ops[id := op])
  }

  function Materialize(s: State, id: Id, seen: Op): State {
    if id !in s.ops || seen.phase != Pending then s
    else
      var op := s.ops[id];
      var s1 := if op.phase == Pending then SetOp(s, id, op.(phase := Materializing, revision := op.revision + 1)) else s;
      if op.entity in s1.entities && s1.entities[op.entity].phase == Pending
      then MoveEntity(s1, op.entity, id, Materializing) else s1
  }

  function Finished(op: Op, phase: Phase, result: Option<string>, now: int): Op {
    op.(phase := phase, revision := op.revision + 1, request := None, result := result, nextRetry := None,
        failure := None, cleanupAt := Some(now + RETENTION_MS))
  }

  function ActivateClaims(claims: map<ClaimKey, Claim>, id: Id): map<ClaimKey, Claim> {
    map k | k in claims :: if claims[k].holder == Some(id) then claims[k].(holder := None) else claims[k]
  }

  /** The activation batch. Its claim and index statements do not look at the phase. */
  function Activate(s: State, id: Id, now: int): State
    requires id in s.ops
  {
    var op := s.ops[id];
    State(
      if op.action == Create && op.phase in {Pending, Materializing, Active}
        then s.ops[id := Finished(op, Terminal, op.result, now)] else s.ops,
      if op.entity in s.entities && s.entities[op.entity].phase in {Pending, Materializing}
        then EntityMoved(s.entities, op.entity, id, Active) else s.entities,
      ActivateClaims(s.claims, id),
      s.secrets - {id},
      RowSet(s.rows, op.entity, Visible))
  }

  function DropClaims(claims: map<ClaimKey, Claim>, entity: EntityKey): map<ClaimKey, Claim> {
    map k | k in claims && claims[k].entity != entity :: claims[k]
  }

  function EntityDropped(entities: map<EntityKey, Entity>, key: EntityKey, id: Id): map<EntityKey, Entity> {
    if key in entities && entities[key].activeOp == id then entities - {key} else entities
  }

  function FinishDeletion(s: State, id: Id, result: Option<string>, now: int): State
    requires id in s.ops
  {
    var op := s.ops[id];
    State(
      if op.action == Delete && op.phase in {Deleting, Compensating}
        then s.ops[id := Finished(op, Terminal, result, now)] else s.ops,
      EntityDropped(s.entities, op.entity, id),
      DropClaims(s.claims, op.entity),
      s.secrets - {id},
      s.rows)
  }

  function AbortDeletion(s: State, id: Id, failure: Failed, now: int): State
    requires id in s.ops
  {
    var op := s.ops[id];
    State(
      if op.action == Delete && Live(op)
        then s.ops[id := Finished(op, TerminalFailed, op.result, now).(failure := Some(failure))] else s.ops,
      EntityMoved(s.entities, op.entity, id, Active),
      s.claims,
      s.secrets,
      RowSet(s.rows, op.entity, Visible))
  }

  function Retried(op: Op, seen: Op, failure: Failed, now: int): Op {
    var exhausted := seen.retries + 1 >= RETRY_LIMIT;
    op.(phase := RetryPhase(seen), revision := op.revision + 1, retries := seen.retries + 1,
        nextRetry := if exhausted then None else Some(now + RETRY_DELAY_MS),
        failure := Some(Failed(if exhausted then "retry_exhausted" else failure.category, failure.code)))
  }

  function RetryPhase(seen: Op): Phase {
    if seen.retries + 1 >= RETRY_LIMIT then Compensating else if seen.action == Create then Materializing else Deleting
  }

  /** A retryable failure; `seen` is the row as its caller last read it. */
  function Retry(s: State, id: Id, seen: Op, failure: Failed, now: int): State {
    if id !in s.ops || !Live(s.ops[id]) then s
    else MoveEntity(SetOp(s, id, Retried(s.ops[id], seen, failure, now)), seen.entity, id, RetryPhase(seen))
  }

  function Earlier(a: int, b: int): int {
    if a < b then a else b
  }

  function KvDeadline(seen: Op, now: int): int {
    if seen.kvDeadline.Some? then seen.kvDeadline.value else now + KV_RETRY_WINDOW_MS
  }

  predicate KvExhausted(seen: Op, now: int) {
    seen.kvCount + 1 >= KV_RETRY_LIMIT || now >= KvDeadline(seen, now)
  }

  /** The operation row after a recorded KV failure. */
  function KvFailed(op: Op, seen: Op, failure: Failed, now: int): Op {
    var deadline := KvDeadline(seen, now);
    if KvExhausted(seen, now)
    then op.(phase := TerminalFailed, revision := op.revision + 1, kv := Blocked, kvCount := seen.kvCount + 1,
             kvDeadline := Some(deadline), nextRetry := None,
             failure := Some(Failed("retry_exhausted", failure.code)), cleanupAt := None)
    else op.(phase := Materializing, revision := op.revision + 1, kv := Retrying, kvCount := seen.kvCount + 1,
             kvDeadline := Some(deadline), nextRetry := Some(Earlier(deadline, now + KV_RETRY_DELAY_MS)),
             failure := Some(failure), cleanupAt := None)
  }

  /** Revision-fenced. The entity statement looks only for the row one revision ahead of
      what was seen, in the target phase. */
  function KvFailure(s: State, id: Id, seen: Op, failure: Failed, now: int): State {
    var phase := if KvExhausted(seen, now) then TerminalFailed else Materializing;
    var s1 := if id in s.ops && s.ops[id].revision == seen.revision && s.ops[id].phase in {Pending, Materializing}
              then SetOp(s, id, KvFailed(s.ops[id], seen, failure, now)) else s;
    if id in s1.ops && s1.ops[id].revision == seen.revision + 1 && s1.ops[id].phase == phase && seen.entity.kind == Bot
    then MoveEntity(s1, seen.entity, id, phase) else s1
  }

  function Resolved(op: Op, resume: bool, now: int): Op {
    op.(phase := if resume then Materializing else Compensating, revision := op.revision + 1,
        kv := Calm, kvCount := 0, kvDeadline := None, nextRetry := if resume then Some(now) else None, cleanupAt := None)
  }

  /** An operator resumes or cancels a blocked creation; resuming needs an active account. */
  function Resolve(s: State, id: Id, seen: Op, resume: bool, revision: nat, now: int): State {
    var phase := if resume then Materializing else Compensating;
    var s1 := if id in s.ops && s.ops[id].owner == seen.owner && s.ops[id].revision == revision && s.ops[id].kv == Blocked
                 && (!resume || RowActive(s, EntityKey(Account, seen.owner)))
              then SetOp(s, id, Resolved(s.ops[id], resume, now)) else s;
    if id in s1.ops && s1.ops[id].revision == revision + 1 && s1.ops[id].phase == phase && seen.entity.kind == Bot
    then MoveEntity(s1, seen.entity, id, phase) else s1
  }

  function Progressed(op: Op, counts: bool, code: string, now: int): Op {
    op.(phase := Deleting, revision := op.revision + 1, retries := op.retries + if counts then 1 else 0,
        nextRetry := Some(now + RETRY_DELAY_MS), failure := Some(Failed("external_retryable", code)))
  }

  function AccountProgress(s: State, id: Id, seen: Op, counts: bool, code: string, now: int): State {
    if id !in s.ops || !Live(s.ops[id]) || s.ops[id].entity.kind != Account || s.ops[id].action != Delete then s
    else MoveEntity(SetOp(s, id, Progressed(s.ops[id], counts, code, now)), seen.entity, id, Deleting)
  }

  function Compensated(op: Op, failure: Failed): Op {
    op.(phase := Compensating, revision := op.revision + 1, nextRetry := None, failure := Some(failure))
  }

  function BeginCompensation(s: State, id: Id, seen: Op, failure: Failed): State {
    if seen.phase == TerminalFailed || id !in s.ops || !Live(s.ops[id]) then s
    else MoveEntity(SetOp(s, id, Compensated(s.ops[id], failure)), seen.entity, id, Compensating)
  }

  function ReleaseClaims(claims: map<ClaimKey, Claim>, id: Id): map<ClaimKey, Claim> {
    map k | k in claims && claims[k].holder != Some(id) :: claims[k]
  }

  /** Joined cleanup statement: an unfinished projection row goes, a visible one stays. */
  function HiddenRowDropped(rows: map<EntityKey, Row>, key: EntityKey): map<EntityKey, Row> {
    if key in rows && rows[key].state != Visible then rows - {key} else rows
  }

  function FinishCompensation(s: State, id: Id, cleanup: bool, now: int): State
    requires id in s.ops
  {
    var op := s.ops[id];
    State(
      if op.phase == Compensating
        then s.ops[id := Finished(op, TerminalFailed, op.result, now).(failure := op.failure)] else s.ops,
      EntityDropped(s.entities, op.entity, id),
      ReleaseClaims(s.claims, id),
      s.secrets - {id},
      if cleanup then HiddenRowDropped(s.rows, op.entity) else s.rows)
  }

  /** Retention cleanup of chosen expired operations, with its cascades. */
  predicate Expired(op: Op, now: int) {
    op.kv != Blocked && op.cleanupAt.Some? && op.cleanupAt.value <= now
  }

  function Cleanup(s: State, ids: set<Id>): State {
    s.(ops := s.ops - ids,
       claims := (map k | k in s.claims && !(s.claims[k].holder.Some? && s.claims[k].holder.value in ids) :: s.claims[k]),
       secrets := s.secrets - ids)
  }

  // ---------- Projections written by materialization and deletion ----------

  function Project(s: State, id: Id): State
    requires id in s.ops
  {
    s.(rows := s.rows[s.ops[id].entity := Row(s.ops[id].owner, Hidden, false)])
  }

  function Tombstone(s: State, id: Id): State
    requires id in s.ops
  {
    var key := s.ops[id].entity;
    if key in s.rows then s.(rows := s.rows[key := s.rows[key].(deleted := true)]) else s
  }
}
