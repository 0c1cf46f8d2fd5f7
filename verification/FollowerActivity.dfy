/** Activity of followed profiles: one event log, a delivery cursor per follow edge, and a
    selection that probes the edges first and reads the events later. */
module FollowerActivity {
  import opened Outcomes
  import opened Ordering

  const EVENTS_PER_ACTOR: nat := 6
  const SHOWN_PER_ACTOR: nat := 5
  const LIFETIME_MS: int := 14 * 24 * 3_600_000

  datatype Event = Event(sequence: nat, source: string, actor: Id, createdAt: int, direct: set<Id>)

  /** `start` is history: the cursor the follow began with. */
  datatype Edge = Edge(start: nat, cursor: nat)
  datatype EdgeKey = EdgeKey(follower: Id, followed: Id)

  /** An edge whose newest event lay beyond its cursor when it was probed. */
  datatype Probe = Probe(edge: EdgeKey, cursor: nat, head: nat)
  datatype Receipt = Receipt(edge: EdgeKey, from: nat, through: nat)

  /** A receipt with the digest it stands for: the events listed, and whether older ones
      were admittedly left out. A silent receipt has no digest. `suppressed` is history. */
  datatype Issue = Issue(receipt: Receipt, listed: set<nat>, suppressed: set<nat>, omitted: bool) {
    predicate Silent() {
      listed == {} && !omitted
    }
  }

  /** `log` is ordered by sequence; `high` is the last sequence given out. A bot is active
      when it and its owner are; a source is available when it can be linked to, present
      when its content still exists, and blocked while its world is not active. `probes`,
      `issues` and `acked` are history. */
  datatype State = State(
    log: seq<Event>, high: nat, edges: map<EdgeKey, Edge>,
    active: set<Id>, present: set<string>, available: set<string>, blocked: set<string>,
    probes: set<Probe>, issues: set<Issue>, acked: set<Issue>)

  // ---------- The two queries ----------

  /** The newest events of the actor in (low, high], newest first, at most n. */
  function Newest(log: seq<Event>, actor: Id, low: nat, high: nat, n: nat): (r: seq<Event>)
    ensures |r| <= n
    ensures forall e :: e in r ==> e in log && e.actor == actor && low < e.sequence <= high
    decreases |log|
  {
    if log == [] || n == 0 then []
    else
      var e, rest := log[|log| - 1], log[..|log| - 1];
      if e.actor == actor && low < e.sequence <= high then [e] + Newest(rest, actor, low, high, n - 1)
      else Newest(rest, actor, low, high, n)
  }

  /** The actor's newest event, if any is still stored. */
  function Head(log: seq<Event>, actor: Id): Option<nat> {
    if log == [] then None
    else if log[|log| - 1].actor == actor then Some(log[|log| - 1].sequence)
    else Head(log[..|log| - 1], actor)
  }

  function Beyond(rows: seq<Event>, cursor: nat): (r: seq<Event>)
    ensures forall e :: e in r <==> e in rows && e.sequence > cursor
    ensures |r| <= |rows| && ((forall e :: e in rows ==> e.sequence > cursor) ==> r == rows)
  {
    if rows == [] then []
    else (if rows[0].sequence > cursor then [rows[0]] else []) + Beyond(rows[1..], cursor)
  }

  /** The probe query and its filter, for one edge. */
  function ProbeEdge(s: State, edge: EdgeKey): Option<Probe> {
    if edge !in s.edges || edge.follower == edge.followed
       || edge.follower !in s.active || edge.followed !in s.active then None
    else
      var head := Head(s.log, edge.followed);
      if head.Some? && head.value > s.edges[edge].cursor then Some(Probe(edge, s.edges[edge].cursor, head.value)) else None
  }

  /** The events query for one probe: six rows of the probed range, less what the edge's
      cursor has passed since. */
  function Rows(s: State, probe: Probe): (r: seq<Event>)
    ensures |r| <= EVENTS_PER_ACTOR
    ensures forall e :: e in r ==> e in s.log && e.actor == probe.edge.followed && e.sequence <= probe.head
  {
    if probe.edge !in s.edges then []
    else Beyond(Newest(s.log, probe.edge.followed, probe.cursor, probe.head, EVENTS_PER_ACTOR), s.edges[probe.edge].cursor)
  }

  predicate RowActive(s: State, e: Event, follower: Id) {
    e.actor in s.active && follower in s.active && e.source !in s.blocked
  }

  predicate Showable(s: State, e: Event, follower: Id, now: int) {
    follower !in e.direct && e.source in s.available && e.createdAt >= now - LIFETIME_MS
  }

  function Listed(s: State, rows: seq<Event>, follower: Id, now: int): (r: seq<Event>)
    ensures forall e :: e in r <==> e in rows && Showable(s, e, follower, now)
  {
    if rows == [] then []
    else
      var listed, row := Listed(s, rows[..|rows| - 1], follower, now), rows[|rows| - 1];
      if Showable(s, row, follower, now) then listed + [row] else listed
  }

  function Shown(rows: seq<Event>): seq<Event> {
    if |rows| <= SHOWN_PER_ACTOR then rows else rows[..SHOWN_PER_ACTOR]
  }

  function Sequences(rows: seq<Event>): set<nat> {
    set e | e in rows :: e.sequence
  }

  /** What the selection issues for one chosen probe. */
  function Select(s: State, probe: Probe, now: int): Option<Issue> {
    var rows := Rows(s, probe);
    if rows == [] || exists e :: e in rows && !RowActive(s, e, probe.edge.follower) then None
    else
      var listed := Sequences(Listed(s, Shown(rows), probe.edge.follower, now));
      Some(Issue(Receipt(probe.edge, probe.cursor, rows[0].sequence), listed,
                 Sequences(Shown(rows)) - listed, |rows| == EVENTS_PER_ACTOR))
  }

  // ---------- Writes ----------

  function Insert(s: State, source: string, actor: Id, createdAt: int, direct: set<Id>): State {
    if exists e :: e in s.log && e.source == source then s
    else s.(log := s.log + [Event(s.high + 1, source, actor, createdAt, direct)], high := s.high + 1)
  }

  function Follow(s: State, edge: EdgeKey): State {
    if edge in s.edges then s else s.(edges := s.edges[edge := Edge(s.high, s.high)])
  }

  function Unfollow(s: State, edge: EdgeKey): State {
    s.(edges := s.edges - {edge})
  }

  function AcknowledgeEdges(edges: map<EdgeKey, Edge>, high: nat, receipt: Receipt): map<EdgeKey, Edge> {
    if receipt.edge in edges && edges[receipt.edge].cursor < receipt.through <= high
    then edges[receipt.edge := edges[receipt.edge].(cursor := receipt.through)] else edges
  }

  function Acknowledge(s: State, issue: Issue): State {
    s.(edges := AcknowledgeEdges(s.edges, s.high, issue.receipt), acked := s.acked + {issue})
  }

  function Without(log: seq<Event>, removed: set<nat>): (r: seq<Event>)
    ensures forall e :: e in r <==> e in log && e.sequence !in removed
  {
    if log == [] then []
    else
      var kept, e := Without(log[..|log| - 1], removed), log[|log| - 1];
      if e.sequence in removed then kept else kept + [e]
  }

  // ---------- Steps ----------

  datatype Step =
    | DoInsert(source: string, actor: Id, createdAt: int, direct: set<Id>)
    | DoFollow(edge: EdgeKey)
    | DoUnfollow(edge: EdgeKey)
    | SetWorld(active: set<Id>, present: set<string>, available: set<string>, blocked: set<string>)
    | DoProbe(edge: EdgeKey)
    | DoSelect(probe: Probe, now: int)
    | DoAcknowledge(issue: Issue)
    | DoPrune(removed: set<nat>, now: int)

  /** Receipts come from a selection, selections from an earlier probe. Pruning removes only
      expired events and events whose content is gone. */
  predicate Enabled(s: State, step: Step) {
    match step
    case SetWorld(_, present, available, _) => available <= present
    case DoProbe(edge) => ProbeEdge(s, edge).Some?
    case DoSelect(probe, _) => probe in s.probes
    case DoAcknowledge(issue) => issue in s.issues
    case DoPrune(removed, now) =>
      forall e :: e in s.log && e.sequence in removed ==> e.createdAt < now - LIFETIME_MS || e.source !in s.present
    case _ => true
  }

  function Apply(s: State, step: Step): State
    requires Enabled(s, step)
  {
    match step
    case DoInsert(source, actor, createdAt, direct) => Insert(s, source, actor, createdAt, direct)
    case DoFollow(edge) => Follow(s, edge)
    case DoUnfollow(edge) => Unfollow(s, edge)
    case SetWorld(active, present, available, blocked) =>
      s.(active := active, present := present, available := available, blocked := blocked)
    case DoProbe(edge) => s.(probes := s.probes + {ProbeEdge(s, edge).value})
    case DoSelect(probe, now) =>
      var issue := Select(s, probe, now);
      if issue.None? then s else s.(issues := s.issues + {issue.value})
    case DoAcknowledge(issue) => Acknowledge(s, issue)
    case DoPrune(removed, _) => s.(log := Without(s.log, removed))
  }

  ghost predicate IsRun(states: seq<State>, steps: seq<Step>) {
    && |states| == |steps| + 1
    && forall i :: 0 <= i < |steps| ==> Enabled(states[i], steps[i]) && states[i + 1] == Apply(states[i], steps[i])
  }

  predicate IsInitial(s: State) {
    && s.log == [] && s.probes == {} && s.issues == {} && s.acked == {} && s.available <= s.present
    && forall edge :: edge in s.edges ==> s.edges[edge] == Edge(0, 0)
  }
}
