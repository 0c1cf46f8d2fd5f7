/** Over whole runs the delivery cursors lose nothing: every event they pass was listed,
    suppressed for a reason, or older than a digest that says older activity was left out. */
module FollowerDelivery {
  import opened Outcomes
  import opened Ordering
  import opened FollowerActivity

  // ---------- Order ----------

  predicate Rising(log: seq<Event>) {
    forall i, j :: 0 <= i < j < |log| ==> log[i].sequence < log[j].sequence
  }

  predicate Falling(rows: seq<Event>) {
    forall i, j :: 0 <= i < j < |rows| ==> rows[i].sequence > rows[j].sequence
  }

  lemma {:induction false} NewestFalls(log: seq<Event>, actor: Id, low: nat, high: nat, n: nat)
    requires Rising(log)
    ensures Falling(Newest(log, actor, low, high, n))
    decreases |log|
  {
    if log != [] && n > 0 {
      var e, rest := log[|log| - 1], log[..|log| - 1];
      NewestFalls(rest, actor, low, high, n - 1);
      NewestFalls(rest, actor, low, high, n);
      forall x | x in rest ensures x.sequence < e.sequence {
      }
      hide Rising;
    }
  }

  /** A row the query leaves out is older than all of a full answer. */
  lemma {:induction false} NewestLeavesOutOlder(log: seq<Event>, actor: Id, low: nat, high: nat, n: nat, e: Event)
    requires Rising(log) && e in log && e.actor == actor && low < e.sequence <= high
    ensures var r := Newest(log, actor, low, high, n);
            e in r || (|r| == n && forall x :: x in r ==> x.sequence > e.sequence)
    decreases |log|
  {
    if n > 0 {
      var last, rest := log[|log| - 1], log[..|log| - 1];
      if e != last {
        assert e in rest;
        var taken := last.actor == actor && low < last.sequence <= high;
        NewestLeavesOutOlder(rest, actor, low, high, if taken then n - 1 else n, e);
      }
    }
  }

  lemma {:induction false} BeyondFalls(rows: seq<Event>, cursor: nat)
    requires Falling(rows)
    ensures Falling(Beyond(rows, cursor))
  {
    if rows != [] {
      BeyondFalls(rows[1..], cursor);
      forall x | x in rows[1..] ensures x.sequence < rows[0].sequence {
      }
    }
  }

  lemma {:induction false} HeadIsNewest(log: seq<Event>, actor: Id)
    requires Rising(log)
    ensures Head(log, actor).None? ==> forall e :: e in log ==> e.actor != actor
    ensures Head(log, actor).Some? ==> (exists e :: e in log && e.actor == actor && e.sequence == Head(log, actor).value)
    ensures Head(log, actor).Some? ==> forall e :: e in log && e.actor == actor ==> e.sequence <= Head(log, actor).value
    decreases |log|
  {
    if log != [] {
      var last, rest := log[|log| - 1], log[..|log| - 1];
      assert forall e :: e in log ==> e == last || e in rest;
      if last.actor != actor {
        HeadIsNewest(rest, actor);
      } else {
        assert last in log;
      }
    }
  }

  // ---------- Coverage ----------

  /** The digest accounts for this event. */
  predicate Covers(issue: Issue, e: Event) {
    && e.sequence <= issue.receipt.through
    && (e.sequence in issue.listed + issue.suppressed ||
        (issue.omitted && forall x :: x in issue.listed + issue.suppressed ==> e.sequence < x))
  }

  predicate Accounted(s: State, edge: EdgeKey, e: Event) {
    exists issue :: issue in s.acked && issue.receipt.edge == edge && Covers(issue, e)
  }

  predicate Relevant(s: State, edge: EdgeKey, e: Event)
    requires edge in s.edges
  {
    e in s.log && e.actor == edge.followed && s.edges[edge].start < e.sequence
  }

  ghost predicate EdgeDelivered(s: State, edge: EdgeKey)
    requires edge in s.edges
  {
    forall e :: Relevant(s, edge, e) && e.sequence <= s.edges[edge].cursor ==> Accounted(s, edge, e)
  }

  /** Acknowledging this issue would leave nothing below its receipt unaccounted for. */
  ghost predicate IssueReady(s: State, issue: Issue) {
    var edge := issue.receipt.edge;
    issue.receipt.through <= s.high &&
    (edge in s.edges ==>
       forall e :: Relevant(s, edge, e) && e.sequence <= issue.receipt.through ==> Covers(issue, e) || Accounted(s, edge, e))
  }

  predicate DistinctSources(log: seq<Event>) {
    forall i, j :: 0 <= i < j < |log| ==> log[i].source != log[j].source
  }

  predicate LogValid(s: State) {
    && Rising(s.log)
    && (forall e :: e in s.log ==> 0 < e.sequence <= s.high)
    && DistinctSources(s.log)
  }

  predicate CursorsValid(s: State) {
    && (forall edge :: edge in s.edges ==> s.edges[edge].start <= s.edges[edge].cursor <= s.high)
    && (forall p :: p in s.probes ==> p.cursor <= s.high && p.head <= s.high)
    && (forall p :: p in s.probes && p.edge in s.edges ==> p.cursor <= s.edges[p.edge].cursor)
    && s.available <= s.present
  }

  ghost predicate Delivered(s: State) {
    && (forall edge :: edge in s.edges ==> EdgeDelivered(s, edge))
    && (forall issue :: issue in s.issues ==> IssueReady(s, issue))
  }

  ghost predicate Inv(s: State) {
    LogValid(s) && CursorsValid(s) && Delivered(s)
  }

  // ---------- The selection ----------

  lemma RowsFall(s: State, probe: Probe)
    requires LogValid(s)
    ensures Falling(Rows(s, probe))
  {
    if probe.edge in s.edges {
      NewestFalls(s.log, probe.edge.followed, probe.cursor, probe.head, EVENTS_PER_ACTOR);
      BeyondFalls(Newest(s.log, probe.edge.followed, probe.cursor, probe.head, EVENTS_PER_ACTOR), s.edges[probe.edge].cursor);
    }
  }

  /** However far acknowledgements have moved the cursor since the probe, an undelivered
      event of the probed range is a row or is older than six rows. */
  lemma RowsLeaveOutOlder(s: State, probe: Probe, e: Event)
    requires LogValid(s) && probe.edge in s.edges && probe.cursor <= s.edges[probe.edge].cursor
    requires e in s.log && e.actor == probe.edge.followed && s.edges[probe.edge].cursor < e.sequence <= probe.head
    ensures var r := Rows(s, probe);
            e in r || (|r| == EVENTS_PER_ACTOR && forall x :: x in r ==> x.sequence > e.sequence)
  {
    NewestLeavesOutOlder(s.log, probe.edge.followed, probe.cursor, probe.head, EVENTS_PER_ACTOR, e);
  }

  /** An issue accounts for every event between the edge's cursor and its receipt. */
  lemma SelectCovers(s: State, probe: Probe, now: int, e: Event)
    requires LogValid(s) && probe.edge in s.edges && probe.cursor <= s.edges[probe.edge].cursor
    requires Select(s, probe, now).Some?
    requires e in s.log && e.actor == probe.edge.followed
    requires s.edges[probe.edge].cursor < e.sequence <= Select(s, probe, now).value.receipt.through
    ensures Covers(Select(s, probe, now).value, e)
  {
    var rows := Rows(s, probe);
    RowsFall(s, probe);
    RowsLeaveOutOlder(s, probe, e);
    assert rows[0] in rows;
    hide Rows, LogValid, Showable, RowActive;
    ShownCovers(s, rows, probe.edge.follower, now, e);
  }

  lemma ShownCovers(s: State, rows: seq<Event>, follower: Id, now: int, e: Event)
    requires Falling(rows) && |rows| <= EVENTS_PER_ACTOR
    requires e in rows || (|rows| == EVENTS_PER_ACTOR && forall x :: x in rows ==> x.sequence > e.sequence)
    ensures var seen := Sequences(Shown(rows));
            e.sequence in seen || (|rows| == EVENTS_PER_ACTOR && forall x :: x in seen ==> e.sequence < x)
    ensures Sequences(Listed(s, Shown(rows), follower, now)) <= Sequences(Shown(rows))
  {
    if e in rows && e !in Shown(rows) {
      assert e == rows[5];
    }
  }

  /** An event can be shown to a follower who was not told directly, while its content can be
      linked to, for two weeks. */
  lemma ShowableMeans(s: State, e: Event, follower: Id, now: int)
    ensures Showable(s, e, follower, now) <==>
            follower !in e.direct && e.source in s.available && e.createdAt >= now - 14 * 24 * 3_600_000
  {
  }

  /** What is listed can be shown, and what is suppressed cannot: the follower was a direct
      recipient, the content is unavailable, or it has expired. */
  lemma SelectExplains(s: State, probe: Probe, now: int, e: Event)
    requires LogValid(s) && Select(s, probe, now).Some? && e in s.log
    ensures var issue := Select(s, probe, now).value;
            && (e.sequence in issue.listed ==>
                 probe.edge.follower !in e.direct && e.source in s.available && e.createdAt >= now - 1_209_600_000)
            && (e.sequence in issue.suppressed ==>
                 probe.edge.follower in e.direct || e.source !in s.available || e.createdAt < now - 1_209_600_000)
  {
    ShowableMeans(s, e, probe.edge.follower, now);
    var shown := Shown(Rows(s, probe));
    assert forall x :: x in shown ==> x in Rows(s, probe);
    forall x | x in s.log && x.sequence == e.sequence ensures x == e {
    }
    hide Rows, Rising, Showable, RowActive;
  }

  /** A silent receipt never passes an event that could have been shown. */
  lemma SilentCoversNothingShowable(s: State, probe: Probe, now: int, e: Event)
    requires LogValid(s) && probe.edge in s.edges && probe.cursor <= s.edges[probe.edge].cursor
    requires Select(s, probe, now).Some? && Select(s, probe, now).value.Silent()
    requires e in s.log && e.actor == probe.edge.followed
    requires s.edges[probe.edge].cursor < e.sequence <= Select(s, probe, now).value.receipt.through
    ensures probe.edge.follower in e.direct || e.source !in s.available || e.createdAt < now - 1_209_600_000
  {
    SelectCovers(s, probe, now, e);
    SelectExplains(s, probe, now, e);
  }

  // ---------- Every step keeps the invariant ----------

  /** Fewer events, more acknowledgements and unchanged edges disturb no account. */
  lemma DeliveredStays(s: State, s': State)
    requires Delivered(s) && s'.edges == s.edges && s'.issues == s.issues && s'.acked == s.acked && s'.high >= s.high
    requires forall e :: e in s'.log ==> e in s.log || e.sequence > s.high
    requires CursorsValid(s)
    ensures Delivered(s')
  {
    forall edge | edge in s'.edges ensures EdgeDelivered(s', edge) {
      assert EdgeDelivered(s, edge);
      forall e | Relevant(s', edge, e) && e.sequence <= s'.edges[edge].cursor ensures Accounted(s', edge, e) {
        assert Relevant(s, edge, e);
        assert Accounted(s, edge, e);
      }
    }
    forall issue | issue in s'.issues ensures IssueReady(s', issue) {
      assert IssueReady(s, issue);
      var edge := issue.receipt.edge;
      if edge in s'.edges {
        forall e | Relevant(s', edge, e) && e.sequence <= issue.receipt.through
          ensures Covers(issue, e) || Accounted(s', edge, e)
        {
          assert Relevant(s, edge, e);
          assert Covers(issue, e) || Accounted(s, edge, e);
        }
      }
    }
  }

  lemma InsertKeepsInv(s: State, source: string, actor: Id, createdAt: int, direct: set<Id>)
    requires Inv(s)
    ensures Inv(Insert(s, source, actor, createdAt, direct))
  {
    DeliveredStays(s, Insert(s, source, actor, createdAt, direct));
    hide Delivered;
  }

  lemma {:induction false} WithoutKeepsOrder(log: seq<Event>, removed: set<nat>)
    requires Rising(log)
    ensures Rising(Without(log, removed))
  {
    if log != [] {
      var e, rest := log[|log| - 1], log[..|log| - 1];
      WithoutKeepsOrder(rest, removed);
      assert forall x :: x in rest ==> x.sequence < e.sequence;
    }
  }

  lemma {:induction false} WithoutKeepsSources(log: seq<Event>, removed: set<nat>)
    requires DistinctSources(log)
    ensures DistinctSources(Without(log, removed))
  {
    if log != [] {
      var e, rest := log[|log| - 1], log[..|log| - 1];
      assert DistinctSources(rest);
      WithoutKeepsSources(rest, removed);
      var kept := Without(rest, removed);
      forall i | 0 <= i < |kept| ensures kept[i].source != e.source {
        assert kept[i] in rest;
        var k :| 0 <= k < |rest| && rest[k] == kept[i];
        assert log[k].source != log[|log| - 1].source;
      }
      hide Without;
    }
  }

  lemma PruneKeepsInv(s: State, removed: set<nat>)
    requires Inv(s)
    ensures Inv(s.(log := Without(s.log, removed)))
  {
    WithoutKeepsOrder(s.log, removed);
    WithoutKeepsSources(s.log, removed);
    DeliveredStays(s, s.(log := Without(s.log, removed)));
    hide Delivered;
  }

  /** A new follow starts after everything: nothing is owed on it, and no old receipt can
      move its cursor. */
  lemma FollowKeepsInv(s: State, edge: EdgeKey)
    requires Inv(s)
    ensures Inv(Follow(s, edge))
  {
    var s' := Follow(s, edge);
    if edge !in s.edges {
      forall other | other in s'.edges ensures EdgeDelivered(s', other) {
        if other != edge {
          assert EdgeDelivered(s, other);
          OtherEdge(s, s', other);
        }
      }
      forall issue | issue in s'.issues ensures IssueReady(s', issue) {
        assert IssueReady(s, issue);
        if issue.receipt.edge != edge && issue.receipt.edge in s.edges {
          OtherEdge(s, s', issue.receipt.edge);
        }
      }
    }
  }

  lemma OtherEdge(s: State, s': State, edge: EdgeKey)
    requires edge in s.edges && edge in s'.edges && s'.edges[edge] == s.edges[edge]
    requires s'.log == s.log && s'.acked == s.acked
    ensures forall e :: Relevant(s', edge, e) <==> Relevant(s, edge, e)
    ensures forall e :: Accounted(s', edge, e) <==> Accounted(s, edge, e)
  {
    forall e ensures Accounted(s', edge, e) <==> Accounted(s, edge, e) {
    }
  }

  lemma UnfollowKeepsInv(s: State, edge: EdgeKey)
    requires Inv(s)
    ensures Inv(Unfollow(s, edge))
  {
    var s' := Unfollow(s, edge);
    forall other | other in s'.edges ensures EdgeDelivered(s', other) {
      assert EdgeDelivered(s, other);
      OtherEdge(s, s', other);
    }
    forall issue | issue in s'.issues ensures IssueReady(s', issue) {
      assert IssueReady(s, issue);
      if issue.receipt.edge in s'.edges {
        OtherEdge(s, s', issue.receipt.edge);
      }
    }
  }

  lemma ProbeKeepsInv(s: State, edge: EdgeKey)
    requires Inv(s) && ProbeEdge(s, edge).Some?
    ensures Inv(s.(probes := s.probes + {ProbeEdge(s, edge).value}))
  {
    HeadIsNewest(s.log, edge.followed);
    DeliveredStays(s, s.(probes := s.probes + {ProbeEdge(s, edge).value}));
    hide Delivered;
  }

  lemma SelectIsReady(s: State, probe: Probe, now: int)
    requires Inv(s) && probe in s.probes && Select(s, probe, now).Some?
    ensures IssueReady(s, Select(s, probe, now).value)
  {
    var issue := Select(s, probe, now).value;
    assert Rows(s, probe)[0] in Rows(s, probe);
    forall e | Relevant(s, probe.edge, e) && e.sequence <= issue.receipt.through
      ensures Covers(issue, e) || Accounted(s, probe.edge, e)
    {
      if e.sequence > s.edges[probe.edge].cursor {
        SelectCovers(s, probe, now, e);
      } else {
        assert EdgeDelivered(s, probe.edge);
      }
    }
  }

  lemma OneMoreIssue(s: State, issue: Issue)
    requires Delivered(s) && IssueReady(s, issue)
    ensures Delivered(s.(issues := s.issues + {issue}))
  {
    var s' := s.(issues := s.issues + {issue});
    hide Covers;
    forall edge | edge in s'.edges ensures EdgeDelivered(s', edge) {
      assert EdgeDelivered(s, edge);
      OtherEdge(s, s', edge);
    }
    forall i | i in s'.issues ensures IssueReady(s', i) {
      assert IssueReady(s, i);
      if i.receipt.edge in s.edges {
        OtherEdge(s, s', i.receipt.edge);
      }
    }
  }

  lemma TablesStayValid(s: State, issues: set<Issue>)
    requires LogValid(s) && CursorsValid(s)
    ensures LogValid(s.(issues := issues)) && CursorsValid(s.(issues := issues))
  {
  }

  lemma SelectKeepsInv(s: State, probe: Probe, now: int)
    requires Inv(s) && probe in s.probes && Select(s, probe, now).Some?
    ensures Inv(s.(issues := s.issues + {Select(s, probe, now).value}))
  {
    SelectIsReady(s, probe, now);
    TablesStayValid(s, s.issues + {Select(s, probe, now).value});
    hide Select, IssueReady, Delivered, LogValid, CursorsValid;
    OneMoreIssue(s, Select(s, probe, now).value);
  }

  lemma AcknowledgeKeepsInv(s: State, issue: Issue)
    requires Inv(s) && issue in s.issues
    ensures Inv(Acknowledge(s, issue))
  {
    var s' := Acknowledge(s, issue);
    assert IssueReady(s, issue);
    forall edge, e | edge in s.edges && Accounted(s, edge, e) ensures Accounted(s', edge, e) {
      var i :| i in s.acked && i.receipt.edge == edge && Covers(i, e);
      assert i in s'.acked;
    }
    forall e | Covers(issue, e) ensures Accounted(s', issue.receipt.edge, e) {
      assert issue in s'.acked;
    }
    hide Covers, Accounted;
    forall edge | edge in s'.edges ensures EdgeDelivered(s', edge) {
      assert EdgeDelivered(s, edge);
      forall e | Relevant(s', edge, e) && e.sequence <= s'.edges[edge].cursor ensures Accounted(s', edge, e) {
        assert Relevant(s, edge, e);
      }
    }
    forall i | i in s'.issues ensures IssueReady(s', i) {
      assert IssueReady(s, i);
      if i.receipt.edge in s'.edges {
        forall e | Relevant(s', i.receipt.edge, e) && e.sequence <= i.receipt.through
          ensures Covers(i, e) || Accounted(s', i.receipt.edge, e)
        {
          assert Relevant(s, i.receipt.edge, e);
        }
      }
    }
  }

  lemma StepKeepsInv(s: State, step: Step)
    requires Inv(s) && Enabled(s, step)
    ensures Inv(Apply(s, step))
  {
    match step
    case DoInsert(source, actor, createdAt, direct) => InsertKeepsInv(s, source, actor, createdAt, direct);
    case DoFollow(edge) => FollowKeepsInv(s, edge);
    case DoUnfollow(edge) => UnfollowKeepsInv(s, edge);
    case SetWorld(_, _, _, _) =>
      DeliveredStays(s, Apply(s, step));
      hide Delivered;
    case DoProbe(edge) => ProbeKeepsInv(s, edge);
    case DoSelect(probe, now) =>
      hide Inv, Select;
      if Select(s, probe, now).Some? {
        SelectKeepsInv(s, probe, now);
      }
    case DoAcknowledge(issue) => AcknowledgeKeepsInv(s, issue);
    case DoPrune(removed, _) => PruneKeepsInv(s, removed);
  }

  lemma {:induction false} RunsKeepInv(states: seq<State>, steps: seq<Step>, i: nat)
    requires IsRun(states, steps) && Inv(states[0]) && i < |states|
    ensures Inv(states[i])
  {
    if i > 0 {
      RunsKeepInv(states, steps, i - 1);
      StepKeepsInv(states[i - 1], steps[i - 1]);
    }
  }

  lemma InitialIsValid(s: State)
    requires IsInitial(s)
    ensures Inv(s)
  {
    forall edge | edge in s.edges ensures EdgeDelivered(s, edge) {
    }
  }

  // ---------- Nothing is lost ----------

  /** Sequences are never given out twice: an event stored now whose number was already
      taken then was stored then. */
  lemma {:induction false} StoredThen(states: seq<State>, steps: seq<Step>, k: nat, i: nat, e: Event)
    requires IsRun(states, steps) && k <= i < |states| && e in states[i].log && e.sequence <= states[k].high
    ensures e in states[k].log && states[k].high <= states[i].high
    decreases i
  {
    if k < i {
      assert states[i] == Apply(states[i - 1], steps[i - 1]);
      HighGrows(states, steps, k, i - 1);
      StoredThen(states, steps, k, i - 1, e);
    }
  }

  lemma {:induction false} HighGrows(states: seq<State>, steps: seq<Step>, k: nat, i: nat)
    requires IsRun(states, steps) && k <= i < |states|
    ensures states[k].high <= states[i].high
    decreases i
  {
    if k < i {
      assert states[i] == Apply(states[i - 1], steps[i - 1]);
      HighGrows(states, steps, k, i - 1);
    }
  }

  ghost predicate IssuedAt(states: seq<State>, steps: seq<Step>, issue: Issue, k: nat) {
    && k < |steps| && k < |states| && steps[k].DoSelect? && steps[k].probe.edge == issue.receipt.edge
    && Select(states[k], steps[k].probe, steps[k].now) == Some(issue)
  }

  lemma {:induction false} IssuesAreSelected(states: seq<State>, steps: seq<Step>, i: nat, issue: Issue) returns (k: nat)
    requires IsRun(states, steps) && IsInitial(states[0]) && i < |states|
    requires issue in states[i].issues + states[i].acked
    ensures k < i && IssuedAt(states, steps, issue, k)
  {
    assert i > 0;
    assert states[i] == Apply(states[i - 1], steps[i - 1]) && Enabled(states[i - 1], steps[i - 1]);
    if issue in states[i - 1].issues + states[i - 1].acked {
      k := IssuesAreSelected(states, steps, i - 1, issue);
    } else {
      k := i - 1;
    }
  }

  /** The main theorem. An event still stored at or below a cursor was accounted for by an
      acknowledged receipt of that edge: listed when it could be shown, suppressed when it
      could not, or older than a digest that announces older activity. */
  lemma NothingIsLost(states: seq<State>, steps: seq<Step>, i: nat, edge: EdgeKey, e: Event) returns (issue: Issue, k: nat)
    requires IsRun(states, steps) && IsInitial(states[0]) && i < |states|
    requires edge in states[i].edges && e in states[i].log && e.actor == edge.followed
    requires states[i].edges[edge].start < e.sequence <= states[i].edges[edge].cursor
    ensures issue in states[i].acked && issue.receipt.edge == edge && e.sequence <= issue.receipt.through
    ensures k < i && IssuedAt(states, steps, issue, k) && e in states[k].log
    ensures || (e.sequence in issue.listed && edge.follower !in e.direct && e.source in states[k].available &&
                e.createdAt >= steps[k].now - 1_209_600_000)
            || (e.sequence in issue.suppressed && (edge.follower in e.direct || e.source !in states[k].available ||
                                                   e.createdAt < steps[k].now - 1_209_600_000))
            || (issue.omitted && forall x :: x in issue.listed + issue.suppressed ==> e.sequence < x)
  {
    InitialIsValid(states[0]);
    RunsKeepInv(states, steps, i);
    assert EdgeDelivered(states[i], edge) && Relevant(states[i], edge, e);
    issue :| issue in states[i].acked && issue.receipt.edge == edge && Covers(issue, e);
    k := IssuesAreSelected(states, steps, i, issue);
    RunsKeepInv(states, steps, k);
    assert Rows(states[k], steps[k].probe)[0] in Rows(states[k], steps[k].probe);
    StoredThen(states, steps, k, i, e);
    SelectExplains(states[k], steps[k].probe, steps[k].now, e);
  }

  // ---------- Acknowledgement ----------

  function AcknowledgeAll(edges: map<EdgeKey, Edge>, high: nat, receipts: seq<Receipt>): map<EdgeKey, Edge> {
    if receipts == [] then edges
    else AcknowledgeEdges(AcknowledgeAll(edges, high, receipts[..|receipts| - 1]), high, receipts[|receipts| - 1])
  }

  predicate Raises(high: nat, receipts: seq<Receipt>, edge: EdgeKey, to: nat) {
    exists r :: r in receipts && r.edge == edge && r.through == to && to <= high
  }

  /** Late, repeated or reordered receipts only raise each cursor to the maximum. */
  lemma {:induction false} AcknowledgeTakesTheMaximum(edges: map<EdgeKey, Edge>, high: nat, receipts: seq<Receipt>, edge: EdgeKey)
    requires edge in edges
    ensures var after := AcknowledgeAll(edges, high, receipts);
            && after.Keys == edges.Keys && after[edge].start == edges[edge].start
            && (after[edge].cursor == edges[edge].cursor || Raises(high, receipts, edge, after[edge].cursor))
            && after[edge].cursor >= edges[edge].cursor
            && forall r :: r in receipts && r.edge == edge && r.through <= high ==> after[edge].cursor >= r.through
  {
    if receipts != [] {
      var last, rest := receipts[|receipts| - 1], receipts[..|receipts| - 1];
      AcknowledgeTakesTheMaximum(edges, high, rest, edge);
      assert forall r :: r in receipts <==> r in rest || r == last;
      var middle := AcknowledgeAll(edges, high, rest)[edge].cursor;
      if middle != edges[edge].cursor {
        assert Raises(high, rest, edge, middle);
        var r :| r in rest && r.edge == edge && r.through == middle && middle <= high;
        assert r in receipts && Raises(high, receipts, edge, middle);
      }
      if last.edge == edge && last.through <= high {
        assert Raises(high, receipts, edge, last.through);
      }
    }
  }

  /** The result depends only on which receipts arrive, not on their order or number. */
  lemma OrderDoesNotMatter(edges: map<EdgeKey, Edge>, high: nat, a: seq<Receipt>, b: seq<Receipt>)
    requires forall r :: r in a <==> r in b
    ensures AcknowledgeAll(edges, high, a) == AcknowledgeAll(edges, high, b)
  {
    var left, right := AcknowledgeAll(edges, high, a), AcknowledgeAll(edges, high, b);
    forall edge | edge in edges ensures edge in left && edge in right && left[edge] == right[edge] {
      AcknowledgeTakesTheMaximum(edges, high, a, edge);
      AcknowledgeTakesTheMaximum(edges, high, b, edge);
    }
    KeysStay(edges, high, a);
    KeysStay(edges, high, b);
  }

  lemma {:induction false} KeysStay(edges: map<EdgeKey, Edge>, high: nat, receipts: seq<Receipt>)
    ensures AcknowledgeAll(edges, high, receipts).Keys == edges.Keys
  {
    if receipts != [] {
      KeysStay(edges, high, receipts[..|receipts| - 1]);
    }
  }
}
