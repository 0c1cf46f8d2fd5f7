/** Exactly what a selection issues: which events are listed, suppressed or announced as older,
    stated over the stored events alone, and how a new event reaches its followers. */
module FollowerDigest {
  import opened Outcomes
  import opened Ordering
  import opened FollowerActivity
  import opened FollowerDelivery

  // ---------- Ranks ----------

  /** The actor's events after x, up to a position. */
  function Newer(log: seq<Event>, actor: Id, high: nat, x: nat): set<nat> {
    set e | e in log && e.actor == actor && x < e.sequence <= high :: e.sequence
  }

  lemma NewerBySteps(log: seq<Event>, actor: Id, high: nat, x: nat)
    requires Rising(log) && log != []
    ensures var last, rest := log[|log| - 1], log[..|log| - 1];
            && last.sequence !in Newer(rest, actor, high, x)
            && Newer(log, actor, high, x) ==
               Newer(rest, actor, high, x) + (if last.actor == actor && x < last.sequence <= high then {last.sequence} else {})
  {
    var last, rest := log[|log| - 1], log[..|log| - 1];
    assert forall e :: e in log <==> e in rest || e == last;
  }

  /** The query returns an event exactly when fewer than n of the range are newer. */
  lemma {:induction false} NewestByRank(log: seq<Event>, actor: Id, low: nat, high: nat, n: nat, e: Event)
    requires Rising(log) && e in log && e.actor == actor && low < e.sequence <= high
    ensures e in Newest(log, actor, low, high, n) <==> |Newer(log, actor, high, e.sequence)| < n
    decreases |log|
  {
    var last, rest := log[|log| - 1], log[..|log| - 1];
    NewerBySteps(log, actor, high, e.sequence);
    if e == last {
      assert Newer(rest, actor, high, e.sequence) == {} by {
        assert forall x :: x in rest ==> x.sequence < e.sequence;
      }
    } else {
      assert e in rest;
      var taken := last.actor == actor && low < last.sequence <= high;
      assert e.sequence < last.sequence;
      if n > 0 {
        NewestByRank(rest, actor, low, high, if taken then n - 1 else n, e);
      }
    }
  }

  /** In a falling sequence the events before position k are the newer ones. */
  lemma {:induction false} FallingSize(rows: seq<Event>)
    requires Falling(rows)
    ensures |Sequences(rows)| == |rows|
  {
    if rows == [] {
      assert Sequences(rows) == {};
    } else {
      var rest, last := rows[..|rows| - 1], rows[|rows| - 1];
      FallingSize(rest);
      assert rows == rest + [last];
      assert Sequences(rows) == Sequences(rest) + {last.sequence};
      assert forall x :: x in rest ==> x.sequence > last.sequence;
    }
  }

  // ---------- The rows of a probe ----------

  /** Events the probe owes: beyond the cursor then and now, up to the head it saw. */
  predicate Owed(s: State, probe: Probe, e: Event)
    requires probe.edge in s.edges
  {
    e in s.log && e.actor == probe.edge.followed && s.edges[probe.edge].cursor < e.sequence <= probe.head
  }

  function OwedSequences(s: State, probe: Probe): set<nat>
    requires probe.edge in s.edges
  {
    set e | e in s.log && Owed(s, probe, e) :: e.sequence
  }

  function NewerThan(s: State, probe: Probe, e: Event): set<nat> {
    Newer(s.log, probe.edge.followed, probe.head, e.sequence)
  }

  /** A probe of the current follow: the cursor has not gone back since. */
  predicate Current(s: State, probe: Probe) {
    LogValid(s) && probe.edge in s.edges && probe.cursor <= s.edges[probe.edge].cursor
  }

  lemma RowsByRank(s: State, probe: Probe, e: Event)
    requires Current(s, probe) && e in s.log
    ensures e in Rows(s, probe) <==> Owed(s, probe, e) && |NewerThan(s, probe, e)| < 6
  {
    if Owed(s, probe, e) {
      NewestByRank(s.log, probe.edge.followed, probe.cursor, probe.head, EVENTS_PER_ACTOR, e);
    }
    hide Rising;
  }

  lemma MoreRows(s: State, probe: Probe, e: Event, x: Event)
    requires Current(s, probe) && e in Rows(s, probe) && x in s.log
    requires x.actor == probe.edge.followed && e.sequence < x.sequence <= probe.head
    ensures x in Rows(s, probe)
  {
    RowsByRank(s, probe, e);
    RowsByRank(s, probe, x);
    FewerSequences(NewerThan(s, probe, x), NewerThan(s, probe, e));
    hide Rows;
  }

  lemma {:induction false} FewerSequences(a: set<nat>, b: set<nat>)
    requires a <= b
    ensures |a| <= |b|
    decreases a
  {
    if a != {} {
      var x :| x in a;
      FewerSequences(a - {x}, b - {x});
    }
  }

  /** Position k has exactly k newer events of the probed range. */
  lemma RowRank(s: State, probe: Probe, k: nat)
    requires Current(s, probe) && k < |Rows(s, probe)|
    ensures |NewerThan(s, probe, Rows(s, probe)[k])| == k
  {
    var rows := Rows(s, probe);
    var e := rows[k];
    RowsFall(s, probe);
    FallingSize(rows[..k]);
    assert e in rows;
    assert Sequences(rows[..k]) == NewerThan(s, probe, e) by {
      forall x | x in s.log && x.actor == probe.edge.followed && e.sequence < x.sequence <= probe.head
        ensures x in rows[..k]
      {
        MoreRows(s, probe, e, x);
        var j :| 0 <= j < |rows| && rows[j] == x;
      }
      forall x | x in rows[..k] ensures x in s.log && x.actor == probe.edge.followed && e.sequence < x.sequence <= probe.head {
        assert x in rows;
      }
    }
  }

  lemma ShownByRank(s: State, probe: Probe, e: Event)
    requires Current(s, probe) && e in s.log
    ensures e in Shown(Rows(s, probe)) <==> Owed(s, probe, e) && |NewerThan(s, probe, e)| < 5
  {
    hide Rows, NewerThan, Owed, LogValid;
    var rows := Rows(s, probe);
    RowsByRank(s, probe, e);
    if e in rows {
      var k :| 0 <= k < |rows| && rows[k] == e;
      RowRank(s, probe, k);
      if k < 5 {
        assert Shown(rows)[k] == e;
      } else {
        assert e !in Shown(rows) by {
          if e in Shown(rows) {
            var j :| 0 <= j < |Shown(rows)| && Shown(rows)[j] == e;
            RowRank(s, probe, j);
            assert false;
          }
        }
      }
    } else {
      assert forall x :: x in Shown(rows) ==> x in rows;
    }
  }

  /** Six rows mean six owed events or more. */
  lemma FullMeansMany(s: State, probe: Probe)
    requires Current(s, probe)
    ensures |Rows(s, probe)| == 6 <==> |OwedSequences(s, probe)| >= 6
  {
    var rows := Rows(s, probe);
    RowsFall(s, probe);
    FallingSize(rows);
    assert Sequences(rows) <= OwedSequences(s, probe) by {
      forall e | e in rows ensures Owed(s, probe, e) && e in s.log {
        RowsByRank(s, probe, e);
      }
    }
    FewerSequences(Sequences(rows), OwedSequences(s, probe));
    if |rows| < 6 {
      forall e | e in s.log && Owed(s, probe, e) ensures e in rows {
        RowsLeaveOutOlder(s, probe, e);
      }
      assert Sequences(rows) == OwedSequences(s, probe);
    }
  }

  // ---------- The digest ----------

  /** Everything an issue says, over the stored events. */
  ghost predicate Digests(s: State, probe: Probe, now: int, issue: Issue)
    requires probe.edge in s.edges
  {
    && issue.receipt.edge == probe.edge && issue.receipt.from == probe.cursor
    && issue.receipt.through in OwedSequences(s, probe)
    && (forall x :: x in OwedSequences(s, probe) ==> x <= issue.receipt.through)
    && (issue.omitted <==> |OwedSequences(s, probe)| >= 6)
    && forall e :: e in s.log ==> Digested(s, probe, now, issue, e)
  }

  /** One of the five newest owed events is listed when it can be shown, else suppressed: the
      follower was told directly, the content is unavailable, or it is over two weeks old. */
  predicate Digested(s: State, probe: Probe, now: int, issue: Issue, e: Event)
    requires probe.edge in s.edges
  {
    var newest := Owed(s, probe, e) && |NewerThan(s, probe, e)| < 5;
    var shows := probe.edge.follower !in e.direct && e.source in s.available && e.createdAt >= now - 1_209_600_000;
    && (e.sequence in issue.listed <==> newest && shows)
    && (e.sequence in issue.suppressed <==> newest && !shows)
  }

  /** When a probe is answered at all: something is owed, and neither an inactive bot nor an
      inactive world is among the six newest. */
  ghost predicate Answerable(s: State, probe: Probe)
    requires probe.edge in s.edges
  {
    && OwedSequences(s, probe) != {}
    && forall e :: e in s.log && Owed(s, probe, e) && |NewerThan(s, probe, e)| < 6 ==>
         e.actor in s.active && probe.edge.follower in s.active && e.source !in s.blocked
  }

  lemma RowsAnswer(s: State, probe: Probe)
    requires Current(s, probe)
    ensures Select(s, probe, 0).Some? <==> Answerable(s, probe)
  {
    var rows := Rows(s, probe);
    forall e | e in s.log ensures e in rows <==> Owed(s, probe, e) && |NewerThan(s, probe, e)| < 6 {
      RowsByRank(s, probe, e);
    }
    assert forall e :: e in rows ==> e in s.log;
    if OwedSequences(s, probe) != {} {
      var e :| e in s.log && Owed(s, probe, e);
      RowsLeaveOutOlder(s, probe, e);
      assert rows != [];
    }
    if rows != [] {
      assert rows[0] in rows && rows[0].sequence in OwedSequences(s, probe);
    }
    hide Rows, Rising, Owed, NewerThan;
  }

  lemma AnswerIgnoresTime(s: State, probe: Probe, a: int, b: int)
    ensures Select(s, probe, a).Some? <==> Select(s, probe, b).Some?
  {
  }

  lemma IssueByRows(s: State, probe: Probe, now: int, e: Event)
    requires LogValid(s) && Select(s, probe, now).Some? && e in s.log
    ensures var issue, shown := Select(s, probe, now).value, Shown(Rows(s, probe));
            && (e.sequence in issue.listed <==> e in shown && Showable(s, e, probe.edge.follower, now))
            && (e.sequence in issue.suppressed <==> e in shown && !Showable(s, e, probe.edge.follower, now))
  {
    var shown := Shown(Rows(s, probe));
    assert forall x :: x in shown ==> x in Rows(s, probe);
    forall x | x in s.log && x.sequence == e.sequence ensures x == e {
    }
    hide Rows, Rising, Showable, RowActive;
  }

  lemma ReceiptIsLargest(s: State, probe: Probe)
    requires Current(s, probe) && Rows(s, probe) != []
    ensures Rows(s, probe)[0].sequence in OwedSequences(s, probe)
    ensures forall x :: x in OwedSequences(s, probe) ==> x <= Rows(s, probe)[0].sequence
  {
    var rows := Rows(s, probe);
    assert rows[0] in rows;
    RowsByRank(s, probe, rows[0]);
    RowsFall(s, probe);
    forall e | e in s.log && Owed(s, probe, e) ensures e.sequence <= rows[0].sequence {
      RowsLeaveOutOlder(s, probe, e);
      if e in rows {
        var k :| 0 <= k < |rows| && rows[k] == e;
      }
    }
  }

  /** The main theorem: a probe is answered exactly when it should be, and the answer lists,
      suppresses, announces and covers exactly what it should. */
  lemma SelectionIsExact(s: State, probe: Probe, now: int)
    requires Current(s, probe)
    ensures Select(s, probe, now).Some? <==> Answerable(s, probe)
    ensures Select(s, probe, now).Some? ==> Digests(s, probe, now, Select(s, probe, now).value)
  {
    hide Select, Rows, Owed, NewerThan, OwedSequences, Digested, Answerable, LogValid;
    RowsAnswer(s, probe);
    AnswerIgnoresTime(s, probe, 0, now);
    if Select(s, probe, now).Some? {
      ReceiptIsExact(s, probe, now);
      forall e | e in s.log ensures Digested(s, probe, now, Select(s, probe, now).value, e) {
        EventIsDigested(s, probe, now, e);
      }
    }
  }

  lemma ReceiptIsExact(s: State, probe: Probe, now: int)
    requires Current(s, probe) && Select(s, probe, now).Some?
    ensures var issue := Select(s, probe, now).value;
            && issue.receipt.edge == probe.edge && issue.receipt.from == probe.cursor
            && issue.receipt.through in OwedSequences(s, probe)
            && (forall x :: x in OwedSequences(s, probe) ==> x <= issue.receipt.through)
            && (issue.omitted <==> |OwedSequences(s, probe)| >= 6)
  {
    hide Rows, OwedSequences, RowActive, Listed;
    ReceiptIsLargest(s, probe);
    FullMeansMany(s, probe);
  }

  lemma EventIsDigested(s: State, probe: Probe, now: int, e: Event)
    requires Current(s, probe) && Select(s, probe, now).Some? && e in s.log
    ensures Digested(s, probe, now, Select(s, probe, now).value, e)
  {
    hide Select, Rows, Owed, NewerThan, Shown, Showable;
    IssueByRows(s, probe, now, e);
    ShownByRank(s, probe, e);
    ShowableMeans(s, e, probe.edge.follower, now);
  }

  // ---------- Probes ----------

  /** A follow has something new exactly when both bots are active and the followed one has
      an event beyond the cursor; the probe reaches the newest. */
  lemma ProbeIsExact(s: State, edge: EdgeKey)
    requires LogValid(s)
    ensures ProbeEdge(s, edge).Some? <==>
            && edge in s.edges && edge.follower != edge.followed && edge.follower in s.active && edge.followed in s.active
            && exists e :: e in s.log && e.actor == edge.followed && e.sequence > s.edges[edge].cursor
    ensures ProbeEdge(s, edge).Some? ==>
              var probe := ProbeEdge(s, edge).value;
              && probe.edge == edge && probe.cursor == s.edges[edge].cursor && Current(s, probe)
              && forall e :: e in s.log && e.actor == edge.followed ==> e.sequence <= probe.head
  {
    HeadIsNewest(s.log, edge.followed);
    hide Rising;
  }

  /** A new event reaches a follower: it is probed, and listed first in the digest. */
  lemma NewActivityIsListed(s: State, source: string, actor: Id, createdAt: int, direct: set<Id>, edge: EdgeKey, now: int)
    requires Inv(s) && forall e :: e in s.log ==> e.source != source
    requires edge in s.edges && edge.followed == actor != edge.follower && actor in s.active && edge.follower in s.active
    requires edge.follower !in direct && source in s.available && now - 1_209_600_000 <= createdAt
    requires forall e :: e in s.log + [Event(s.high + 1, source, actor, createdAt, direct)] && e.actor == actor ==> e.source !in s.blocked
    ensures var s' := Insert(s, source, actor, createdAt, direct);
            && ProbeEdge(s', edge).Some?
            && var issue := Select(s', ProbeEdge(s', edge).value, now);
               issue.Some? && issue.value.receipt.through == s.high + 1 && s.high + 1 in issue.value.listed
  {
    hide Inv, LogValid, Delivered, Select, ProbeEdge, Answerable, Owed, NewerThan, OwedSequences;
    var s', e := Insert(s, source, actor, createdAt, direct), Event(s.high + 1, source, actor, createdAt, direct);
    InsertAppends(s, source, actor, createdAt, direct, edge);
    ProbeIsExact(s', edge);
    assert e in s'.log && s'.edges[edge].cursor < e.sequence;
    var probe := ProbeEdge(s', edge).value;
    NewestIsOwed(s', probe, e);
    NothingBlocked(s', probe);
    SelectionIsExact(s', probe, now);
    assert Digested(s', probe, now, Select(s', probe, now).value, e);
  }

  lemma InsertAppends(s: State, source: string, actor: Id, createdAt: int, direct: set<Id>, edge: EdgeKey)
    requires Inv(s) && forall e :: e in s.log ==> e.source != source
    requires edge in s.edges
    ensures var s' := Insert(s, source, actor, createdAt, direct);
            && s' == s.(log := s.log + [Event(s.high + 1, source, actor, createdAt, direct)], high := s.high + 1)
            && LogValid(s') && s.edges[edge].cursor <= s.high
            && forall e :: e in s'.log ==> e.sequence <= s.high + 1
  {
    InsertKeepsInv(s, source, actor, createdAt, direct);
    hide Delivered;
  }

  /** The event with the largest sequence is the newest of what is owed. */
  lemma NewestIsOwed(s: State, probe: Probe, e: Event)
    requires probe.edge in s.edges && e in s.log && e.actor == probe.edge.followed && s.edges[probe.edge].cursor < e.sequence <= probe.head
    requires forall x :: x in s.log ==> x.sequence <= e.sequence
    ensures Owed(s, probe, e) && NewerThan(s, probe, e) == {} && e.sequence in OwedSequences(s, probe)
    ensures forall x :: x in OwedSequences(s, probe) ==> x <= e.sequence
  {
  }

  lemma NothingBlocked(s: State, probe: Probe)
    requires probe.edge in s.edges && OwedSequences(s, probe) != {}
    requires probe.edge.followed in s.active && probe.edge.follower in s.active
    requires forall e :: e in s.log && e.actor == probe.edge.followed ==> e.source !in s.blocked
    ensures Answerable(s, probe)
  {
    hide NewerThan;
  }

  /** A repeated source is not recorded again. */
  lemma RepeatedSourceIsIgnored(s: State, source: string, actor: Id, createdAt: int, direct: set<Id>)
    requires exists e :: e in s.log && e.source == source
    ensures Insert(s, source, actor, createdAt, direct) == s
  {
  }

  /** Acknowledging a digest of the newest probe leaves nothing to probe. */
  lemma AcknowledgedIsQuiet(s: State, edge: EdgeKey, now: int)
    requires Inv(s) && ProbeEdge(s, edge).Some? && Select(s, ProbeEdge(s, edge).value, now).Some?
    ensures ProbeEdge(Acknowledge(s, Select(s, ProbeEdge(s, edge).value, now).value), edge) == None
  {
    var probe := ProbeEdge(s, edge).value;
    ProbeIsExact(s, edge);
    SelectionIsExact(s, probe, now);
    var issue := Select(s, probe, now).value;
    HeadIsNewest(s.log, edge.followed);
    assert probe.head in OwedSequences(s, probe);
    hide Delivered, Select, Head, NewerThan;
  }

  /** A new follow owes nothing of the past. */
  lemma NewFollowIsQuiet(s: State, edge: EdgeKey)
    requires LogValid(s) && edge !in s.edges
    ensures edge in Follow(s, edge).edges && ProbeEdge(Follow(s, edge), edge) == None
    ensures forall other :: other in s.edges ==> other in Follow(s, edge).edges && Follow(s, edge).edges[other] == s.edges[other]
  {
    HeadIsNewest(s.log, edge.followed);
  }

  /** Pruning never takes an event that could still be shown to somebody. */
  lemma PruningKeepsShowable(s: State, removed: set<nat>, now: int, e: Event)
    requires Inv(s) && Enabled(s, DoPrune(removed, now)) && e in s.log
    requires e.source in s.available && e.createdAt >= now - 1_209_600_000
    ensures e in Apply(s, DoPrune(removed, now)).log
  {
  }

  /** Probing and selecting only record what they found, and the surroundings are what they
      were last set to. */
  lemma RecordingSteps(s: State, step: Step)
    requires Enabled(s, step)
    ensures var s' := Apply(s, step);
            && (step.DoProbe? ==> s' == s.(probes := s'.probes) && s'.probes == s.probes + {ProbeEdge(s, step.edge).value})
            && (step.DoSelect? ==> s' == s.(issues := s'.issues))
            && (step.DoSelect? ==> forall issue :: issue in s'.issues <==> issue in s.issues || Select(s, step.probe, step.now) == Some(issue))
            && (step.SetWorld? ==>
                 && s'.active == step.active && s'.present == step.present && s'.available == step.available && s'.blocked == step.blocked
                 && s'.log == s.log && s'.high == s.high && s'.edges == s.edges)
  {
    hide Select, ProbeEdge, Insert, Follow, Acknowledge, Without;
  }
}
