/** The activity tables as the program uses them: the probing loop, the grouping of rows
    into digests, acknowledgement and pruning. */
module FollowerStore {
  import opened Outcomes
  import opened Ordering
  import opened FollowerActivity
  import opened FollowerDelivery
  import opened Retention

  const MAX_PROBES: nat := 500
  const MAX_ACTORS: nat := 50
  const SWEEP_PAGE: nat := 500

  datatype Probing = Probing(chosen: seq<Probe>, nextAfter: Id, hasMore: bool)

  function Elements(chosen: seq<Probe>): set<Probe> {
    set c | c in chosen
  }

  /** The profiles a bot follows, beyond a position. */
  function Followed(edges: map<EdgeKey, Edge>, follower: Id, after: Id): set<Id> {
    set edge | edge in edges && edge.follower == follower && edge.followed > after :: edge.followed
  }

  /** Those of the examined profiles that have something new. */
  function Pending(s: State, follower: Id, examined: seq<Id>): (r: seq<Probe>)
    ensures forall f :: f in examined && ProbeEdge(s, EdgeKey(follower, f)).Some? ==> ProbeEdge(s, EdgeKey(follower, f)).value in r
    ensures forall p :: p in r ==> p.edge.follower == follower && p.edge.followed in examined && ProbeEdge(s, p.edge) == Some(p)
  {
    if examined == [] then []
    else
      var pending, last := Pending(s, follower, examined[..|examined| - 1]), ProbeEdge(s, EdgeKey(follower, examined[|examined| - 1]));
      if last.Some? then pending + [last.value] else pending
  }

  /** All rows of the events query, actor by actor. */
  function AllRows(s: State, chosen: seq<Probe>): seq<Event> {
    if chosen == [] then [] else AllRows(s, chosen[..|chosen| - 1]) + Rows(s, chosen[|chosen| - 1])
  }

  function OfActor(rows: seq<Event>, actor: Id): (r: seq<Event>)
    ensures forall e :: e in r <==> e in rows && e.actor == actor
  {
    if rows == [] then []
    else
      var own, last := OfActor(rows[..|rows| - 1], actor), rows[|rows| - 1];
      if last.actor == actor then own + [last] else own
  }

  /** The issues with a digest, or the silent ones, of the chosen probes in order. */
  function Digests(s: State, chosen: seq<Probe>, now: int, silent: bool): seq<Issue> {
    if chosen == [] then []
    else Appended(Digests(s, chosen[..|chosen| - 1], now, silent), Select(s, chosen[|chosen| - 1], now), silent)
  }

  function Appended(issues: seq<Issue>, issue: Option<Issue>, silent: bool): seq<Issue> {
    if issue.Some? && issue.value.Silent() == silent then issues + [issue.value] else issues
  }

  /** Notices are the issues that list or announce something, silent receipts those that do
      neither; both come from the chosen probes and from nothing else. */
  lemma {:induction false} DigestsAreTheIssues(s: State, chosen: seq<Probe>, now: int, issue: Issue)
    ensures issue in Digests(s, chosen, now, false) <==>
            (issue.listed != {} || issue.omitted) && exists c :: c in chosen && Select(s, c, now) == Some(issue)
    ensures issue in Digests(s, chosen, now, true) <==>
            issue.listed == {} && !issue.omitted && exists c :: c in chosen && Select(s, c, now) == Some(issue)
  {
    hide Select;
    if chosen != [] {
      var rest, last := chosen[..|chosen| - 1], chosen[|chosen| - 1];
      DigestsAreTheIssues(s, rest, now, issue);
      assert forall c :: c in chosen <==> c in rest || c == last;
    }
  }

  predicate DistinctActors(chosen: seq<Probe>) {
    forall i, j :: 0 <= i < j < |chosen| ==> chosen[i].edge.followed != chosen[j].edge.followed
  }

  /** The chosen probes are those of every follow up to the position to continue from, and
      of every follow there is when the page says that nothing is left. */
  ghost predicate ProbesAll(s: State, follower: Id, after: Id, p: Probing) {
    && (p.hasMore <==> p.nextAfter != 0) && (p.hasMore ==> p.nextAfter > after)
    && (forall c :: c in p.chosen ==> c.edge.follower == follower && ProbeEdge(s, c.edge) == Some(c))
    && (forall edge :: edge in s.edges && edge.follower == follower && edge.followed > after && (!p.hasMore || edge.followed <= p.nextAfter) ==>
         Chosen(s, follower, edge.followed, p.chosen))
  }

  predicate Chosen(s: State, follower: Id, f: Id, chosen: seq<Probe>) {
    var probe := ProbeEdge(s, EdgeKey(follower, f));
    probe.Some? ==> probe.value in chosen
  }

  lemma PageProbesAll(s: State, follower: Id, after: Id, limit: nat, examined: nat, chosen: seq<Probe>, p: Probing)
    requires var page := First(Ascending(Followed(s.edges, follower, after)), limit);
             && limit > 0 && examined <= |page| && (page != [] ==> examined > 0)
             && chosen == Pending(s, follower, page[..examined])
             && p.hasMore == (examined < |page| || |page| == limit)
             && p == Probing(chosen, if p.hasMore then page[examined - 1] else 0, p.hasMore)
    ensures ProbesAll(s, follower, after, p)
  {
    PageIsBeyond(s.edges, follower, after, limit, examined);
    hide ProbeEdge;
    forall f | f in Followed(s.edges, follower, after) && (!p.hasMore || f <= p.nextAfter)
      ensures Chosen(s, follower, f, chosen)
    {
      ExaminedIsChosen(s, follower, Ascending(Followed(s.edges, follower, after)), limit, examined, f);
    }
    assert forall edge :: edge in s.edges && edge.follower == follower && edge.followed > after ==> edge.followed in Followed(s.edges, follower, after);
    hide Chosen, Followed, First, Pending, Ascending;
  }

  lemma PageIsBeyond(edges: map<EdgeKey, Edge>, follower: Id, after: Id, limit: nat, examined: nat)
    requires 0 < examined <= |First(Ascending(Followed(edges, follower, after)), limit)| || examined == 0
    ensures examined > 0 ==> First(Ascending(Followed(edges, follower, after)), limit)[examined - 1] > after
  {
    var all := Ascending(Followed(edges, follower, after));
    assert examined > 0 ==> First(all, limit)[examined - 1] in all;
  }

  lemma ExaminedIsChosen(s: State, follower: Id, all: seq<Id>, limit: nat, examined: nat, f: Id)
    requires limit > 0 && Sorted(all) && examined <= |First(all, limit)| && f in all
    requires examined == |First(all, limit)| < limit || (examined > 0 && f <= First(all, limit)[examined - 1])
    ensures Chosen(s, follower, f, Pending(s, follower, First(all, limit)[..examined]))
  {
    hide ProbeEdge, Pending;
    PageCovers(all, limit, examined);
  }

  /** The examined part of a page is everything up to its last identifier, and everything
      when nothing is left. */
  lemma PageCovers(all: seq<Id>, limit: nat, examined: nat)
    requires Sorted(all) && examined <= |First(all, limit)| && limit > 0
    ensures var page := First(all, limit);
            forall f :: f in all && (examined == |page| < limit || (examined > 0 && f <= page[examined - 1])) ==> f in page[..examined]
  {
    var page := First(all, limit);
    assert page[..examined] == all[..examined];
    assert examined > 0 ==> forall k :: examined <= k < |all| ==> all[examined - 1] < all[k];
    forall f | f in all && (examined == |page| < limit || (examined > 0 && f <= page[examined - 1])) ensures f in all[..examined] {
      var k :| 0 <= k < |all| && all[k] == f;
    }
  }

  lemma OfOneMore(rows: seq<Event>, e: Event, actor: Id)
    ensures OfActor(rows + [e], actor) == if e.actor == actor then OfActor(rows, actor) + [e] else OfActor(rows, actor)
  {
    assert (rows + [e])[..|rows|] == rows;
  }

  lemma {:induction false} OfOthers(a: seq<Event>, b: seq<Event>, actor: Id)
    requires forall e :: e in b ==> e.actor != actor
    ensures OfActor(a + b, actor) == OfActor(a, actor)
    decreases |b|
  {
    if b == [] {
      assert a + b == a;
    } else {
      var rest, last := b[..|b| - 1], b[|b| - 1];
      OfOthers(a, rest, actor);
      OfOneMore(a + rest, last, actor);
      assert a + b == a + rest + [last];
    }
  }

  lemma {:induction false} OfOwn(a: seq<Event>, b: seq<Event>, actor: Id)
    requires OfActor(a, actor) == [] && forall e :: e in b ==> e.actor == actor
    ensures OfActor(a + b, actor) == b
    decreases |b|
  {
    hide OfActor;
    if b == [] {
      assert a + b == a;
    } else {
      var rest, last := b[..|b| - 1], b[|b| - 1];
      OfOwn(a, rest, actor);
      OfOneMore(a + rest, last, actor);
      assert a + b == a + rest + [last] && b == rest + [last];
    }
  }

  /** Grouping the combined answer by actor gives back each probe's own rows. */
  lemma {:induction false} GroupsAreRows(s: State, chosen: seq<Probe>, i: nat)
    requires DistinctActors(chosen) && i < |chosen|
    ensures OfActor(AllRows(s, chosen), chosen[i].edge.followed) == Rows(s, chosen[i])
    decreases |chosen|
  {
    hide Rows, OfActor;
    var last, rest := chosen[|chosen| - 1], chosen[..|chosen| - 1];
    var actor := chosen[i].edge.followed;
    if i < |rest| {
      GroupsAreRows(s, rest, i);
      OfOthers(AllRows(s, rest), Rows(s, last), actor);
    } else {
      OthersHaveNoRows(s, rest, actor);
      OfOwn(AllRows(s, rest), Rows(s, last), actor);
    }
  }

  lemma {:induction false} OthersHaveNoRows(s: State, chosen: seq<Probe>, actor: Id)
    requires forall p :: p in chosen ==> p.edge.followed != actor
    ensures OfActor(AllRows(s, chosen), actor) == []
  {
    if chosen != [] {
      var last, rest := chosen[|chosen| - 1], chosen[..|chosen| - 1];
      OthersHaveNoRows(s, rest, actor);
      OfOthers(AllRows(s, rest), Rows(s, last), actor);
    }
  }

  /** A page of the orphan sweep: the first rows beyond the cursor, in sequence order. */
  function SweepPage(log: seq<Event>, cursor: nat): (r: seq<Event>)
    ensures |r| <= SWEEP_PAGE && forall e :: e in r ==> e in log && e.sequence > cursor
  {
    if log == [] then []
    else
      var page, e := SweepPage(log[..|log| - 1], cursor), log[|log| - 1];
      if e.sequence > cursor && |page| < SWEEP_PAGE then page + [e] else page
  }

  /** A page misses nothing up to its last row, and a short page nothing at all. */
  lemma {:induction false} SweepMissesNothing(log: seq<Event>, cursor: nat, e: Event)
    requires Rising(log) && e in log && e.sequence > cursor
    ensures var page := SweepPage(log, cursor);
            e in page || (|page| == 500 && page[499].sequence < e.sequence)
  {
    var last, rest := log[|log| - 1], log[..|log| - 1];
    if e != last {
      assert e in rest;
      SweepMissesNothing(rest, cursor, e);
    } else if |SweepPage(rest, cursor)| == SWEEP_PAGE {
      assert SweepPage(rest, cursor)[SWEEP_PAGE - 1] in rest;
    }
  }

  const PRUNE_LIMIT: nat := 8000

  function CreationDates(log: seq<Event>): (r: map<nat, int>)
    ensures forall x :: x in r ==> exists e :: e in log && e.sequence == x && e.createdAt == r[x]
    ensures forall e :: e in log ==> e.sequence in r
  {
    if log == [] then map[]
    else
      var e := log[|log| - 1];
      CreationDates(log[..|log| - 1])[e.sequence := e.createdAt]
  }

  lemma ChosenHaveExpired(s: State, chosen: set<nat>, now: int)
    requires Inv(s) && OldestFirst(CreationDates(s.log), chosen, now - LIFETIME_MS - 1, PRUNE_LIMIT)
    ensures forall e :: e in s.log && e.sequence in chosen ==> e.createdAt < now - LIFETIME_MS
  {
    forall e, x | e in s.log && x in s.log && e.sequence == x.sequence ensures e == x {
    }
  }

  class ActivityStore {
    var log: seq<Event>
    var high: nat
    var edges: map<EdgeKey, Edge>
    var active: set<Id>
    var present: set<string>
    var available: set<string>
    var blocked: set<string>
    var sweepCursor: Option<nat>
    ghost var probes: set<Probe>
    ghost var issues: set<Issue>
    ghost var acked: set<Issue>

    ghost function View(): State
      reads this
    {
      State(log, high, edges, active, present, available, blocked, probes, issues, acked)
    }

    /** The tables alone, as a query sees them. */
    function Tables(): State
      reads this
    {
      State(log, high, edges, active, present, available, blocked, {}, {}, {})
    }

    constructor (follows: set<EdgeKey>)
      ensures IsInitial(View()) && Inv(View()) && edges.Keys == follows
    {
      log, high, edges := [], 0, map edge | edge in follows :: Edge(0, 0);
      active, present, available, blocked, sweepCursor := {}, {}, {}, {}, None;
      probes, issues, acked := {}, {}, {};
      new;
      InitialIsValid(View());
    }

    /** followerActivityInsertStatement. */
    method Insert(source: string, actor: Id, createdAt: int, direct: set<Id>)
      requires Inv(View())
      modifies this`log, this`high
      ensures Inv(View()) && View() == FollowerActivity.Insert(old(View()), source, actor, createdAt, direct)
    {
      InsertKeepsInv(View(), source, actor, createdAt, direct);
      hide Inv;
      if !exists e :: e in log && e.source == source {
        high := high + 1;
        log := log + [Event(high, source, actor, createdAt, direct)];
      }
    }

    /** A follow row, with the trigger that starts its cursor at the high-water mark. */
    method Follow(edge: EdgeKey)
      requires Inv(View())
      modifies this`edges
      ensures Inv(View()) && View() == FollowerActivity.Follow(old(View()), edge)
    {
      FollowKeepsInv(View(), edge);
      hide Inv;
      if edge !in edges {
        edges := edges[edge := Edge(0, 0)];
        edges := edges[edge := Edge(high, high)];
      }
    }

    /** The first half of selectFollowerActivity: at most `probeLimit` follows are examined,
        until `actorLimit` of them have something new. */
    method ProbeFollows(follower: Id, after: Id, probeLimit: int, actorLimit: int) returns (r: Result<Probing, string>)
      requires Inv(View())
      modifies this`probes
      ensures r.Failure? <==> probeLimit < 1 || probeLimit > 500 || actorLimit < 1 || actorLimit > 50
      ensures Inv(View()) && View() == old(View()).(probes := probes)
      ensures r.Failure? ==> probes == old(probes)
      ensures r.Success? ==> probes == old(probes) + Elements(r.value.chosen) && |r.value.chosen| <= actorLimit
      ensures r.Success? ==> DistinctActors(r.value.chosen) && ProbesAll(old(View()), follower, after, r.value)
    {
      hide Inv, Elements, DistinctActors, ProbesAll;
      if !(1 <= probeLimit <= MAX_PROBES && 1 <= actorLimit <= MAX_ACTORS) {
        return Failure("Invalid follower activity page size.");
      }
      var probing := ProbePage(follower, after, probeLimit, actorLimit);
      ProbesKeepInv(View(), probing.chosen);
      probes := probes + Elements(probing.chosen);
      r := Success(probing);
    }

    method ProbePage(follower: Id, after: Id, probeLimit: nat, actorLimit: nat) returns (p: Probing)
      requires probeLimit >= 1 && actorLimit >= 1
      ensures |p.chosen| <= actorLimit && DistinctActors(p.chosen) && ProbesAll(View(), follower, after, p)
      ensures forall c :: c in p.chosen ==> ProbeEdge(View(), c.edge) == Some(c)
    {
      hide ProbeEdge, DistinctActors, ProbesAll, Followed;
      var page := First(Ascending(Followed(edges, follower, after)), probeLimit);
      var chosen, examined := Examine(follower, page, actorLimit);
      var hasMore := examined < |page| || |page| == probeLimit;
      p := Probing(chosen, if hasMore then page[examined - 1] else 0, hasMore);
      PageProbesAll(View(), follower, after, probeLimit, examined, chosen, p);
    }

    /** The loop over the probed follows. */
    method Examine(follower: Id, page: seq<Id>, actorLimit: nat) returns (chosen: seq<Probe>, examined: nat)
      requires Sorted(page) && actorLimit >= 1
      ensures examined <= |page| && (page != [] ==> examined > 0)
      ensures chosen == Pending(View(), follower, page[..examined]) && |chosen| <= actorLimit && DistinctActors(chosen)
      ensures examined < |page| ==> |chosen| == actorLimit
    {
      chosen, examined := [], 0;
      while examined < |page|
        invariant examined <= |page|
        invariant chosen == Pending(View(), follower, page[..examined]) && |chosen| < actorLimit && DistinctActors(chosen)
      {
        var f := page[examined];
        assert page[..examined + 1][..examined] == page[..examined];
        examined := examined + 1;
        var edge := EdgeKey(follower, f);
        if edge in edges && follower != f && follower in active && f in active {
          var head := Head(log, f);
          if head.Some? && head.value > edges[edge].cursor {
            chosen := chosen + [Probe(edge, edges[edge].cursor, head.value)];
          }
        }
        if |chosen| >= actorLimit {
          return;
        }
      }
    }

    /** The second half of selectFollowerActivity, possibly much later: the rows are read in
        one query, grouped by actor, and turned into digests and silent receipts. */
    method SelectActivity(chosen: seq<Probe>, now: int) returns (notices: seq<Issue>, silent: seq<Issue>)
      requires Inv(View()) && DistinctActors(chosen) && forall p :: p in chosen ==> p in probes
      modifies this`issues
      ensures Inv(View()) && View() == old(View()).(issues := issues)
      ensures notices == Digests(old(View()), chosen, now, false)
      ensures silent == Digests(old(View()), chosen, now, true)
      ensures forall x :: x in issues <==> x in old(issues) || x in notices || x in silent
    {
      hide Inv, Rows, Select, AllRows, DistinctActors, Digests, OfActor, SameTables;
      ghost var s, tables := View(), Tables();
      TablesAreSame(s, tables);
      var rows := AllRows(Tables(), chosen);
      var byActor := GroupByActor(rows);
      notices, silent := [], [];
      DigestsStart(s, chosen, now);
      var i := 0;
      while i < |chosen|
        invariant i <= |chosen| && View() == s.(issues := issues) && Inv(View())
        invariant notices == Digests(s, chosen[..i], now, false)
        invariant silent == Digests(s, chosen[..i], now, true)
        invariant forall x :: x in issues <==> x in old(issues) || x in notices || x in silent
      {
        var probe := chosen[i];
        GroupsAreRows(tables, chosen, i);
        IssuesAreHistory(s, issues);
        SelectIgnoresHistory(s, tables, probe, now);
        SelectIgnoresHistory(s, View(), probe, now);
        DigestsStep(s, chosen, i, now);
        var group := if probe.edge.followed in byActor then byActor[probe.edge.followed] else [];
        var issue := SelectOne(probe, group, now);
        if issue.Some? {
          if issue.value.Silent() {
            silent := silent + [issue.value];
          } else {
            notices := notices + [issue.value];
          }
        }
        i := i + 1;
      }
      assert chosen[..i] == chosen;
    }

    method SelectOne(probe: Probe, group: seq<Event>, now: int) returns (issue: Option<Issue>)
      requires Inv(View()) && probe in probes && group == Rows(View(), probe)
      modifies this`issues
      ensures Inv(View()) && issue == Select(old(View()), probe, now)
      ensures View() == old(View()).(issues := issues)
      ensures issues == if issue.Some? then old(issues) + {issue.value} else old(issues)
    {
      hide Inv, Rows, Select;
      issue := Digest(probe, group, now);
      if issue.Some? {
        SelectKeepsInv(View(), probe, now);
        issues := issues + {issue.value};
      }
    }

    /** One digest: nothing for an empty or inactive group, otherwise the showable ones of
        the first five rows. */
    method Digest(probe: Probe, group: seq<Event>, now: int) returns (issue: Option<Issue>)
      requires group == Rows(View(), probe)
      ensures issue == Select(View(), probe, now)
    {
      hide Rows, Listed, Showable;
      var follower := probe.edge.follower;
      if group == [] || exists e :: e in group && !(e.actor in active && follower in active && e.source !in blocked) {
        return None;
      }
      var shown := if |group| <= SHOWN_PER_ACTOR then group else group[..SHOWN_PER_ACTOR];
      var activities := Activities(shown, follower, now);
      var listed := Sequences(activities);
      issue := Some(Issue(Receipt(probe.edge, probe.cursor, group[0].sequence), listed, Sequences(shown) - listed,
                          |group| == EVENTS_PER_ACTOR));
    }

    method Activities(shown: seq<Event>, follower: Id, now: int) returns (activities: seq<Event>)
      ensures activities == Listed(View(), shown, follower, now)
    {
      activities := [];
      var i := 0;
      while i < |shown|
        invariant i <= |shown|
        invariant activities == Listed(View(), shown[..i], follower, now)
      {
        var row := shown[i];
        assert shown[..i + 1][..i] == shown[..i];
        if !(follower in row.direct || row.source !in available || row.createdAt < now - LIFETIME_MS) {
          activities := activities + [row];
        }
        i := i + 1;
      }
      assert shown[..i] == shown;
    }

    /** acknowledgeFollowerActivity: one guarded update per receipt. */
    method Acknowledge(delivered: seq<Issue>)
      requires Inv(View()) && forall i :: i in delivered ==> i in issues
      modifies this`edges, this`acked
      ensures Inv(View())
      ensures edges == AcknowledgeAll(old(edges), high, Receipts(delivered))
      ensures acked == old(acked) + (set i | i in delivered)
    {
      var n := 0;
      while n < |delivered|
        invariant n <= |delivered| && Inv(View())
        invariant edges == AcknowledgeAll(old(edges), high, Receipts(delivered[..n]))
        invariant acked == old(acked) + (set i | i in delivered[..n])
      {
        AcknowledgeKeepsInv(View(), delivered[n]);
        assert delivered[..n + 1] == delivered[..n] + [delivered[n]];
        assert Receipts(delivered[..n + 1])[..n] == Receipts(delivered[..n]);
        hide Inv;
        var receipt := delivered[n].receipt;
        if receipt.edge in edges && edges[receipt.edge].cursor < receipt.through && receipt.through <= high {
          edges := edges[receipt.edge := edges[receipt.edge].(cursor := receipt.through)];
        }
        acked := acked + {delivered[n]};
        n := n + 1;
      }
      assert delivered[..n] == delivered;
    }

    /** pruneFollowerActivity: at most 8000 expired events go, the oldest first; then the
        orphan sweep takes one page and remembers where it stopped. */
    method Prune(now: int) returns (ghost expired: set<nat>, ghost orphaned: set<nat>)
      requires Inv(View())
      modifies this`log, this`sweepCursor
      ensures Inv(View()) && View() == old(View()).(log := Without(Without(old(log), expired), orphaned))
      ensures OldestFirst(CreationDates(old(log)), expired, now - 1_209_600_001, 8000)
      ensures Enabled(old(View()), DoPrune(expired + orphaned, now))
      ensures var from := if old(sweepCursor).Some? then old(sweepCursor).value else 0;
              forall e :: e in log && e.sequence > from && (sweepCursor.None? || e.sequence <= sweepCursor.value) ==> e.source in present
    {
      hide Inv, OldestFirst, CreationDates;
      var oldest := ChooseOldest(CreationDates(log), now - LIFETIME_MS - 1, PRUNE_LIMIT);
      expired := oldest;
      ChosenHaveExpired(View(), oldest, now);
      PruneKeepsInv(View(), oldest);
      log := Without(log, oldest);
      orphaned := SweepOrphans();
    }

    method SweepOrphans() returns (ghost orphaned: set<nat>)
      requires Inv(View())
      modifies this`log, this`sweepCursor
      ensures Inv(View()) && View() == old(View()).(log := Without(old(log), orphaned))
      ensures forall e :: e in old(log) && e.sequence in orphaned ==> e.source !in present
      ensures var from := if old(sweepCursor).Some? then old(sweepCursor).value else 0;
              forall e :: e in log && e.sequence > from && (sweepCursor.None? || e.sequence <= sweepCursor.value) ==> e.source in present
    {
      var from := if sweepCursor.Some? then sweepCursor.value else 0;
      var page := SweepPage(log, from);
      var orphans := set e | e in page && e.source !in present :: e.sequence;
      orphaned := orphans;
      PageExplains(View(), page, orphans);
      SweepReaches(View(), from);
      PruneKeepsInv(View(), orphans);
      hide Inv, SweepPage;
      log := Without(log, orphans);
      sweepCursor := if |page| == SWEEP_PAGE then Some(page[SWEEP_PAGE - 1].sequence) else None;
    }
  }

  function Receipts(issues: seq<Issue>): seq<Receipt> {
    seq(|issues|, i requires 0 <= i < |issues| => issues[i].receipt)
  }

  method GroupByActor(rows: seq<Event>) returns (byActor: map<Id, seq<Event>>)
    ensures forall a :: (if a in byActor then byActor[a] else []) == OfActor(rows, a)
  {
    byActor := map[];
    var i := 0;
    while i < |rows|
      invariant i <= |rows|
      invariant forall a :: (if a in byActor then byActor[a] else []) == OfActor(rows[..i], a)
    {
      var row := rows[i];
      assert rows[..i + 1][..i] == rows[..i];
      var group := if row.actor in byActor then byActor[row.actor] else [];
      byActor := byActor[row.actor := group + [row]];
      i := i + 1;
    }
    assert rows[..i] == rows;
  }

  predicate SameTables(s: State, t: State) {
    s == t.(probes := s.probes, issues := s.issues, acked := s.acked)
  }

  lemma TablesAreSame(s: State, tables: State)
    requires tables == s.(probes := {}, issues := {}, acked := {})
    ensures SameTables(s, tables)
  {
  }

  lemma IssuesAreHistory(s: State, issues: set<Issue>)
    ensures SameTables(s, s.(issues := issues))
  {
  }

  lemma DigestsStart(s: State, chosen: seq<Probe>, now: int)
    ensures Digests(s, chosen[..0], now, false) == [] && Digests(s, chosen[..0], now, true) == []
  {
  }

  lemma DigestsStep(s: State, chosen: seq<Probe>, i: nat, now: int)
    requires i < |chosen|
    ensures forall silent :: Digests(s, chosen[..i + 1], now, silent) ==
                             Appended(Digests(s, chosen[..i], now, silent), Select(s, chosen[i], now), silent)
  {
    hide Select, Appended;
    assert chosen[..i + 1][..i] == chosen[..i];
  }

  lemma SelectIgnoresHistory(s: State, t: State, probe: Probe, now: int)
    requires SameTables(s, t)
    ensures Select(s, probe, now) == Select(t, probe, now) && Rows(s, probe) == Rows(t, probe)
  {
    ListedIgnoresHistory(s, t, Shown(Rows(s, probe)), probe.edge.follower, now);
    hide Showable, Newest;
  }

  lemma {:induction false} ListedIgnoresHistory(s: State, t: State, rows: seq<Event>, follower: Id, now: int)
    requires SameTables(s, t)
    ensures Listed(s, rows, follower, now) == Listed(t, rows, follower, now)
  {
    if rows != [] {
      ListedIgnoresHistory(s, t, rows[..|rows| - 1], follower, now);
    }
  }

  lemma SweepReaches(s: State, from: nat)
    requires LogValid(s)
    ensures var page := SweepPage(s.log, from);
            forall e :: e in s.log && e.sequence > from ==>
              e in page || (|page| == SWEEP_PAGE && page[SWEEP_PAGE - 1].sequence < e.sequence)
  {
    forall e | e in s.log && e.sequence > from
      ensures var page := SweepPage(s.log, from);
              e in page || (|page| == SWEEP_PAGE && page[SWEEP_PAGE - 1].sequence < e.sequence)
    {
      SweepMissesNothing(s.log, from, e);
    }
  }

  lemma PageExplains(s: State, page: seq<Event>, orphans: set<nat>)
    requires LogValid(s) && (forall e :: e in page ==> e in s.log)
    requires orphans == set e | e in page && e.source !in s.present :: e.sequence
    ensures forall e :: e in s.log && e.sequence in orphans ==> e.source !in s.present
  {
    forall e, x | e in s.log && x in s.log && e.sequence == x.sequence ensures e == x {
    }
  }

  lemma ProbesKeepInv(s: State, chosen: seq<Probe>)
    requires Inv(s) && forall c :: c in chosen ==> ProbeEdge(s, c.edge) == Some(c)
    ensures Inv(s.(probes := s.probes + Elements(chosen)))
  {
    var s' := s.(probes := s.probes + Elements(chosen));
    forall c | c in chosen ensures c.edge in s.edges && c.cursor == s.edges[c.edge].cursor && c.head <= s.high {
      HeadIsNewest(s.log, c.edge.followed);
    }
    DeliveredStays(s, s');
    hide Delivered;
  }
}
