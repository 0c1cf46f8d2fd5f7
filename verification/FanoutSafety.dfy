/** The bounded page refines the whole audience, and fanout reaches everybody exactly once. */
module FanoutSafety {
  import opened Outcomes
  import opened Ordering
  import opened Fanout

  // ---------- The bounded page ----------

  /** No recipient but the largest is listed twice. */
  predicate OnlyLastRepeats(direct: seq<Id>) {
    forall d, x :: d in direct && x in direct && d < x ==> multiset(direct)[d] == 1
  }

  function WholePage(direct: seq<Id>, followers: set<Id>, after: Id, n: nat): seq<Id> {
    First(Ascending(Beyond(Members(direct) + followers, after)), n)
  }

  lemma {:induction false} SpreadCut(ids: seq<Id>, counts: multiset<Id>, n: nat)
    requires forall i :: 0 <= i < |ids| - 1 ==> counts[ids[i]] == 1
    requires ids != [] ==> counts[ids[|ids| - 1]] >= 1
    ensures Members(First(Spread(ids, counts), n)) == Members(First(ids, n))
  {
    if n == 0 {
      assert First(Spread(ids, counts), 0) == [] && First(ids, 0) == [];
    } else if |ids| == 1 {
      CopiesCut(ids[0], counts[ids[0]], n);
      assert Spread(ids, counts) == Repeat(ids[0], counts[ids[0]]) + [] == Repeat(ids[0], counts[ids[0]]);
      assert First(ids, n) == ids && Members(ids) == {ids[0]};
    } else if ids != [] {
      SpreadCut(ids[1..], counts, n - 1);
      assert Repeat(ids[0], 1) == [ids[0]];
      FirstCons(ids[0], Spread(ids[1..], counts), n);
      FirstCons(ids[0], ids[1..], n);
      assert ids == [ids[0]] + ids[1..];
      hide First, Members, Repeat;
    }
  }

  lemma FirstCons(x: Id, s: seq<Id>, n: nat)
    requires n > 0
    ensures Members(First([x] + s, n)) == {x} + Members(First(s, n - 1))
  {
    assert First([x] + s, n) == [x] + First(s, n - 1);
    MembersCons(x, First(s, n - 1));
  }

  lemma CopiesCut(x: Id, count: nat, n: nat)
    requires count > 0 && n > 0
    ensures Members(First(Repeat(x, count), n)) == {x}
  {
    assert First(Repeat(x, count), n)[0] in Repeat(x, count);
  }

  lemma MembersCons(x: Id, s: seq<Id>)
    ensures Members([x] + s) == {x} + Members(s)
  {
  }

  /** Cutting both arms before merging loses nothing from the first n. */
  lemma MergeCut(a: set<Id>, b: set<Id>, n: nat)
    ensures var cut := Members(First(Ascending(a), n)) + Members(First(Ascending(b), n));
            First(Ascending(cut), n) == First(Ascending(a + b), n)
  {
    var cut := Members(First(Ascending(a), n)) + Members(First(Ascending(b), n));
    var left, right := First(Ascending(cut), n), First(Ascending(a + b), n);
    assert Sorted(left) && Sorted(right);
    forall x: Id ensures x in left <==> x in right {
      CutKeepsFirst(a, b, cut, n, x);
    }
    hide Ascending, First, Members;
    SortedIsUnique(left, right);
  }

  lemma CutKeepsFirst(a: set<Id>, b: set<Id>, cut: set<Id>, n: nat, x: Id)
    requires cut == Members(First(Ascending(a), n)) + Members(First(Ascending(b), n))
    ensures x in First(Ascending(cut), n) <==> x in First(Ascending(a + b), n)
  {
    FirstByRank(cut, n, x);
    FirstByRank(a + b, n, x);
    EarlyIsCut(a, b, cut, n);
    FewerBelow(Below(cut, x), Below(a + b, x));
    if x in cut && |Below(a + b, x)| >= n {
      EarlyOnesSuffice(a + b, cut, n, x);
    }
  }

  /** An id with fewer than n of the union before it survives in its own arm. */
  lemma EarlyIsCut(a: set<Id>, b: set<Id>, cut: set<Id>, n: nat)
    requires cut == Members(First(Ascending(a), n)) + Members(First(Ascending(b), n))
    ensures cut <= a + b
    ensures forall y :: y in a + b && |Below(a + b, y)| < n ==> y in cut
  {
    forall y | y in a + b && |Below(a + b, y)| < n ensures y in cut {
      FirstByRank(a, n, y);
      FirstByRank(b, n, y);
      FewerBelow(Below(a, y), Below(a + b, y));
      FewerBelow(Below(b, y), Below(a + b, y));
    }
  }

  /** If n of the union precede x, then n of the cut do. */
  lemma EarlyOnesSuffice(all: set<Id>, cut: set<Id>, n: nat, x: Id)
    requires cut <= all && x in cut && |Below(all, x)| >= n
    requires forall y :: y in all && |Below(all, y)| < n ==> y in cut
    ensures |Below(cut, x)| >= n
  {
    var first := First(Ascending(all), n);
    SortedSize(first);
    forall y | y in first ensures y in Below(cut, x) {
      FirstByRank(all, n, y);
      if y >= x {
        assert Below(all, x) <= Below(all, y);
        FewerBelow(Below(all, x), Below(all, y));
      }
    }
    assert |first| == n by {
      FewerBelow(Below(all, x), all);
    }
    FewerBelow(Members(first), Below(cut, x));
  }

  /** The two-arm page is the first n of the whole audience after the cursor. */
  lemma BoundedPageIsExact(direct: seq<Id>, followers: set<Id>, after: Id, n: nat)
    requires OnlyLastRepeats(direct)
    ensures BoundedIds(direct, followers, after, n) == WholePage(direct, followers, after, n)
  {
    var a, b := Beyond(Members(direct), after), Beyond(followers, after);
    DirectArmIsExact(direct, after, n);
    assert a + b == Beyond(Members(direct) + followers, after);
    hide DirectArm, Ascending, First, Members, Beyond, OnlyLastRepeats;
    MergeCut(a, b, n);
  }

  lemma DirectArmIsExact(direct: seq<Id>, after: Id, n: nat)
    requires OnlyLastRepeats(direct)
    ensures Members(DirectArm(direct, after, n)) == Members(First(Ascending(Beyond(Members(direct), after)), n))
  {
    var a := Beyond(Members(direct), after);
    var ids := Ascending(a);
    forall i | 0 <= i < |ids| - 1 ensures multiset(direct)[ids[i]] == 1 {
      assert ids[i] in a && ids[|ids| - 1] in a;
    }
    assert ids != [] ==> ids[|ids| - 1] in a;
    hide Ascending, First, Members, Spread;
    SpreadCut(ids, multiset(direct), n);
  }

  /** The flag of a row is that of the whole follower list: a follower within the page is
      within the bounded follower arm. */
  lemma PageFlagsAreExact(direct: seq<Id>, followers: set<Id>, after: Id, n: nat, x: Id)
    requires OnlyLastRepeats(direct) && x in BoundedIds(direct, followers, after, n)
    ensures x in followers <==> x in Members(FollowerArm(followers, after, n))
  {
    BoundedPageIsExact(direct, followers, after, n);
    var all, own := Beyond(Members(direct) + followers, after), Beyond(followers, after);
    FirstByRank(all, n, x);
    FirstByRank(own, n, x);
    FewerBelow(Below(own, x), Below(all, x));
  }

  /** Listing another recipient twice does lose somebody: one page of two rows after d - 1
      is then short although the audience goes on. */
  lemma RepeatsLoseRecipients(direct: seq<Id>, d: Id, x: Id)
    requires 0 !in direct && d in direct && x in direct && d < x && multiset(direct)[d] > 1
    ensures BoundedIds(direct, {}, d - 1, 2) == [d]
    ensures |WholePage(direct, {}, d - 1, 2)| == 2
  {
    AudienceGoesOn(direct, d, x);
    ArmsHoldOnly(direct, d);
    hide DirectArm, FollowerArm, WholePage, Members;
    SortedIsUnique(Ascending({d}), [d]);
  }

  lemma ArmsHoldOnly(direct: seq<Id>, d: Id)
    requires 0 !in direct && d in direct && multiset(direct)[d] > 1
    ensures Members(DirectArm(direct, d - 1, 2)) + Members(FollowerArm({}, d - 1, 2)) == {d}
  {
    RepeatsFillTheArm(direct, d);
    assert Members([d, d]) == {d} && Beyond({}, d - 1) == {} && Members(FollowerArm({}, d - 1, 2)) == {};
  }

  lemma RepeatsFillTheArm(direct: seq<Id>, d: Id)
    requires 0 !in direct && d in direct && multiset(direct)[d] > 1
    ensures DirectArm(direct, d - 1, 2) == [d, d]
  {
    var ids := Ascending(Beyond(Members(direct), d - 1));
    assert d in ids && forall y :: y in ids ==> y >= d;
    hide Ascending, Beyond, Members, Spread;
    SmallestFirst(ids, d);
    TwoCopiesFill(ids, multiset(direct), d);
  }

  lemma AudienceGoesOn(direct: seq<Id>, d: Id, x: Id)
    requires 0 !in direct && d in direct && x in direct && d < x
    ensures |WholePage(direct, {}, d - 1, 2)| == 2
  {
    var a := Beyond(Members(direct) + {}, d - 1);
    SortedSize([d, x]);
    assert Members([d, x]) <= a;
    FewerBelow(Members([d, x]), a);
  }

  lemma SmallestFirst(ids: seq<Id>, d: Id)
    requires Sorted(ids) && d in ids && forall y :: y in ids ==> y >= d
    ensures ids[0] == d
  {
    var k :| 0 <= k < |ids| && ids[k] == d;
    assert ids[0] in ids;
  }

  lemma TwoCopiesFill(ids: seq<Id>, counts: multiset<Id>, d: Id)
    requires ids != [] && ids[0] == d && counts[d] >= 2
    ensures First(Spread(ids, counts), 2) == [d, d]
  {
    var copies := Repeat(d, counts[d]);
    assert copies[0] in copies && copies[1] in copies;
    var spread := Spread(ids, counts);
    assert spread == copies + Spread(ids[1..], counts);
    assert spread[..2] == [d, d];
  }

  /** So the bounded page is exact for every cursor, page size and follower list if and only
      if no recipient but the largest is listed twice. */
  lemma ExactPagesNeedDistinctRecipients(direct: seq<Id>)
    requires 0 !in direct
    ensures OnlyLastRepeats(direct) <==>
            forall followers: set<Id>, after: Id, n: nat :: BoundedIds(direct, followers, after, n) == WholePage(direct, followers, after, n)
  {
    if OnlyLastRepeats(direct) {
      forall followers: set<Id>, after: Id, n: nat
        ensures BoundedIds(direct, followers, after, n) == WholePage(direct, followers, after, n)
      {
        BoundedPageIsExact(direct, followers, after, n);
      }
    } else {
      var d, x :| d in direct && x in direct && d < x && multiset(direct)[d] != 1;
      RepeatsLoseRecipients(direct, d, x);
    }
  }

  // ---------- The invariant ----------

  predicate Audience(direct: seq<Id>, steady: set<Id>, x: Id) {
    x in direct || x in steady
  }

  predicate Reaches(page: Page, x: Id) {
    x in page.ids || (|page.ids| == page.size && page.ids != [] && page.ids[|page.ids| - 1] < x)
  }

  predicate TablesValid(s: State) {
    && s.jobs.Keys <= s.considered.Keys == s.steady.Keys
    && s.finished.Keys <= s.considered.Keys && s.finished.Keys !! s.jobs.Keys
    && (forall p :: p in s.pages ==> p.event in s.considered)
    && (forall k :: k in s.follows ==> k.follower > 0)
    && (forall e :: e in s.jobs ==> s.steady[e] <= Followers(s.follows, s.jobs[e].follower) && 0 !in s.jobs[e].direct)
  }

  predicate PagesSorted(s: State) {
    forall p :: p in s.pages ==>
      p.size > 0 && Sorted(p.ids) && |p.ids| <= p.size && forall x :: x in p.ids ==> x > p.after
  }

  ghost predicate PagesReach(s: State)
    requires TablesValid(s)
  {
    forall p, x: Id ::
      (p in s.pages && p.event in s.jobs && OnlyLastRepeats(s.jobs[p.event].direct) &&
       Audience(s.jobs[p.event].direct, s.steady[p.event], x) && x > p.after) ==> Reaches(p, x)
  }

  predicate ConsideredInOrder(s: State)
    requires TablesValid(s)
  {
    && (forall e :: e in s.considered ==> Sorted(s.considered[e]))
    && (forall e, x :: e in s.jobs && x in s.considered[e] ==> x <= s.jobs[e].after)
  }

  ghost predicate CursorCovers(s: State)
    requires TablesValid(s)
  {
    forall e, x: Id ::
      (e in s.jobs && OnlyLastRepeats(s.jobs[e].direct) && Audience(s.jobs[e].direct, s.steady[e], x) &&
       x <= s.jobs[e].after) ==> x in s.considered[e]
  }

  ghost predicate FinishedCovers(s: State)
    requires TablesValid(s)
  {
    forall e, x: Id ::
      (e in s.finished && OnlyLastRepeats(s.finished[e].job.direct) &&
       Audience(s.finished[e].job.direct, s.finished[e].steady, x)) ==> x in s.considered[e]
  }

  predicate PublishedOnce(s: State) {
    && (forall p :: p in s.published ==> p.event in s.considered && p.bot in s.considered[p.event])
    && (forall i, j :: 0 <= i < j < |s.published| ==> s.published[i] != s.published[j])
  }

  ghost predicate Inv(s: State) {
    && TablesValid(s) && PagesSorted(s) && PagesReach(s)
    && ConsideredInOrder(s) && CursorCovers(s) && FinishedCovers(s) && PublishedOnce(s)
  }

  // ---------- Reading a page ----------

  /** A page misses nobody of the audience up to its last id, nor anybody when it is short. */
  lemma PageReachesAudience(follows: map<FollowKey, nat>, event: EventId, job: Job, after: Id, size: nat, x: Id)
    requires OnlyLastRepeats(job.direct) && size > 0 && x > after
    requires x in job.direct || x in Followers(follows, job.follower)
    ensures Reaches(ReadPage(follows, event, job, after, size), x)
  {
    var followers := Followers(follows, job.follower);
    BoundedPageIsExact(job.direct, followers, after, size);
    PageReaches(Ascending(Beyond(Members(job.direct) + followers, after)), size, x);
  }

  lemma PageIsSorted(follows: map<FollowKey, nat>, event: EventId, job: Job, after: Id, size: nat)
    ensures var p := ReadPage(follows, event, job, after, size);
            Sorted(p.ids) && |p.ids| <= size && forall x :: x in p.ids ==> x > after
  {
    var followers := Followers(follows, job.follower);
    ArmsAreBeyond(job.direct, followers, after, size);
    hide DirectArm, FollowerArm, Followers, ActiveFollowers, First;
  }

  lemma ArmsAreBeyond(direct: seq<Id>, followers: set<Id>, after: Id, n: nat)
    ensures forall x :: x in Members(DirectArm(direct, after, n)) + Members(FollowerArm(followers, after, n)) ==> x > after
  {
    var ids := Ascending(Beyond(Members(direct), after));
    SpreadIds(ids, multiset(direct));
    assert forall x :: x in ids ==> x > after;
    hide Spread, First, Ascending;
  }

  lemma {:induction false} SpreadIds(ids: seq<Id>, counts: multiset<Id>)
    ensures forall x :: x in Spread(ids, counts) ==> x in ids
  {
    if ids != [] {
      SpreadIds(ids[1..], counts);
    }
  }

  /** A sorted page beyond its position that reaches its audience may be added. */
  lemma OneMorePage(s: State, page: Page)
    requires Inv(s) && page.event in s.jobs
    requires page.size > 0 && Sorted(page.ids) && |page.ids| <= page.size && forall x :: x in page.ids ==> x > page.after
    requires OnlyLastRepeats(s.jobs[page.event].direct) ==> ReachesAll(page, s.jobs[page.event].direct, s.steady[page.event])
    ensures Inv(s.(pages := s.pages + {page}))
  {
    hide Reaches, OnlyLastRepeats, Audience;
  }

  ghost predicate ReachesAll(page: Page, direct: seq<Id>, steady: set<Id>) {
    forall x: Id :: Audience(direct, steady, x) && x > page.after ==> Reaches(page, x)
  }

  lemma DoPageReachesAll(s: State, event: EventId, after: Id, size: nat)
    requires TablesValid(s) && Enabled(s, DoPage(event, after, size)) && OnlyLastRepeats(s.jobs[event].direct)
    ensures ReachesAll(ReadPage(s.follows, event, s.jobs[event], after, size), s.jobs[event].direct, s.steady[event])
  {
    hide Reaches, OnlyLastRepeats;
    forall x: Id | Audience(s.jobs[event].direct, s.steady[event], x) && x > after
      ensures Reaches(ReadPage(s.follows, event, s.jobs[event], after, size), x)
    {
      PageReachesAudience(s.follows, event, s.jobs[event], after, size, x);
    }
  }

  lemma DoPageKeepsInv(s: State, event: EventId, after: Id, size: nat)
    requires Inv(s) && Enabled(s, DoPage(event, after, size))
    ensures Inv(Apply(s, DoPage(event, after, size)))
  {
    var page := ReadPage(s.follows, event, s.jobs[event], after, size);
    PageIsSorted(s.follows, event, s.jobs[event], after, size);
    if OnlyLastRepeats(s.jobs[event].direct) {
      DoPageReachesAll(s, event, after, size);
    }
    hide OnlyLastRepeats, ReachesAll, BoundedIds, PagesReach, PagesSorted, ConsideredInOrder, CursorCovers, FinishedCovers, PublishedOnce;
    OneMorePage(s, page);
  }

  // ---------- The other steps ----------

  lemma EnqueueKeepsInv(s: State, event: EventId, job: Job)
    requires Inv(s) && Enabled(s, DoEnqueue(event, job))
    ensures Inv(Enqueue(s, event, job))
  {
    hide OnlyLastRepeats, Reaches;
    assert forall x :: x in Followers(s.follows, job.follower) ==> x > 0;
  }

  lemma FollowKeepsInv(s: State, follow: FollowKey, activation: nat)
    requires Inv(s) && Enabled(s, DoFollow(follow, activation))
    ensures Inv(Apply(s, DoFollow(follow, activation)))
  {
    hide OnlyLastRepeats, Reaches, Audience;
  }

  lemma UnfollowKeepsInv(s: State, follow: FollowKey)
    requires Inv(s)
    ensures Inv(Unfollow(s, follow))
  {
    var s' := Unfollow(s, follow);
    assert forall e :: e in s.steady ==> s'.steady[e] <= s.steady[e];
    assert TablesValid(s') by {
      forall e, x | e in s'.jobs && x in s'.steady[e] ensures x in Followers(s'.follows, s'.jobs[e].follower) {
        var k :| k in s.follows && Some(k.followed) == s.jobs[e].follower && k.follower == x;
        assert k in s'.follows;
      }
    }
    hide OnlyLastRepeats, Reaches, Followers;
  }

  lemma ExpireKeepsInv(s: State, event: EventId)
    requires Inv(s)
    ensures Inv(s.(jobs := s.jobs - {event}))
  {
    hide OnlyLastRepeats, Reaches, Audience, Followers;
  }

  // ---------- The publication batch ----------

  predicate Applies(s: State, page: Page) {
    page.event in s.jobs && s.jobs[page.event].after == page.after
  }

  lemma CommitKeepsTables(s: State, page: Page, eligible: set<Id>)
    requires Inv(s) && Enabled(s, DoCommit(page, eligible)) && Applies(s, page)
    ensures var s' := Commit(s, page, eligible);
            TablesValid(s') && PagesSorted(s') && PagesReach(s') && ConsideredInOrder(s')
  {
    var s' := Commit(s, page, eligible);
    hide OnlyLastRepeats, Reaches, Audience, Followers, Recipients, PublishedOnce, CursorCovers, FinishedCovers;
    LastIsBeyond(s, page);
    assert forall x :: x in page.ids && |page.ids| == page.size ==> x <= page.ids[|page.ids| - 1];
    SortedConcat(s.considered[page.event], page.ids);
  }

  /** Committing a page moves the covered part up to its last id, or covers everybody. */
  lemma CommitCovers(s: State, page: Page, eligible: set<Id>)
    requires Inv(s) && Enabled(s, DoCommit(page, eligible)) && Applies(s, page) && TablesValid(Commit(s, page, eligible))
    ensures CursorCovers(Commit(s, page, eligible)) && FinishedCovers(Commit(s, page, eligible))
  {
    var s', event := Commit(s, page, eligible), page.event;
    var job := s.jobs[event];
    forall x: Id | OnlyLastRepeats(job.direct) && Audience(job.direct, s.steady[event], x)
      ensures x in s.considered[event] + page.ids ||
              (|page.ids| == page.size && page.ids != [] && page.ids[|page.ids| - 1] < x)
    {
      assert x <= page.after || Reaches(page, x);
    }
    hide OnlyLastRepeats, Reaches, Audience, Followers, Recipients, PublishedOnce, PagesReach, PagesSorted;
  }

  lemma CommitPublishesOnce(s: State, page: Page, eligible: set<Id>)
    requires Inv(s) && Enabled(s, DoCommit(page, eligible)) && Applies(s, page)
    ensures PublishedOnce(Commit(s, page, eligible))
  {
    var s', event := Commit(s, page, eligible), page.event;
    var bots := Recipients(s.follows, s.jobs[event], page, eligible, page.ids);
    RecipientsSorted(s.follows, s.jobs[event], page, eligible, page.ids);
    hide OnlyLastRepeats, Reaches, Audience, Followers, Recipients, PagesReach, CursorCovers, FinishedCovers;
    var more := Publications(event, bots);
    forall p | p in more ensures p.event == event && p.bot in page.ids {
    }
    forall p | p in s.published ensures p !in more {
      if p.event == event {
        assert p.bot in s.considered[event] && p.bot <= page.after;
      }
    }
    assert forall i, j :: 0 <= i < j < |more| ==> more[i] != more[j];
  }

  lemma {:induction false} RecipientsSorted(follows: map<FollowKey, nat>, job: Job, page: Page, eligible: set<Id>, ids: seq<Id>)
    requires Sorted(ids)
    ensures Sorted(Recipients(follows, job, page, eligible, ids))
  {
    if ids != [] {
      var rest, last := ids[..|ids| - 1], ids[|ids| - 1];
      RecipientsSorted(follows, job, page, eligible, rest);
      assert forall x :: x in rest ==> x < last;
      SortedConcat(Recipients(follows, job, page, eligible, rest), [last]);
    }
  }

  lemma CommitKeepsInv(s: State, page: Page, eligible: set<Id>)
    requires Inv(s) && Enabled(s, DoCommit(page, eligible))
    ensures Inv(Commit(s, page, eligible))
  {
    if Applies(s, page) {
      CommitKeepsTables(s, page, eligible);
      CommitCovers(s, page, eligible);
      CommitPublishesOnce(s, page, eligible);
    }
  }

  lemma StepKeepsInv(s: State, step: Step)
    requires Inv(s) && Enabled(s, step)
    ensures Inv(Apply(s, step))
  {
    hide Inv;
    match step
    case DoEnqueue(event, job) => EnqueueKeepsInv(s, event, job);
    case DoFollow(follow, activation) => FollowKeepsInv(s, follow, activation);
    case DoUnfollow(follow) => UnfollowKeepsInv(s, follow);
    case DoPage(event, after, size) => DoPageKeepsInv(s, event, after, size);
    case DoCommit(page, eligible) => CommitKeepsInv(s, page, eligible);
    case DoExpire(event, _) => ExpireKeepsInv(s, event);
  }

  lemma {:induction false} RunsKeepInv(states: seq<State>, steps: seq<Step>, i: nat)
    requires IsRun(states, steps) && IsInitial(states[0]) && i < |states|
    ensures Inv(states[i])
  {
    if i > 0 {
      RunsKeepInv(states, steps, i - 1);
      StepKeepsInv(states[i - 1], steps[i - 1]);
    }
  }

  // ---------- What runs guarantee ----------

  /** However workers go stale, fail, repeat a page or use different page sizes, no recipient
      is told twice of one event, and only recipients a committed page considered are told. */
  lemma NobodyIsToldTwice(states: seq<State>, steps: seq<Step>, i: nat, a: nat, b: nat)
    requires IsRun(states, steps) && IsInitial(states[0]) && i < |states|
    requires a < |states[i].published| && b < |states[i].published| && states[i].published[a] == states[i].published[b]
    ensures a == b && states[i].published[a].event in states[i].considered
    ensures states[i].published[a].bot in states[i].considered[states[i].published[a].event]
  {
    RunsKeepInv(states, steps, i);
  }

  /** The cursor never goes back, and every committed page that leaves the job moves it. */
  lemma CursorsRise(s: State, step: Step, event: EventId)
    requires Inv(s) && Enabled(s, step) && event in s.jobs && event in Apply(s, step).jobs
    ensures Apply(s, step).jobs[event].after >= s.jobs[event].after
    ensures Apply(s, step).considered[event] != s.considered[event] ==> Apply(s, step).jobs[event].after > s.jobs[event].after
    ensures step.DoCommit? && step.page.event == event && Applies(s, step.page) ==> Apply(s, step).jobs[event].after > s.jobs[event].after
  {
    hide PagesReach, CursorCovers, FinishedCovers, PublishedOnce, OnlyLastRepeats;
    if step.DoCommit? {
      LastIsBeyond(s, step.page);
    }
  }

  lemma LastIsBeyond(s: State, page: Page)
    requires PagesSorted(s) && page in s.pages
    ensures |page.ids| == page.size ==> page.ids[|page.ids| - 1] > page.after
  {
    assert |page.ids| == page.size ==> page.ids[|page.ids| - 1] in page.ids;
  }

  /** A job goes only when it is two weeks old, or by a short page. */
  lemma JobsEndInTwoWays(s: State, step: Step, event: EventId)
    requires Inv(s) && Enabled(s, step) && event in s.jobs && event !in Apply(s, step).jobs
    ensures || (step.DoExpire? && s.jobs[event].createdAt + 1_209_600_000 <= step.now)
            || (step.DoCommit? && step.page.event == event && event in Apply(s, step).finished &&
                Apply(s, step).finished[event] == Finish(s.jobs[event], s.steady[event]))
  {
  }

  ghost predicate OnceIn(s: seq<Id>, x: Id) {
    exists k :: OnlyAt(s, x, k)
  }

  predicate OnlyAt(s: seq<Id>, x: Id, k: int) {
    0 <= k < |s| && s[k] == x && forall j :: 0 <= j < |s| && s[j] == x ==> j == k
  }

  lemma SortedHasOnce(s: seq<Id>, x: Id)
    requires Sorted(s) && x in s
    ensures OnceIn(s, x)
  {
    var k :| 0 <= k < |s| && s[k] == x;
    assert OnlyAt(s, x, k);
  }

  /** When a short page ended a job, every direct recipient and everybody who had followed
      since the job was enqueued was considered by exactly one committed page. */
  lemma FinishedJobsConsideredEverybody(states: seq<State>, steps: seq<Step>, i: nat, event: EventId, x: Id)
    requires IsRun(states, steps) && IsInitial(states[0]) && i < |states| && event in states[i].finished
    requires OnlyLastRepeats(states[i].finished[event].job.direct)
    requires x in states[i].finished[event].job.direct || x in states[i].finished[event].steady
    ensures event in states[i].considered && OnceIn(states[i].considered[event], x)
  {
    RunsKeepInv(states, steps, i);
    FinishedCoversAudience(states[i], event, x);
    SortedHasOnce(states[i].considered[event], x);
  }

  lemma FinishedCoversAudience(s: State, event: EventId, x: Id)
    requires TablesValid(s) && FinishedCovers(s) && event in s.finished && OnlyLastRepeats(s.finished[event].job.direct)
    requires Audience(s.finished[event].job.direct, s.finished[event].steady, x)
    ensures x in s.considered[event]
  {
  }
}
