/** Who is told: a finished job has told every recipient who could be told, and every
    notification there is can be explained by a committed page. */
module FanoutReach {
  import opened Outcomes
  import opened Ordering
  import opened Fanout
  import opened FanoutSafety

  // ---------- One page ----------

  /** The follow was active before the event was recorded. */
  predicate FollowsBefore(follows: map<FollowKey, nat>, job: Job, x: Id) {
    job.follower.Some? && FollowKey(job.follower.value, x) in follows && follows[FollowKey(job.follower.value, x)] < job.sequence
  }

  lemma ActiveFollowersMeans(follows: map<FollowKey, nat>, job: Job, x: Id)
    ensures x in ActiveFollowers(follows, job) <==> FollowsBefore(follows, job, x)
  {
    if x in ActiveFollowers(follows, job) {
      var k :| k in follows && Some(k.followed) == job.follower && follows[k] < job.sequence && k.follower == x;
      assert k == FollowKey(job.follower.value, x);
    }
    if FollowsBefore(follows, job, x) {
      assert Some(FollowKey(job.follower.value, x).followed) == job.follower;
    }
  }

  lemma PublicationsMean(event: EventId, bots: seq<Id>, p: Publication)
    ensures p in Publications(event, bots) <==> p.event == event && p.bot in bots
  {
    if p.event == event && p.bot in bots {
      var i :| 0 <= i < |bots| && bots[i] == p.bot;
      assert Publications(event, bots)[i] == p;
    }
  }

  /** A page that applies tells exactly these: everybody on it but the actor, who can be told
      and either was addressed directly, or follows since before the event and did so too
      when the page was read. A page that does not apply tells nobody. */
  lemma PageTellsExactly(s: State, page: Page, eligible: set<Id>, p: Publication)
    requires page.event in s.considered && page.event in s.steady && page.size > 0
    ensures var after := Commit(s, page, eligible).published;
            if !Applies(s, page) then after == s.published
            else
              var job := s.jobs[page.event];
              p in after <==>
                || p in s.published
                || (p.event == page.event && p.bot in page.ids && p.bot != job.actor && p.bot in eligible &&
                    (p.bot in job.direct || (p.bot in page.followed && FollowsBefore(s.follows, job, p.bot))))
  {
    if Applies(s, page) {
      var job := s.jobs[page.event];
      ActiveFollowersMeans(s.follows, job, p.bot);
      PublicationsMean(page.event, Recipients(s.follows, job, page, eligible, page.ids), p);
      hide ActiveFollowers, FollowsBefore, Publications;
    }
  }

  /** A job may be expired exactly from two weeks after its event on, and a page has one to
      fifty rows. */
  lemma LimitsAre(s: State, event: EventId, now: int, after: Id, size: nat)
    ensures Enabled(s, DoExpire(event, now)) <==> event in s.jobs && now - s.jobs[event].createdAt >= 1_209_600_000
    ensures Enabled(s, DoPage(event, after, size)) <==> event in s.jobs && 1 <= size <= 50
  {
  }

  /** A new job is stored as it is, beside the others, with nobody considered yet. */
  lemma JobsAreStored(s: State, event: EventId, job: Job)
    ensures var s' := Enqueue(s, event, job);
            && s'.jobs.Keys == s.jobs.Keys + {event} && s'.jobs[event] == job
            && (forall other :: other in s.jobs && other != event ==> s'.jobs[other] == s.jobs[other])
            && event in s'.considered && s'.considered[event] == []
            && s'.follows == s.follows && s'.published == s.published && s'.finished == s.finished
  {
  }

  /** An unfollow takes that follow, and nobody else's, out of the audiences. */
  lemma UnfollowsAreExact(s: State, follow: FollowKey)
    ensures var s' := Unfollow(s, follow);
            && s'.follows.Keys == s.follows.Keys - {follow} && (forall k :: k in s'.follows ==> s'.follows[k] == s.follows[k])
            && s'.jobs == s.jobs && s'.published == s.published
            && forall e :: e in s.steady ==> e in s'.steady && s'.steady[e] <= s.steady[e] <= s'.steady[e] + {follow.follower}
  {
  }

  lemma {:induction false} FewMembers(direct: seq<Id>)
    ensures |Members(direct)| <= |direct|
  {
    if direct == [] {
      assert Members(direct) == {};
    } else {
      var rest, last := direct[..|direct| - 1], direct[|direct| - 1];
      FewMembers(rest);
      assert direct == rest + [last];
      assert Members(direct) == Members(rest) + {last};
    }
  }

  /** A direct audience of fewer than fifty is told by the first page, which ends the job. */
  lemma SmallAudiencesAreToldAtOnce(s: State, event: EventId, job: Job, eligible: set<Id>, x: Id)
    requires Inv(s) && Enabled(s, DoEnqueue(event, job)) && job.follower == None
    requires |job.direct| < 50 && OnlyLastRepeats(job.direct) && x in job.direct && x != job.actor && x in eligible
    ensures var stored := Enqueue(s, event, job);
            var page := ReadPage(stored.follows, event, stored.jobs[event], 0, 50);
            var s' := Commit(stored, page, eligible);
            Publication(event, x) in s'.published && event !in s'.jobs && event in s'.finished
  {
    hide Inv, ReadPage, Commit, OnlyLastRepeats;
    NoRecipientIsZero(s, event, job);
    var stored := Enqueue(s, event, job);
    var page := ReadPage(stored.follows, event, job, 0, 50);
    FirstPageHolds(stored.follows, event, job, x);
    ShortPagesFinish(stored, page, eligible);
    PageTellsExactly(stored, page, eligible, Publication(event, x));
  }

  lemma NoRecipientIsZero(s: State, event: EventId, job: Job)
    requires Enabled(s, DoEnqueue(event, job))
    ensures job.after == 0 && forall x :: x in job.direct ==> x > 0
  {
  }

  lemma ShortPagesFinish(s: State, page: Page, eligible: set<Id>)
    requires page.event in s.considered && page.event in s.steady && page.size > 0 && Applies(s, page) && |page.ids| < page.size
    ensures page.event !in Commit(s, page, eligible).jobs && page.event in Commit(s, page, eligible).finished
  {
    hide Recipients, Publications;
  }

  lemma FirstPageHolds(follows: map<FollowKey, nat>, event: EventId, job: Job, x: Id)
    requires job.follower == None && |job.direct| < 50 && OnlyLastRepeats(job.direct) && x in job.direct && x > 0
    ensures var page := ReadPage(follows, event, job, 0, 50);
            page.event == event && page.after == 0 && page.size == 50 && |page.ids| < 50 && x in page.ids
  {
    hide OnlyLastRepeats, BoundedIds, FollowerArm;
    FirstPageIsShort(follows, event, job);
    PageReachesAudience(follows, event, job, 0, 50, x);
  }

  lemma FirstPageIsShort(follows: map<FollowKey, nat>, event: EventId, job: Job)
    requires job.follower == None && |job.direct| < 50 && OnlyLastRepeats(job.direct)
    ensures |ReadPage(follows, event, job, 0, 50).ids| < 50
  {
    assert Followers(follows, job.follower) == {};
    BoundedPageIsExact(job.direct, {}, 0, 50);
    FewMembers(job.direct);
    FewerBelow(Fanout.Beyond(Members(job.direct) + {}, 0), Members(job.direct));
  }

  // ---------- Where notifications come from ----------

  /** This commit told the bot of the event. */
  ghost predicate ToldAt(states: seq<State>, steps: seq<Step>, k: nat, p: Publication) {
    && k < |steps| && k < |states| && steps[k].DoCommit? && steps[k].page.event == p.event && Applies(states[k], steps[k].page)
    && p.bot in steps[k].page.ids && p.bot in steps[k].eligible
    && var job := states[k].jobs[p.event];
       p.bot != job.actor && (p.bot in job.direct || FollowsBefore(states[k].follows, job, p.bot))
  }

  lemma OnlyCommitsTell(s: State, step: Step)
    requires Enabled(s, step) && !step.DoCommit?
    ensures Apply(s, step).published == s.published
  {
  }

  /** Every notification comes from a committed page that named the bot, while it could be
      told, as a direct recipient or as a follower from before the event; never the actor. */
  lemma {:induction false} NotificationsAreExplained(states: seq<State>, steps: seq<Step>, i: nat, p: Publication) returns (k: nat)
    requires IsRun(states, steps) && IsInitial(states[0]) && i < |states| && p in states[i].published
    ensures k < i && ToldAt(states, steps, k, p)
  {
    assert i > 0;
    assert states[i] == Apply(states[i - 1], steps[i - 1]) && Enabled(states[i - 1], steps[i - 1]);
    if p in states[i - 1].published {
      k := NotificationsAreExplained(states, steps, i - 1, p);
    } else {
      k := i - 1;
      if steps[k].DoCommit? {
        PageTellsExactly(states[k], steps[k].page, steps[k].eligible, p);
      } else {
        OnlyCommitsTell(states[k], steps[k]);
      }
    }
  }

  // ---------- What finished jobs have told ----------

  /** Followers since the enqueue keep the follow they had; pages read since then flag them. */
  ghost predicate Flagged(s: State)
    requires TablesValid(s)
  {
    forall p, x: Id ::
      (p in s.pages && p.event in s.jobs && x in p.ids && OnlyLastRepeats(s.jobs[p.event].direct) &&
       x in s.steady[p.event] && FollowsBefore(s.follows, s.jobs[p.event], x)) ==> x in p.followed
  }

  lemma SteadyFollows(s: State, event: EventId, x: Id)
    requires TablesValid(s) && event in s.jobs && x in s.steady[event]
    ensures s.jobs[event].follower.Some? && FollowKey(s.jobs[event].follower.value, x) in s.follows
  {
    assert x in Followers(s.follows, s.jobs[event].follower);
    var k :| k in s.follows && Some(k.followed) == s.jobs[event].follower && k.follower == x;
    assert k == FollowKey(s.jobs[event].follower.value, x);
  }

  lemma ReadPageFlags(s: State, event: EventId, after: Id, size: nat, x: Id)
    requires TablesValid(s) && event in s.jobs && OnlyLastRepeats(s.jobs[event].direct)
    requires x in s.steady[event] && FollowsBefore(s.follows, s.jobs[event], x)
    requires x in ReadPage(s.follows, event, s.jobs[event], after, size).ids
    ensures x in ReadPage(s.follows, event, s.jobs[event], after, size).followed
  {
    var job := s.jobs[event];
    var followers := Followers(s.follows, job.follower);
    assert x in followers;
    PageFlagsAreExact(job.direct, followers, after, size, x);
    ActiveFollowersMeans(s.follows, job, x);
    hide BoundedIds, FollowerArm, ActiveFollowers, Followers, OnlyLastRepeats;
  }

  /** What a later state may do to the follows that a job's audience rests on. */
  lemma FlagsStay(s: State, s': State)
    requires TablesValid(s) && TablesValid(s') && Flagged(s) && s'.pages == s.pages
    requires forall e :: e in s'.jobs && (exists p :: p in s.pages && p.event == e) ==>
               e in s.jobs && s'.jobs[e] == s.jobs[e].(after := s'.jobs[e].after) && s'.steady[e] <= s.steady[e]
    requires forall e, x: Id :: e in s'.jobs && e in s.jobs && x in s'.steady[e] && s'.jobs[e].follower.Some? ==>
               FollowsBefore(s'.follows, s'.jobs[e], x) ==> FollowsBefore(s.follows, s'.jobs[e], x)
    ensures Flagged(s')
  {
    hide OnlyLastRepeats;
    forall p, x: Id | p in s'.pages && p.event in s'.jobs && x in p.ids && OnlyLastRepeats(s'.jobs[p.event].direct) &&
                      x in s'.steady[p.event] && FollowsBefore(s'.follows, s'.jobs[p.event], x)
      ensures x in p.followed
    {
      assert FollowsBefore(s.follows, s.jobs[p.event], x);
    }
  }

  lemma StepKeepsFlags(s: State, step: Step)
    requires Inv(s) && Enabled(s, step) && Flagged(s) && Inv(Apply(s, step))
    ensures Flagged(Apply(s, step))
  {
    var s' := Apply(s, step);
    hide PagesSorted, PagesReach, ConsideredInOrder, CursorCovers, FinishedCovers, PublishedOnce, OnlyLastRepeats, ReadPage, Recipients;
    match step
    case DoPage(event, after, size) => PageKeepsFlags(s, event, after, size);
    case DoFollow(follow, activation) =>
      forall e, x: Id | e in s'.jobs && e in s.jobs && x in s'.steady[e]
        ensures FollowsBefore(s'.follows, s'.jobs[e], x) ==> FollowsBefore(s.follows, s'.jobs[e], x)
      {
        SteadyFollows(s, e, x);
      }
      FlagsStay(s, s');
    case DoCommit(page, eligible) =>
      CommitKeepsJobs(s, page, eligible);
      hide Commit;
      FlagsStay(s, s');
    case _ =>
      FlagsStay(s, s');
  }

  lemma CommitKeepsJobs(s: State, page: Page, eligible: set<Id>)
    requires page.event in s.considered && page.event in s.steady && page.size > 0
    ensures var s' := Commit(s, page, eligible);
            && s'.pages == s.pages && s'.follows == s.follows && s'.steady == s.steady
            && forall e :: e in s'.jobs ==> e in s.jobs && s'.jobs[e] == s.jobs[e].(after := s'.jobs[e].after)
  {
    hide Recipients, Publications;
  }

  lemma PageKeepsFlags(s: State, event: EventId, after: Id, size: nat)
    requires TablesValid(s) && Flagged(s) && Enabled(s, DoPage(event, after, size)) && TablesValid(Apply(s, DoPage(event, after, size)))
    ensures Flagged(Apply(s, DoPage(event, after, size)))
  {
    var s' := Apply(s, DoPage(event, after, size));
    hide OnlyLastRepeats, ReadPage;
    forall p, x: Id | p in s'.pages && p.event in s'.jobs && x in p.ids && OnlyLastRepeats(s'.jobs[p.event].direct) &&
                      x in s'.steady[p.event] && FollowsBefore(s'.follows, s'.jobs[p.event], x)
      ensures x in p.followed
    {
      if p !in s.pages {
        PageEvent(s, event, after, size);
        ReadPageFlags(s, event, after, size, x);
      }
    }
  }

  lemma PageEvent(s: State, event: EventId, after: Id, size: nat)
    requires event in s.jobs
    ensures ReadPage(s.follows, event, s.jobs[event], after, size).event == event
  {
  }

  lemma {:induction false} RunsKeepFlags(states: seq<State>, steps: seq<Step>, i: nat)
    requires IsRun(states, steps) && IsInitial(states[0]) && i < |states|
    ensures Inv(states[i]) && Flagged(states[i])
  {
    RunsKeepInv(states, steps, i);
    if i > 0 {
      RunsKeepFlags(states, steps, i - 1);
      StepKeepsFlags(states[i - 1], steps[i - 1]);
    }
  }

  /** The bot could be told whenever a page of the event was committed. */
  predicate AlwaysEligible(steps: seq<Step>, i: nat, event: EventId, x: Id) {
    forall k :: 0 <= k < i && k < |steps| && steps[k].DoCommit? && steps[k].page.event == event ==> x in steps[k].eligible
  }

  /** Who a job is for: a direct recipient, or somebody who has followed since before the
      event. The actor itself is never told. */
  predicate Due(s: State, event: EventId, x: Id)
    requires event in s.jobs && event in s.steady
  {
    var job := s.jobs[event];
    x != job.actor &&
    (x in job.direct || (OnlyLastRepeats(job.direct) && x in s.steady[event] && FollowsBefore(s.follows, job, x)))
  }

  lemma PageTellsTheDue(s: State, page: Page, eligible: set<Id>, x: Id)
    requires Inv(s) && Flagged(s) && Enabled(s, DoCommit(page, eligible)) && Applies(s, page)
    requires x in page.ids && x in eligible && Due(s, page.event, x)
    ensures Publication(page.event, x) in Commit(s, page, eligible).published
  {
    hide PagesSorted, PagesReach, ConsideredInOrder, CursorCovers, FinishedCovers, PublishedOnce, OnlyLastRepeats, Commit;
    PageTellsExactly(s, page, eligible, Publication(page.event, x));
  }

  /** What one step does to a job that goes on. */
  lemma JobStep(s: State, step: Step, event: EventId, x: Id)
    requires Inv(s) && Enabled(s, step) && Inv(Apply(s, step)) && event in Apply(s, step).jobs && Due(Apply(s, step), event, x)
    ensures event !in s.jobs ==> Apply(s, step).considered[event] == []
    ensures event in s.jobs ==> Due(s, event, x)
    ensures forall p :: p in s.published ==> p in Apply(s, step).published
    ensures event in s.jobs && Apply(s, step).considered[event] != s.considered[event] ==>
              step.DoCommit? && step.page.event == event && Applies(s, step.page) &&
              Apply(s, step).considered[event] == s.considered[event] + step.page.ids
  {
    hide PagesSorted, PagesReach, ConsideredInOrder, CursorCovers, FinishedCovers, PublishedOnce, OnlyLastRepeats, ReadPage, Recipients,
         Followers;
    if event in s.jobs && x in Apply(s, step).steady[event] {
      if step.DoFollow? {
        SteadyFollows(s, event, x);
      }
    }
  }

  lemma {:induction false} ConsideredAreTold(states: seq<State>, steps: seq<Step>, i: nat, event: EventId, x: Id)
    requires IsRun(states, steps) && IsInitial(states[0]) && i < |states| && event in states[i].jobs
    requires event in states[i].considered && x in states[i].considered[event] && event in states[i].steady
    requires Due(states[i], event, x) && AlwaysEligible(steps, i, event, x)
    ensures Publication(event, x) in states[i].published
  {
    hide Inv, Flagged, Due, Apply, Enabled, Applies, Commit, IsInitial;
    if i == 0 {
      NoJobsAtFirst(states[0]);
    } else {
      RunsKeepFlags(states, steps, i - 1);
      RunsKeepFlags(states, steps, i);
      assert states[i] == Apply(states[i - 1], steps[i - 1]) && Enabled(states[i - 1], steps[i - 1]);
      JobStep(states[i - 1], steps[i - 1], event, x);
      JobsTracked(states[i - 1]);
      if x in states[i - 1].considered[event] {
        ConsideredAreTold(states, steps, i - 1, event, x);
      } else {
        CommitTells(states[i - 1], steps[i - 1], event, x);
      }
    }
  }

  lemma NoJobsAtFirst(s: State)
    requires IsInitial(s)
    ensures s.jobs == map[] && s.finished == map[]
  {
  }

  lemma JobsTracked(s: State)
    requires Inv(s)
    ensures s.jobs.Keys <= s.considered.Keys && s.jobs.Keys <= s.steady.Keys && TablesValid(s)
  {
  }

  lemma CommitTells(s: State, step: Step, event: EventId, x: Id)
    requires Inv(s) && Flagged(s) && Enabled(s, step) && step.DoCommit? && step.page.event == event && Applies(s, step.page)
    requires x in step.page.ids && x in step.eligible && event in s.steady && Due(s, event, x)
    ensures Publication(event, x) in Apply(s, step).published
  {
    hide Inv, Flagged, Due, Applies, Commit;
    PageTellsTheDue(s, step.page, step.eligible, x);
  }

  /** The main theorem: when a short page ends a job at step m, everybody it was for, and who
      could be told whenever one of its pages was committed, has been told, for ever. */
  lemma FinishedJobsToldEverybody(states: seq<State>, steps: seq<Step>, m: nat, j: nat, event: EventId, x: Id)
    requires IsRun(states, steps) && IsInitial(states[0]) && m < j < |states|
    requires event in states[m].jobs && event in states[m + 1].finished && event in states[m].steady
    requires Due(states[m], event, x) && OnlyLastRepeats(states[m].jobs[event].direct)
    requires AlwaysEligible(steps, m + 1, event, x)
    ensures Publication(event, x) in states[j].published
  {
    hide Inv, Flagged, Due, Apply, Enabled, Applies, Commit, IsInitial, OnlyLastRepeats;
    RunsKeepFlags(states, steps, m);
    assert states[m + 1] == Apply(states[m], steps[m]) && Enabled(states[m], steps[m]);
    JobsTracked(states[m]);
    FinishingStep(states[m], steps[m], event, x);
    FinishedJobsConsideredEverybody(states, steps, m + 1, event, x);
    if x in states[m].considered[event] {
      ConsideredAreTold(states, steps, m, event, x);
      PublishedStays(states, steps, m, j, Publication(event, x));
    } else {
      assert x in states[m + 1].considered[event];
      CommitTells(states[m], steps[m], event, x);
      PublishedStays(states, steps, m + 1, j, Publication(event, x));
    }
  }

  lemma FinishingStep(s: State, step: Step, event: EventId, x: Id)
    requires Inv(s) && Enabled(s, step) && event in s.jobs && event in Apply(s, step).finished && event in s.steady && Due(s, event, x)
    ensures step.DoCommit? && step.page.event == event && Applies(s, step.page) && event in Apply(s, step).considered
    ensures Apply(s, step).considered[event] == s.considered[event] + step.page.ids
    ensures Apply(s, step).finished[event].job == s.jobs[event]
    ensures x in s.jobs[event].direct || x in Apply(s, step).finished[event].steady
  {
    hide PagesSorted, PagesReach, ConsideredInOrder, CursorCovers, FinishedCovers, PublishedOnce, OnlyLastRepeats, ReadPage, Recipients;
  }

  lemma {:induction false} PublishedStays(states: seq<State>, steps: seq<Step>, i: nat, j: nat, p: Publication)
    requires IsRun(states, steps) && i <= j < |states| && p in states[i].published
    ensures p in states[j].published
    decreases j - i
  {
    if i < j {
      assert states[i + 1] == Apply(states[i], steps[i]);
      PublishedGrows(states[i], steps[i], p);
      PublishedStays(states, steps, i + 1, j, p);
    }
  }

  lemma PublishedGrows(s: State, step: Step, p: Publication)
    requires Enabled(s, step) && p in s.published
    ensures p in Apply(s, step).published
  {
    hide Recipients, Publications, ReadPage;
  }
}
