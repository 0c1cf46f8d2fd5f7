/** The fanout tables as a worker updates them: enqueueing, one delivered page, and the
    scheduled run with its budget. */
module FanoutWorker {
  import opened Outcomes
  import opened Ordering
  import opened Fanout
  import opened FanoutSafety
  import opened Retention

  const RUN_BUDGET: nat := 500
  const RUN_JOBS: nat := 100
  const RETRY_MS: int := 5 * 60_000

  /** A due job as the run's first query returned it. */
  datatype Due = Due(event: EventId, after: Id)

  function Events(due: seq<Due>): (r: seq<EventId>)
    ensures |r| == |due| && forall i :: 0 <= i < |due| ==> r[i] == due[i].event
  {
    seq(|due|, i requires 0 <= i < |due| => due[i].event)
  }

  /** The first query of a run: the hundred jobs whose next attempt has been due longest. */
  predicate LongestDue(due: seq<Due>, jobs: map<EventId, Job>, attempts: map<EventId, int>, now: int) {
    && OldestFirst(attempts, Chosen(Events(due)), now, 100) && InOrder(attempts, Events(due)) && |due| <= 100
    && (forall d :: d in due ==> d.event in jobs && d.after == jobs[d.event].after)
  }

  class FanoutService {
    var jobs: map<EventId, Job>
    var follows: map<FollowKey, nat>
    var attempts: map<EventId, int>
    ghost var pages: set<Page>
    ghost var considered: map<EventId, seq<Id>>
    ghost var steady: map<EventId, set<Id>>
    ghost var finished: map<EventId, Finish>
    ghost var published: seq<Publication>

    ghost function View(): State
      reads this
    {
      State(jobs, follows, pages, considered, steady, finished, published)
    }

    /** Every job has the date of its next attempt. */
    ghost predicate Valid()
      reads this
    {
      Inv(View()) && attempts.Keys == jobs.Keys
    }

    constructor (current: map<FollowKey, nat>)
      requires forall k :: k in current ==> k.follower > 0
      ensures IsInitial(View()) && Valid() && follows == current
    {
      jobs, follows, attempts := map[], current, map[];
      pages, considered, steady, finished, published := {}, map[], map[], map[], [];
    }

    /** enqueueBotNotificationFanout: the stored job never has a follower audience, and a
        writer that is not deferred delivers the first page at once. */
    method Enqueue(event: EventId, job: Job, deferred: bool, eligible: set<Id>)
      requires Valid() && Enabled(View(), DoEnqueue(event, job))
      modifies this
      ensures Valid()
      ensures forall e :: e in attempts ==> if job.direct != [] && e == event then attempts[e] == job.createdAt
                                            else e in old(attempts) && attempts[e] == old(attempts)[e]
      ensures job.direct == [] ==> View() == old(View())
      ensures job.direct != [] && deferred ==> View() == Fanout.Enqueue(old(View()), event, job.(follower := None))
      ensures job.direct != [] && !deferred ==>
                var s := Fanout.Enqueue(old(View()), event, job.(follower := None));
                var page := ReadPage(s.follows, event, s.jobs[event], 0, CHUNK);
                View() == Commit(s.(pages := s.pages + {page}), page, eligible)
    {
      hide Inv, ReadPage, Commit;
      if job.direct == [] {
        return;
      }
      var stored := job.(follower := None);
      EnqueueKeepsInv(View(), event, stored);
      steady := steady[event := Followers(follows, None)];
      jobs, considered := jobs[event := stored], considered[event := []];
      attempts := attempts[event := job.createdAt];
      if !deferred {
        var candidates, recipients := DeliverChunk(event, 0, CHUNK, eligible);
      }
    }

    /** deliverBotNotificationChunk at the position `after`, which may be out of date. */
    method DeliverChunk(event: EventId, after: Id, pageSize: nat, eligible: set<Id>) returns (candidates: nat, recipients: nat)
      requires Valid() && event in jobs && 1 <= pageSize <= CHUNK
      modifies this
      ensures Valid() && jobs.Keys <= old(jobs).Keys && attempts == map e | e in jobs :: old(attempts)[e]
      ensures var s, page := old(View()), ReadPage(old(follows), event, old(jobs)[event], after, pageSize);
              && View() == Commit(s.(pages := s.pages + {page}), page, eligible)
              && candidates == |page.ids| <= pageSize
      ensures recipients == |published| - |old(published)|
    {
      hide ReadPage, Inv;
      var job := jobs[event];
      var page := ReadPage(follows, event, job, after, pageSize);
      PageIsSorted(follows, event, job, after, pageSize);
      PageNamesItsRead(follows, event, job, after, pageSize);
      JobsAreTracked(View(), event);
      DoPageKeepsInv(View(), event, after, pageSize);
      pages := pages + {page};
      CommitKeepsInv(View(), page, eligible);
      var notifications := Notifications(job, page);
      candidates, recipients := |page.ids|, 0;
      if jobs[event].after == after {
        var inserted := Inserted(job, page, eligible, notifications);
        recipients := |inserted|;
        published := published + Publications(event, inserted);
        considered := considered[event := considered[event] + page.ids];
        if |page.ids| < pageSize {
          finished := finished[event := Finish(job, steady[event])];
          jobs, attempts := jobs - {event}, attempts - {event};
        } else {
          jobs := jobs[event := job.(after := page.ids[|page.ids| - 1])];
        }
      }
    }

    /** The loop that builds a notification for every row meant for it. */
    method Notifications(job: Job, page: Page) returns (built: seq<Id>)
      ensures built == Built(job, page, page.ids)
    {
      built := [];
      var i := 0;
      while i < |page.ids|
        invariant i <= |page.ids| && built == Built(job, page, page.ids[..i])
      {
        var x := page.ids[i];
        assert page.ids[..i + 1][..i] == page.ids[..i];
        i := i + 1;
        if x == job.actor {
          continue;
        }
        if x !in job.direct && x !in page.followed {
          continue;
        }
        built := built + [x];
      }
      assert page.ids[..i] == page.ids;
    }

    /** The rows of the insert that pass its own checks. */
    method Inserted(job: Job, page: Page, eligible: set<Id>, built: seq<Id>) returns (inserted: seq<Id>)
      requires built == Built(job, page, page.ids)
      ensures inserted == Recipients(follows, job, page, eligible, page.ids)
    {
      inserted := [];
      var i := 0;
      var active := ActiveFollowers(follows, job);
      while i < |built|
        invariant i <= |built| && inserted == Passing(follows, job, eligible, built[..i])
      {
        var x := built[i];
        assert built[..i + 1][..i] == built[..i];
        if x in eligible && (x in job.direct || x in active) {
          inserted := inserted + [x];
        }
        i := i + 1;
      }
      assert built[..i] == built;
      PassingBuilt(follows, job, page, eligible, page.ids);
    }

    method DueJobs(now: int) returns (due: seq<Due>)
      requires Valid()
      ensures LongestDue(due, jobs, attempts, now)
    {
      hide Inv, OldestFirst;
      var order := QueueOldest(attempts, now, RUN_JOBS);
      var current := jobs;
      assert forall k :: k in order ==> k in attempts.Keys;
      due := seq(|order|, i requires 0 <= i < |order| && order[i] in current => Due(order[i], current[order[i]].after));
      assert Events(due) == order;
    }

    /** runBotNotificationFanout. Pages of `failing` jobs throw before their batch. A failed
        page keeps its share of the budget, a short one returns it; whatever becomes of a
        job, its next attempt was put off first. */
    method Run(now: int, failing: set<EventId>, eligible: set<Id>)
      returns (events: nat, candidates: nat, recipients: nat, ghost due: seq<Due>)
      requires Valid()
      modifies this
      ensures Valid() && LongestDue(due, old(jobs), old(attempts), now)
      ensures events <= |due| && recipients == |published| - |old(published)|
      ensures Progress(View(), events, candidates) == RunFrom(Progress(old(View()), 0, 0), due, now, failing, eligible)
      ensures candidates <= 500 && (candidates < 500 ==> events == |due|)
      ensures PutOff(old(attempts), attempts, due[..events], now)
    {
      hide Inv, Commit, ReadPage, LongestDue, PutOff, RunOne;
      events, candidates, recipients := 0, 0, 0;
      var rows := DueJobs(now);
      due := rows;
      DueJobsAreJobs(due, jobs, attempts, now);
      NobodyPutOff(attempts, now);
      ghost var spec := RunFrom(Progress(View(), 0, 0), due, now, failing, eligible);
      assert due[0..] == due;
      while events < |rows| && candidates < RUN_BUDGET
        invariant events <= |due| && Valid() && candidates <= RUN_BUDGET
        invariant recipients == |published| - |old(published)|
        invariant forall i :: events <= i < |due| ==> due[i].event in jobs
        invariant spec == RunFrom(Progress(View(), events, candidates), due[events..], now, failing, eligible)
        invariant PutOff(old(attempts), attempts, due[..events], now)
      {
        label turn:
        var row := rows[events];
        assert due[events..][0] == row && due[events..][1..] == due[events + 1..];
        PutOneOff(old(attempts), attempts, due, events, now);
        var used, told := TakeTurn(row, candidates, now, failing, eligible, events);
        FewerPutOff(old(attempts), old@turn(attempts)[row.event := now + RETRY_MS], attempts, due[..events + 1], now);
        events, candidates, recipients := events + 1, used, recipients + told;
      }
    }

    /** One turn of that loop: the next attempt is put off, then the job goes if it has
        expired, or one page of it is delivered. */
    method TakeTurn(row: Due, budget: nat, now: int, failing: set<EventId>, eligible: set<Id>, ghost events: nat)
      returns (candidates: nat, recipients: nat)
      requires Valid() && row.event in jobs && budget < RUN_BUDGET
      modifies this
      ensures Valid() && budget <= candidates <= RUN_BUDGET && recipients == |published| - |old(published)|
      ensures Progress(View(), events + 1, candidates) == RunOne(Progress(old(View()), events, budget), row, now, failing, eligible)
      ensures old(jobs).Keys - {row.event} <= jobs.Keys <= old(jobs).Keys
      ensures forall e :: e in attempts ==> attempts[e] == old(attempts)[row.event := now + RETRY_MS][e]
    {
      hide Inv, Commit, ReadPage;
      candidates, recipients := budget, 0;
      JobsAreTracked(View(), row.event);
      attempts := attempts[row.event := now + RETRY_MS];
      if jobs[row.event].createdAt + RETENTION_MS <= now {
        ExpireKeepsInv(View(), row.event);
        jobs, attempts := jobs - {row.event}, attempts - {row.event};
        return;
      }
      var pageSize := if CHUNK < RUN_BUDGET - candidates then CHUNK else RUN_BUDGET - candidates;
      candidates := candidates + pageSize;
      if row.event in failing {
        return;
      }
      CommitTouchesOneJob(View(), row.event, row.after, pageSize, eligible);
      var found, told := DeliverChunk(row.event, row.after, pageSize, eligible);
      recipients, candidates := told, candidates - (pageSize - found);
    }
  }

  /** The jobs that are left and were handled wait for another five minutes; the others have
      the date they had. */
  predicate PutOff(before: map<EventId, int>, after: map<EventId, int>, handled: seq<Due>, now: int) {
    forall e :: e in after ==>
      e in before && after[e] == (if e in Chosen(Events(handled)) then now + 300_000 else before[e])
  }

  lemma NobodyPutOff(attempts: map<EventId, int>, now: int)
    ensures PutOff(attempts, attempts, [], now)
  {
  }

  lemma PutOneOff(before: map<EventId, int>, after: map<EventId, int>, due: seq<Due>, i: nat, now: int)
    requires i < |due| && due[i].event in after && PutOff(before, after, due[..i], now)
    ensures PutOff(before, after[due[i].event := now + RETRY_MS], due[..i + 1], now)
  {
    assert Events(due[..i + 1]) == Events(due[..i]) + [due[i].event];
  }

  lemma FewerPutOff(before: map<EventId, int>, more: map<EventId, int>, fewer: map<EventId, int>, handled: seq<Due>, now: int)
    requires PutOff(before, more, handled, now)
    requires forall e :: e in fewer ==> e in more && fewer[e] == more[e]
    ensures PutOff(before, fewer, handled, now)
  {
  }

  lemma DueJobsAreJobs(due: seq<Due>, jobs: map<EventId, Job>, attempts: map<EventId, int>, now: int)
    requires LongestDue(due, jobs, attempts, now)
    ensures forall i :: 0 <= i < |due| ==> due[i].event in jobs
    ensures forall i, j :: 0 <= i < j < |due| ==> due[i].event != due[j].event
  {
    hide OldestFirst;
    assert forall i, j :: 0 <= i < j < |due| ==> Events(due)[i] != Events(due)[j];
  }

  /** A job that stays after its turn is not due again for five minutes, so a run that comes
      sooner has the whole of its budget for other jobs. */
  lemma HandledJobsWait(before: map<EventId, int>, after: map<EventId, int>, handled: seq<Due>, now: int,
                        jobs: map<EventId, Job>, next: seq<Due>, later: int)
    requires PutOff(before, after, handled, now) && LongestDue(next, jobs, after, later) && later < now + 300_000
    ensures forall d, e :: d in handled && e in next ==> d.event != e.event
  {
    forall d, e | d in handled && e in next ensures d.event != e.event {
      var i :| 0 <= i < |next| && next[i] == e;
      assert Events(next)[i] in Chosen(Events(next));
      var j :| 0 <= j < |handled| && handled[j] == d;
      assert Events(handled)[j] in Chosen(Events(handled));
    }
  }

  /** How far a run has come: the tables, the jobs handled and the ids considered. */
  datatype Progress = Progress(s: State, events: nat, candidates: nat)

  /** The jobs of a run one after the other, until the budget is spent. */
  function RunFrom(p: Progress, due: seq<Due>, now: int, failing: set<EventId>, eligible: set<Id>): Progress
    decreases due
  {
    if due == [] || p.candidates >= RUN_BUDGET then p
    else RunFrom(RunOne(p, due[0], now, failing, eligible), due[1..], now, failing, eligible)
  }

  function RunOne(p: Progress, row: Due, now: int, failing: set<EventId>, eligible: set<Id>): Progress
    requires p.candidates < RUN_BUDGET
  {
    var s, event := p.s, row.event;
    if event !in s.jobs || event !in s.considered || event !in s.steady then p.(events := p.events + 1)
    else if s.jobs[event].createdAt + RETENTION_MS <= now then Progress(s.(jobs := s.jobs - {event}), p.events + 1, p.candidates)
    else
      var pageSize := if CHUNK < RUN_BUDGET - p.candidates then CHUNK else RUN_BUDGET - p.candidates;
      if event in failing then Progress(s, p.events + 1, p.candidates + pageSize)
      else
        var page := ReadPage(s.follows, event, s.jobs[event], row.after, pageSize);
        Progress(Commit(s.(pages := s.pages + {page}), page, eligible), p.events + 1, p.candidates + |page.ids|)
  }

  /** A run of the worker is a run of the protocol: whatever holds of all runs holds of it. */
  lemma {:induction false} WorkersRunTheProtocol(p: Progress, due: seq<Due>, now: int, failing: set<EventId>, eligible: set<Id>)
    returns (states: seq<State>, steps: seq<Step>)
    requires Inv(p.s) && p.candidates <= 500
    ensures IsRun(states, steps) && states[0] == p.s && states[|steps|] == RunFrom(p, due, now, failing, eligible).s
    ensures RunFrom(p, due, now, failing, eligible).candidates <= 500
    decreases due
  {
    hide Inv, Apply, Enabled, RunOne;
    if due == [] || p.candidates >= RUN_BUDGET {
      states, steps := [p.s], [];
    } else {
      var next := RunOne(p, due[0], now, failing, eligible);
      var first, taken := TurnsAreSteps(p, due[0], now, failing, eligible);
      var rest, more := WorkersRunTheProtocol(next, due[1..], now, failing, eligible);
      RunsJoin(first, taken, rest, more);
      states, steps := first + rest[1..], taken + more;
    }
  }

  lemma RunsJoin(a: seq<State>, steps: seq<Step>, b: seq<State>, more: seq<Step>)
    requires IsRun(a, steps) && IsRun(b, more) && a[|steps|] == b[0]
    ensures IsRun(a + b[1..], steps + more) && (a + b[1..])[0] == a[0] && (a + b[1..])[|steps + more|] == b[|more|]
  {
    hide Enabled, Apply;
    var all, whole := a + b[1..], steps + more;
    assert forall i :: |steps| <= i < |all| ==> all[i] == b[i - |steps|];
  }

  /** One turn: nothing, an expiry of a job two weeks old, or one page read and committed. */
  lemma TurnsAreSteps(p: Progress, row: Due, now: int, failing: set<EventId>, eligible: set<Id>)
    returns (states: seq<State>, steps: seq<Step>)
    requires Inv(p.s) && p.candidates < 500
    ensures IsRun(states, steps) && states[0] == p.s && states[|steps|] == RunOne(p, row, now, failing, eligible).s
    ensures Inv(RunOne(p, row, now, failing, eligible).s) && RunOne(p, row, now, failing, eligible).candidates <= 500
  {
    hide Inv, ReadPage, Commit;
    var s, event := p.s, row.event;
    if event !in s.jobs || event !in s.considered || event !in s.steady {
      states, steps := [s], [];
    } else if s.jobs[event].createdAt + RETENTION_MS <= now {
      steps := [DoExpire(event, now)];
      states := [s, Apply(s, steps[0])];
      StepKeepsInv(s, steps[0]);
    } else if event in failing {
      states, steps := [s], [];
    } else {
      var pageSize := if CHUNK < RUN_BUDGET - p.candidates then CHUNK else RUN_BUDGET - p.candidates;
      var page := ReadPage(s.follows, event, s.jobs[event], row.after, pageSize);
      PageIsSorted(s.follows, event, s.jobs[event], row.after, pageSize);
      PageNamesItsRead(s.follows, event, s.jobs[event], row.after, pageSize);
      steps := [DoPage(event, row.after, pageSize), DoCommit(page, eligible)];
      StepKeepsInv(s, steps[0]);
      var read := Apply(s, steps[0]);
      StepKeepsInv(read, steps[1]);
      states := [s, read, Apply(read, steps[1])];
    }
  }

  lemma JobsAreTracked(s: State, event: EventId)
    requires Inv(s) && event in s.jobs
    ensures event in s.considered && event in s.steady
  {
  }

  function Built(job: Job, page: Page, ids: seq<Id>): seq<Id> {
    if ids == [] then []
    else
      var built, x := Built(job, page, ids[..|ids| - 1]), ids[|ids| - 1];
      if x != job.actor && (x in job.direct || x in page.followed) then built + [x] else built
  }

  function Passing(follows: map<FollowKey, nat>, job: Job, eligible: set<Id>, built: seq<Id>): seq<Id> {
    if built == [] then []
    else
      var passing, x := Passing(follows, job, eligible, built[..|built| - 1]), built[|built| - 1];
      if x in eligible && (x in job.direct || x in ActiveFollowers(follows, job)) then passing + [x] else passing
  }

  /** Building and then checking publishes exactly the recipients. */
  lemma {:induction false} PassingBuilt(follows: map<FollowKey, nat>, job: Job, page: Page, eligible: set<Id>, ids: seq<Id>)
    ensures Passing(follows, job, eligible, Built(job, page, ids)) == Recipients(follows, job, page, eligible, ids)
  {
    if ids != [] {
      var rest, x := ids[..|ids| - 1], ids[|ids| - 1];
      PassingBuilt(follows, job, page, eligible, rest);
      var built := Built(job, page, rest);
      assert (built + [x])[..|built|] == built;
    }
  }

  lemma PageNamesItsRead(follows: map<FollowKey, nat>, event: EventId, job: Job, after: Id, pageSize: nat)
    ensures var page := ReadPage(follows, event, job, after, pageSize);
            page.event == event && page.after == after && page.size == pageSize
  {
  }

  lemma CommitTouchesOneJob(s: State, event: EventId, after: Id, pageSize: nat, eligible: set<Id>)
    requires Inv(s) && event in s.jobs && pageSize > 0
    ensures var page := ReadPage(s.follows, event, s.jobs[event], after, pageSize);
            forall e :: e in s.jobs && e != event ==> e in Commit(s.(pages := s.pages + {page}), page, eligible).jobs
  {
    hide BoundedIds, FollowerArm;
  }
}
