/** Notification fanout: jobs with a cursor over their audience, workers that read a page at
    a position they saw earlier, and a publication batch guarded by that position. */
module Fanout {
  import opened Outcomes
  import opened Ordering

  const CHUNK: nat := 50
  const RETENTION_MS: int := 14 * 24 * 3_600_000

  type EventId = string

  /** New jobs have only direct recipients; jobs persisted by earlier versions may also name
      the profile whose followers are told. */
  datatype Job = Job(actor: Id, direct: seq<Id>, follower: Option<Id>, createdAt: int, sequence: nat, after: Id)
  datatype FollowKey = FollowKey(followed: Id, follower: Id)

  /** One audience page: its ids in order, and those reached as followers. */
  datatype Page = Page(event: EventId, after: Id, size: nat, ids: seq<Id>, followed: set<Id>)
  datatype Publication = Publication(event: EventId, bot: Id)
  datatype Finish = Finish(job: Job, steady: set<Id>)

  /** `follows` maps each follow to its activation sequence. The rest is history: pages read
      so far, ids considered by committed pages, followers present since the job was
      enqueued, jobs finished by a short page, and notifications inserted. */
  datatype State = State(
    jobs: map<EventId, Job>, follows: map<FollowKey, nat>,
    pages: set<Page>, considered: map<EventId, seq<Id>>, steady: map<EventId, set<Id>>,
    finished: map<EventId, Finish>, published: seq<Publication>)

  // ---------- The audience query ----------

  function Beyond(ids: set<Id>, after: Id): set<Id> {
    set x | x in ids && x > after
  }

  function Repeat(x: Id, n: nat): (r: seq<Id>)
    ensures |r| == n && forall y :: y in r ==> y == x
  {
    if n == 0 then [] else [x] + Repeat(x, n - 1)
  }

  /** The ids in order, each as often as it was listed. */
  function Spread(ids: seq<Id>, counts: multiset<Id>): seq<Id> {
    if ids == [] then [] else Repeat(ids[0], counts[ids[0]]) + Spread(ids[1..], counts)
  }

  function DirectArm(direct: seq<Id>, after: Id, n: nat): seq<Id> {
    First(Spread(Ascending(Beyond(Members(direct), after)), multiset(direct)), n)
  }

  function FollowerArm(followers: set<Id>, after: Id, n: nat): seq<Id> {
    First(Ascending(Beyond(followers, after)), n)
  }

  /** Both arms are cut to n rows before they are merged and grouped. */
  function BoundedIds(direct: seq<Id>, followers: set<Id>, after: Id, n: nat): seq<Id> {
    First(Ascending(Members(DirectArm(direct, after, n)) + Members(FollowerArm(followers, after, n))), n)
  }

  function Followers(follows: map<FollowKey, nat>, followed: Option<Id>): set<Id> {
    set k | k in follows && Some(k.followed) == followed :: k.follower
  }

  /** Followers whose follow was active before the event. */
  function ActiveFollowers(follows: map<FollowKey, nat>, job: Job): set<Id> {
    set k | k in follows && Some(k.followed) == job.follower && follows[k] < job.sequence :: k.follower
  }

  function ReadPage(follows: map<FollowKey, nat>, event: EventId, job: Job, after: Id, size: nat): Page {
    var followers := Followers(follows, job.follower);
    var ids := BoundedIds(job.direct, followers, after, size);
    var arm := Members(FollowerArm(followers, after, size));
    Page(event, after, size, ids, set x | x in ids && x in arm && x in ActiveFollowers(follows, job))
  }

  // ---------- Publication ----------

  /** A notification is built for the row, and the insert's own checks let it through.
      `eligible` are the bots that are active, in an active world, with the content there. */
  predicate Delivered(follows: map<FollowKey, nat>, job: Job, page: Page, eligible: set<Id>, x: Id) {
    && x != job.actor && (x in job.direct || x in page.followed)
    && x in eligible && (x in job.direct || x in ActiveFollowers(follows, job))
  }

  function Recipients(follows: map<FollowKey, nat>, job: Job, page: Page, eligible: set<Id>, ids: seq<Id>): (r: seq<Id>)
    ensures forall x :: x in r <==> x in ids && Delivered(follows, job, page, eligible, x)
  {
    if ids == [] then []
    else
      var r, x := Recipients(follows, job, page, eligible, ids[..|ids| - 1]), ids[|ids| - 1];
      if Delivered(follows, job, page, eligible, x) then r + [x] else r
  }

  function Publications(event: EventId, bots: seq<Id>): seq<Publication> {
    seq(|bots|, i requires 0 <= i < |bots| => Publication(event, bots[i]))
  }

  /** The publication batch: everything in it is conditional on the cursor still being where
      the worker read it. */
  function Commit(s: State, page: Page, eligible: set<Id>): State
    requires page.event in s.considered && page.event in s.steady && page.size > 0
  {
    var event := page.event;
    if event !in s.jobs || s.jobs[event].after != page.after then s
    else
      var job := s.jobs[event];
      s.(published := s.published + Publications(event, Recipients(s.follows, job, page, eligible, page.ids)),
         considered := s.considered[event := s.considered[event] + page.ids],
         jobs := if |page.ids| < page.size then s.jobs - {event}
                 else s.jobs[event := job.(after := page.ids[|page.ids| - 1])],
         finished := if |page.ids| < page.size then s.finished[event := Finish(job, s.steady[event])] else s.finished)
  }

  // ---------- Steps ----------

  datatype Step =
    | DoEnqueue(event: EventId, job: Job)
    | DoFollow(follow: FollowKey, activation: nat)
    | DoUnfollow(follow: FollowKey)
    | DoPage(event: EventId, after: Id, size: nat)
    | DoCommit(page: Page, eligible: set<Id>)
    | DoExpire(event: EventId, now: int)

  /** Event ids are used once and recipient ids are not empty. A worker's position may be
      any stale one, and its commit may come at any later time, or never. */
  predicate Enabled(s: State, step: Step) {
    match step
    case DoEnqueue(event, job) => event !in s.considered && event !in s.steady && job.after == 0 && 0 !in job.direct
    case DoFollow(follow, _) => follow !in s.follows && follow.follower > 0
    case DoUnfollow(_) => true
    case DoPage(event, _, size) => event in s.jobs && 1 <= size <= CHUNK
    case DoCommit(page, _) => page in s.pages && page.event in s.considered && page.event in s.steady && page.size > 0
    case DoExpire(event, now) => event in s.jobs && s.jobs[event].createdAt + RETENTION_MS <= now
  }

  function Enqueue(s: State, event: EventId, job: Job): State {
    s.(jobs := s.jobs[event := job], considered := s.considered[event := []],
       steady := s.steady[event := Followers(s.follows, job.follower)])
  }

  function Unfollow(s: State, follow: FollowKey): State {
    s.(follows := s.follows - {follow},
       steady := map e | e in s.steady ::
                   if e in s.jobs && s.jobs[e].follower == Some(follow.followed) then s.steady[e] - {follow.follower} else s.steady[e])
  }

  function Apply(s: State, step: Step): State
    requires Enabled(s, step)
  {
    match step
    case DoEnqueue(event, job) => Enqueue(s, event, job)
    case DoFollow(follow, activation) => s.(follows := s.follows[follow := activation])
    case DoUnfollow(follow) => Unfollow(s, follow)
    case DoPage(event, after, size) => s.(pages := s.pages + {ReadPage(s.follows, event, s.jobs[event], after, size)})
    case DoCommit(page, eligible) => Commit(s, page, eligible)
    case DoExpire(event, _) => s.(jobs := s.jobs - {event})
  }

  ghost predicate IsRun(states: seq<State>, steps: seq<Step>) {
    && |states| == |steps| + 1
    && forall i :: 0 <= i < |steps| ==> Enabled(states[i], steps[i]) && states[i + 1] == Apply(states[i], steps[i])
  }

  predicate IsInitial(s: State) {
    && s.jobs == map[] && s.pages == {} && s.considered == map[] && s.steady == map[]
    && s.finished == map[] && s.published == []
    && forall k :: k in s.follows ==> k.follower > 0
  }
}
