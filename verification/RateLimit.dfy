/** Admission of registrations and device logins: hourly buckets, one for everybody and
    one per address, updated by two statements in one batch. */
module RateLimit {
  import opened Outcomes
  import opened Retention

  const HOUR_MS: int := 3_600_000
  const ADDRESS_LIMIT: nat := 20
  const GLOBAL_LIMIT: nat := 200

  datatype Operation = Register | DeviceStart
  datatype Subject = Everybody | Address(hash: string)
  datatype BucketKey = BucketKey(operation: Operation, window: int, subject: Subject)
  datatype Bucket = Bucket(hits: nat, expiresAt: int, admission: Option<string>)
  type Buckets = map<BucketKey, Bucket>

  function Window(now: int): int {
    now / HOUR_MS
  }

  function Expiry(window: int): int {
    (window + 2) * HOUR_MS
  }

  function Hits(buckets: Buckets, key: BucketKey): nat {
    if key in buckets then buckets[key].hits else 0
  }

  /** First statement: take a global hit under a fresh claim, unless the address or
      everybody together is at the limit. */
  function TakeGlobal(buckets: Buckets, global: BucketKey, address: BucketKey, expiresAt: int, claim: string): Buckets {
    if Hits(buckets, address) >= ADDRESS_LIMIT then buckets
    else if global !in buckets then buckets[global := Bucket(1, expiresAt, Some(claim))]
    else if buckets[global].hits < GLOBAL_LIMIT then
      buckets[global := buckets[global].(hits := buckets[global].hits + 1, admission := Some(claim))]
    else buckets
  }

  predicate Holds(buckets: Buckets, global: BucketKey, claim: string) {
    global in buckets && buckets[global].admission == Some(claim)
  }

  /** Second statement: a hit for the address, only under this very claim. */
  function TakeAddress(buckets: Buckets, global: BucketKey, address: BucketKey, expiresAt: int, claim: string): Buckets {
    if !Holds(buckets, global, claim) then buckets
    else if address !in buckets then buckets[address := Bucket(1, expiresAt, None)]
    else buckets[address := buckets[address].(hits := buckets[address].hits + 1)]
  }

  function Consume(buckets: Buckets, operation: Operation, address: string, claim: string, now: int): (Buckets, bool) {
    var window := Window(now);
    var global, own := BucketKey(operation, window, Everybody), BucketKey(operation, window, Address(address));
    var taken := TakeGlobal(buckets, global, own, Expiry(window), claim);
    (TakeAddress(taken, global, own, Expiry(window), claim), Holds(taken, global, claim))
  }

  predicate FreshClaim(buckets: Buckets, claim: string) {
    forall k :: k in buckets ==> buckets[k].admission != Some(claim)
  }

  // ---------- Runs ----------

  datatype Admission = Admission(operation: Operation, window: int, address: string)

  /** `admitted` is history: every call that was let through. */
  datatype State = State(clock: int, buckets: Buckets, admitted: seq<Admission>)

  datatype Step =
    | Tick(now: int)
    | DoConsume(operation: Operation, address: string, claim: string, at: int)
    | DoCleanup(chosen: set<BucketKey>, at: int)

  predicate Enabled(s: State, step: Step) {
    match step
    case Tick(now) => now >= s.clock
    case DoConsume(_, _, claim, at) => at <= s.clock && FreshClaim(s.buckets, claim)
    case DoCleanup(chosen, at) => at <= s.clock && forall k :: k in chosen ==> k in s.buckets && s.buckets[k].expiresAt <= at
  }

  function Apply(s: State, step: Step): State {
    match step
    case Tick(now) => s.(clock := now)
    case DoConsume(operation, address, claim, at) =>
      var (buckets, ok) := Consume(s.buckets, operation, address, claim, at);
      s.(buckets := buckets, admitted := if ok then s.admitted + [Admission(operation, Window(at), address)] else s.admitted)
    case DoCleanup(chosen, at) => s.(buckets := s.buckets - chosen)
  }

  ghost predicate IsRun(states: seq<State>, steps: seq<Step>) {
    && |states| == |steps| + 1
    && forall i :: 0 <= i < |steps| ==> Enabled(states[i], steps[i]) && states[i + 1] == Apply(states[i], steps[i])
  }

  // ---------- What is conserved ----------

  function Admitted(admitted: seq<Admission>, operation: Operation, window: int): nat {
    if admitted == [] then 0
    else
      var last := admitted[|admitted| - 1];
      Admitted(admitted[..|admitted| - 1], operation, window) +
      (if last.operation == operation && last.window == window then 1 else 0)
  }

  function AdmittedFrom(admitted: seq<Admission>, operation: Operation, window: int, address: string): nat {
    if admitted == [] then 0
    else
      AdmittedFrom(admitted[..|admitted| - 1], operation, window, address) +
      (if admitted[|admitted| - 1] == Admission(operation, window, address) then 1 else 0)
  }

  function AddressKeys(buckets: Buckets, operation: Operation, window: int): set<BucketKey> {
    set k | k in buckets && k.operation == operation && k.window == window && k.subject.Address?
  }

  /** The hits of these buckets together. */
  ghost function Total(buckets: Buckets, keys: set<BucketKey>): nat
    decreases keys
  {
    if keys == {} then 0
    else
      var k :| k in keys;
      Hits(buckets, k) + Total(buckets, keys - {k})
  }

  ghost predicate Conserved(s: State, operation: Operation, window: int) {
    var global := BucketKey(operation, window, Everybody);
    && Hits(s.buckets, global) == Admitted(s.admitted, operation, window) <= GLOBAL_LIMIT
    && Total(s.buckets, AddressKeys(s.buckets, operation, window)) == Hits(s.buckets, global)
    && forall address: string :: AddressConserved(s, operation, window, address)
  }

  predicate AddressConserved(s: State, operation: Operation, window: int, address: string) {
    Hits(s.buckets, BucketKey(operation, window, Address(address))) == AdmittedFrom(s.admitted, operation, window, address) <= ADDRESS_LIMIT
  }

  /** Windows whose buckets cannot have expired; the current one is always among them. */
  predicate Retained(s: State, window: int) {
    Expiry(window) > s.clock
  }

  ghost predicate Inv(s: State) {
    && (forall k :: k in s.buckets ==> s.buckets[k].expiresAt == Expiry(k.window))
    && (forall a :: a in s.admitted ==> a.window <= Window(s.clock))
    && (forall operation, window :: Retained(s, window) ==> Conserved(s, operation, window))
  }

  lemma CurrentWindowIsRetained(s: State)
    ensures Retained(s, Window(s.clock))
  {
  }

  // ---------- Totals ----------

  lemma {:induction false} TotalWithout(buckets: Buckets, keys: set<BucketKey>, k: BucketKey)
    requires k in keys
    ensures Total(buckets, keys) == Hits(buckets, k) + Total(buckets, keys - {k})
    decreases keys
  {
    var first :| first in keys && Total(buckets, keys) == Hits(buckets, first) + Total(buckets, keys - {first});
    if first != k {
      TotalWithout(buckets, keys - {first}, k);
      TotalWithout(buckets, keys - {k}, first);
      assert keys - {first} - {k} == keys - {k} - {first};
    }
  }

  lemma {:induction false} TotalSame(a: Buckets, b: Buckets, keys: set<BucketKey>)
    requires forall k :: k in keys ==> Hits(a, k) == Hits(b, k)
    ensures Total(a, keys) == Total(b, keys)
    decreases keys
  {
    if keys != {} {
      var k :| k in keys;
      TotalWithout(a, keys, k);
      TotalWithout(b, keys, k);
      TotalSame(a, b, keys - {k});
    }
  }

  // ---------- One call ----------

  /** The batch admits exactly below twenty calls of this address and two hundred of
      everybody in the current hour, takes one hit from each bucket, and otherwise changes
      nothing at all. */
  lemma ConsumeIsExact(buckets: Buckets, operation: Operation, address: string, claim: string, now: int)
    requires FreshClaim(buckets, claim)
    ensures var (after, ok) := Consume(buckets, operation, address, claim, now);
            var hour := now / 3_600_000;
            var global, own := BucketKey(operation, hour, Everybody), BucketKey(operation, hour, Address(address));
            && (ok <==> (own in buckets ==> buckets[own].hits < 20) && (global in buckets ==> buckets[global].hits < 200))
            && (!ok ==> after == buckets)
            && (ok ==> own in after && after[own].hits == Hits(buckets, own) + 1)
            && (ok ==> global in after && after[global].hits == Hits(buckets, global) + 1)
            && (ok ==> after.Keys == buckets.Keys + {own, global})
            && (forall k :: k in buckets && k != own && k != global ==> after[k] == buckets[k])
  {
  }

  /** The same in hits. */
  lemma ConsumeCounts(buckets: Buckets, operation: Operation, address: string, claim: string, now: int)
    requires FreshClaim(buckets, claim)
    ensures var (after, ok) := Consume(buckets, operation, address, claim, now);
            var global, own := BucketKey(operation, Window(now), Everybody), BucketKey(operation, Window(now), Address(address));
            && (ok <==> Hits(buckets, own) < ADDRESS_LIMIT && Hits(buckets, global) < GLOBAL_LIMIT)
            && (!ok ==> after == buckets)
            && (ok ==> Hits(after, own) == Hits(buckets, own) + 1 && Hits(after, global) == Hits(buckets, global) + 1)
            && (ok ==> after.Keys == buckets.Keys + {own, global})
            && (forall k :: k != own && k != global ==> Hits(after, k) == Hits(buckets, k))
  {
  }

  /** What a bucket says: the hits it has, none when it is not there. */
  lemma HitsAre(buckets: Buckets, key: BucketKey)
    ensures key in buckets ==> Hits(buckets, key) == buckets[key].hits
    ensures key !in buckets ==> Hits(buckets, key) == 0
  {
  }

  /** A bucket outlives its last call by one to two hours. */
  lemma BucketsOutliveTheirHour(now: int)
    ensures now + 3_600_000 < Expiry(Window(now)) <= now + 7_200_000
  {
  }

  lemma ConsumeConserves(s: State, operation: Operation, address: string, claim: string, at: int, o: Operation, w: int)
    requires Enabled(s, DoConsume(operation, address, claim, at)) && Conserved(s, o, w)
    ensures Conserved(Apply(s, DoConsume(operation, address, claim, at)), o, w)
  {
    hide Consume, Window, Hits;
    var s' := Apply(s, DoConsume(operation, address, claim, at));
    var own := BucketKey(operation, Window(at), Address(address));
    ConsumeCounts(s.buckets, operation, address, claim, at);
    if s'.buckets != s.buckets {
      assert s'.admitted[..|s.admitted|] == s.admitted;
      TotalMoves(s.buckets, s'.buckets, own, o, w);
      forall other: string ensures AddressConserved(s', o, w, other) {
        assert AddressConserved(s, o, w, other);
      }
    }
  }

  /** One more hit in one address bucket is one more in the total of its own window only. */
  lemma TotalMoves(before: Buckets, after: Buckets, own: BucketKey, o: Operation, w: int)
    requires own.subject.Address? && Hits(after, own) == Hits(before, own) + 1
    requires forall k: BucketKey :: k.subject.Address? && k != own ==> (k in after <==> k in before) && Hits(after, k) == Hits(before, k)
    requires own in after
    ensures Total(after, AddressKeys(after, o, w)) ==
            Total(before, AddressKeys(before, o, w)) + (if own.operation == o && own.window == w then 1 else 0)
  {
    hide Hits;
    var keys, keys' := AddressKeys(before, o, w), AddressKeys(after, o, w);
    if own.operation == o && own.window == w {
      assert keys' == keys + {own};
      TotalWithout(after, keys', own);
      if own in keys {
        TotalWithout(before, keys, own);
        assert keys' - {own} == keys - {own};
        TotalSame(before, after, keys - {own});
      } else {
        assert keys' - {own} == keys;
        AbsentHasNoHits(before, own, o, w);
        TotalSame(before, after, keys);
      }
    } else {
      assert keys' == keys;
      TotalSame(before, after, keys);
    }
  }

  lemma AbsentHasNoHits(buckets: Buckets, own: BucketKey, operation: Operation, window: int)
    requires own !in AddressKeys(buckets, operation, window)
    requires own.operation == operation && own.window == window && own.subject.Address?
    ensures Hits(buckets, own) == 0
  {
  }

  lemma CleanupConserves(s: State, chosen: set<BucketKey>, at: int, o: Operation, w: int)
    requires Inv(s) && Enabled(s, DoCleanup(chosen, at)) && Retained(s, w)
    ensures Conserved(s.(buckets := s.buckets - chosen), o, w)
    ensures forall k :: k in s.buckets && k.window == w ==> k !in chosen
  {
    var s' := s.(buckets := s.buckets - chosen);
    assert Conserved(s, o, w);
    assert AddressKeys(s'.buckets, o, w) == AddressKeys(s.buckets, o, w);
    TotalSame(s.buckets, s'.buckets, AddressKeys(s.buckets, o, w));
    forall other: string ensures AddressConserved(s', o, w, other) {
      assert AddressConserved(s, o, w, other);
    }
  }

  lemma StepKeepsInv(s: State, step: Step)
    requires Inv(s) && Enabled(s, step)
    ensures Inv(Apply(s, step))
  {
    var s' := Apply(s, step);
    forall o, w | Retained(s', w) ensures Conserved(s', o, w) {
      assert Retained(s, w) && Conserved(s, o, w);
      match step
      case Tick(_) => TickConserves(s, s', o, w);
      case DoConsume(operation, address, claim, at) => ConsumeConserves(s, operation, address, claim, at, o, w);
      case DoCleanup(chosen, at) => CleanupConserves(s, chosen, at, o, w);
    }
    hide Conserved, Retained;
  }

  lemma TickConserves(s: State, s': State, o: Operation, w: int)
    requires Conserved(s, o, w) && s' == s.(clock := s'.clock)
    ensures Conserved(s', o, w)
  {
    forall other: string ensures AddressConserved(s', o, w, other) {
      assert AddressConserved(s, o, w, other);
    }
  }

  /** In every reachable state and for every retained window: the global bucket equals the
      address buckets together and the number of admitted calls, within both limits. */
  lemma {:induction false} RunsConserve(states: seq<State>, steps: seq<Step>, i: nat, operation: Operation, window: int)
    requires IsRun(states, steps) && i < |states| && Retained(states[i], window)
    requires states[0].buckets == map[] && states[0].admitted == []
    ensures Inv(states[i]) && Conserved(states[i], operation, window)
  {
    if i == 0 {
      EmptyIsConserved(states[0]);
    } else {
      RunsConserve(states, steps, i - 1, operation, Window(states[i - 1].clock));
      StepKeepsInv(states[i - 1], steps[i - 1]);
    }
  }

  /** So in any hour at most twenty calls of an address and two hundred in all are let through. */
  lemma LimitsHold(states: seq<State>, steps: seq<Step>, i: nat, operation: Operation, address: string)
    requires IsRun(states, steps) && i < |states| && states[0].buckets == map[] && states[0].admitted == []
    ensures var hour := states[i].clock / 3_600_000;
            && Admitted(states[i].admitted, operation, hour) <= 200
            && AdmittedFrom(states[i].admitted, operation, hour, address) <= 20
  {
    RunsConserve(states, steps, i, operation, Window(states[i].clock));
    assert AddressConserved(states[i], operation, Window(states[i].clock), address);
    hide IsRun;
  }

  lemma EmptyIsConserved(s: State)
    requires s.buckets == map[] && s.admitted == []
    ensures Inv(s)
  {
    forall o, w ensures Conserved(s, o, w) {
      assert AddressKeys(s.buckets, o, w) == {};
      forall other: string ensures AddressConserved(s, o, w, other) {
      }
    }
  }

  const CLEANUP_LIMIT: nat := 500

  function Expiries(buckets: Buckets): map<BucketKey, int> {
    map k | k in buckets :: buckets[k].expiresAt
  }

  lemma ChosenAreExpired(buckets: Buckets, chosen: set<BucketKey>, now: int)
    requires OldestFirst(Expiries(buckets), chosen, now, CLEANUP_LIMIT)
    ensures forall k :: k in chosen ==> k in buckets && buckets[k].expiresAt <= now
  {
  }

  // ---------- The tables, updated in place ----------

  class RateLimiter {
    var buckets: Buckets
    ghost var clock: int
    ghost var admitted: seq<Admission>

    ghost function View(): State
      reads this
    {
      State(clock, buckets, admitted)
    }

    constructor (now: int)
      ensures View() == State(now, map[], []) && Inv(View())
    {
      buckets, clock, admitted := map[], now, [];
      new;
      EmptyIsConserved(View());
    }

    /** consumeAuthRateLimit. */
    method Consume(operation: Operation, address: string, claim: string, now: int) returns (ok: bool)
      requires Inv(View()) && Enabled(View(), DoConsume(operation, address, claim, now))
      modifies this
      ensures Inv(View()) && View() == Apply(old(View()), DoConsume(operation, address, claim, now))
      ensures ok <==> |admitted| == |old(admitted)| + 1
      ensures !ok ==> View() == old(View())
    {
      StepKeepsInv(View(), DoConsume(operation, address, claim, now));
      ConsumeCounts(buckets, operation, address, claim, now);
      hide Inv;
      var window := Window(now);
      var global, own := BucketKey(operation, window, Everybody), BucketKey(operation, window, Address(address));
      if Hits(buckets, own) < ADDRESS_LIMIT {
        if global !in buckets {
          buckets := buckets[global := Bucket(1, Expiry(window), Some(claim))];
        } else if buckets[global].hits < GLOBAL_LIMIT {
          buckets := buckets[global := buckets[global].(hits := buckets[global].hits + 1, admission := Some(claim))];
        }
      }
      ok := global in buckets && buckets[global].admission == Some(claim);
      if ok {
        if own !in buckets {
          buckets := buckets[own := Bucket(1, Expiry(window), None)];
        } else {
          buckets := buckets[own := buckets[own].(hits := buckets[own].hits + 1)];
        }
        admitted := admitted + [Admission(operation, window, address)];
      }
    }

    /** cleanupAuthRecords, the buckets half: at most 500 expired buckets, the oldest first. */
    method Cleanup(now: int) returns (removed: nat, ghost chosen: set<BucketKey>)
      requires Inv(View()) && now <= clock
      modifies this`buckets
      ensures OldestFirst(Expiries(old(buckets)), chosen, now, 500) && removed == |chosen|
      ensures Enabled(old(View()), DoCleanup(chosen, now)) && View() == Apply(old(View()), DoCleanup(chosen, now))
      ensures Inv(View())
      ensures forall k :: k in old(buckets) && Expiry(k.window) > now ==> k in buckets && buckets[k] == old(buckets)[k]
    {
      hide OldestFirst, Expiries;
      var oldest := ChooseOldest(Expiries(buckets), now, CLEANUP_LIMIT);
      chosen := oldest;
      ChosenAreExpired(buckets, chosen, now);
      StepKeepsInv(View(), DoCleanup(chosen, now));
      buckets, removed := buckets - oldest, |oldest|;
    }
  }
}
