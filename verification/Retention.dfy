/** The bounded retention queries: rows that are due, the oldest first, up to a limit. Ties
    are left open. */
module Retention {
  /** What `WHERE due <= now ORDER BY due LIMIT limit` may select; `due` has the dates of the
      rows that have one. */
  predicate OldestFirst<K(!new)>(due: map<K, int>, chosen: set<K>, now: int, limit: nat) {
    && (forall k :: k in chosen ==> k in due && due[k] <= now)
    && (forall k, l :: k in chosen && l in due && l !in chosen ==> due[k] <= due[l])
    && |chosen| <= limit
    && (|chosen| < limit ==> forall k :: k in due && due[k] <= now ==> k in chosen)
  }

  /** The selection in progress: nothing waiting is older than anything chosen. */
  ghost predicate Selecting<K(!new)>(due: map<K, int>, chosen: set<K>, waiting: set<K>, now: int) {
    && chosen !! waiting
    && (forall k :: k in chosen || k in waiting <==> k in due && due[k] <= now)
    && (forall k, l :: k in chosen && l in waiting ==> due[k] <= due[l])
  }

  /** Rows once each, by rising date. */
  predicate InOrder<K(!new)>(due: map<K, int>, order: seq<K>) {
    && (forall k :: k in order ==> k in due)
    && (forall i, j :: 0 <= i < j < |order| ==> order[i] != order[j] && due[order[i]] <= due[order[j]])
  }

  function Chosen<K>(order: seq<K>): set<K> {
    set k | k in order
  }

  method ChooseOldest<K(==,!new)>(due: map<K, int>, now: int, limit: nat) returns (chosen: set<K>)
    ensures OldestFirst(due, chosen, now, limit)
  {
    var order := QueueOldest(due, now, limit);
    chosen := Chosen(order);
  }

  method QueueOldest<K(==,!new)>(due: map<K, int>, now: int, limit: nat) returns (order: seq<K>)
    ensures OldestFirst(due, Chosen(order), now, limit) && InOrder(due, order) && |order| <= limit
  {
    hide Selecting, OldestFirst, InOrder;
    order := [];
    var waiting := set k | k in due && due[k] <= now;
    ghost var chosen: set<K> := {};
    StartSelecting(due, waiting, now);
    while |order| < limit && waiting != {}
      invariant Selecting(due, chosen, waiting, now) && |chosen| == |order| <= limit
      invariant chosen == Chosen(order) && InOrder(due, order)
      decreases waiting
    {
      WaitingIsDue(due, chosen, waiting, now);
      var oldest := Oldest(due, waiting);
      OneMoreChosen(due, chosen, waiting, oldest, now);
      OneMoreInOrder(due, order, waiting, oldest, now);
      chosen := chosen + {oldest};
      order, waiting := order + [oldest], waiting - {oldest};
    }
    SelectingEnds(due, chosen, waiting, now, limit);
  }

  method Oldest<K(==,!new)>(due: map<K, int>, keys: set<K>) returns (oldest: K)
    requires keys != {} && keys <= due.Keys
    ensures oldest in keys && forall k :: k in keys ==> due[oldest] <= due[k]
  {
    oldest :| oldest in keys;
    var rest := keys - {oldest};
    while rest != {}
      invariant oldest in keys && rest <= keys
      invariant forall k :: k in keys && k !in rest ==> due[oldest] <= due[k]
    {
      var k :| k in rest;
      if due[k] < due[oldest] {
        oldest := k;
      }
      rest := rest - {k};
    }
  }

  lemma StartSelecting<K(!new)>(due: map<K, int>, waiting: set<K>, now: int)
    requires waiting == set k | k in due && due[k] <= now
    ensures Selecting(due, {}, waiting, now) && InOrder(due, [])
  {
  }

  lemma WaitingIsDue<K(!new)>(due: map<K, int>, chosen: set<K>, waiting: set<K>, now: int)
    requires Selecting(due, chosen, waiting, now)
    ensures waiting <= due.Keys
  {
  }

  lemma OneMoreChosen<K(!new)>(due: map<K, int>, chosen: set<K>, waiting: set<K>, oldest: K, now: int)
    requires Selecting(due, chosen, waiting, now) && waiting <= due.Keys && oldest in waiting
    requires forall k :: k in waiting ==> due[oldest] <= due[k]
    ensures Selecting(due, chosen + {oldest}, waiting - {oldest}, now)
    ensures |chosen + {oldest}| == |chosen| + 1
  {
    assert oldest !in chosen;
  }

  lemma OneMoreInOrder<K(!new)>(due: map<K, int>, order: seq<K>, waiting: set<K>, oldest: K, now: int)
    requires InOrder(due, order) && Selecting(due, Chosen(order), waiting, now) && oldest in waiting
    ensures InOrder(due, order + [oldest])
    ensures Chosen(order + [oldest]) == Chosen(order) + {oldest}
  {
    forall k | k in order ensures k in due && k != oldest && due[k] <= due[oldest] {
      assert k in Chosen(order);
    }
    assert oldest in due;
  }

  lemma SelectingEnds<K(!new)>(due: map<K, int>, chosen: set<K>, waiting: set<K>, now: int, limit: nat)
    requires Selecting(due, chosen, waiting, now) && |chosen| <= limit && (|chosen| == limit || waiting == {})
    ensures OldestFirst(due, chosen, now, limit)
  {
    forall k, l | k in chosen && l in due && l !in chosen ensures due[k] <= due[l] {
      assert l in waiting || due[l] > now;
    }
  }
}
