/** Finite sets of identifiers in their index order. Identifiers are naturals; the empty
    string that starts a page is 0 and no identifier is. */
module Ordering {
  type Id = nat

  predicate IsMin(ids: set<Id>, m: Id) {
    m in ids && forall x :: x in ids ==> m <= x
  }

  lemma {:induction false} MinExists(ids: set<Id>)
    requires ids != {}
    ensures exists m :: IsMin(ids, m)
    decreases ids
  {
    var x :| x in ids;
    var rest := ids - {x};
    assert ids == rest + {x};
    if rest == {} {
      assert IsMin(ids, x);
    } else {
      MinExists(rest);
      var m :| IsMin(rest, m);
      assert IsMin(ids, if m < x then m else x);
    }
  }

  function Min(ids: set<Id>): (m: Id)
    requires ids != {}
    ensures IsMin(ids, m)
  {
    MinExists(ids);
    var m :| IsMin(ids, m);
    m
  }

  predicate Sorted(s: seq<Id>) {
    forall i, j :: 0 <= i < j < |s| ==> s[i] < s[j]
  }

  function Ascending(ids: set<Id>): (s: seq<Id>)
    ensures Sorted(s) && |s| == |ids|
    ensures forall x :: x in s <==> x in ids
    decreases ids
  {
    if ids == {} then []
    else
      var m := Min(ids);
      [m] + Ascending(ids - {m})
  }

  function First(s: seq<Id>, n: nat): (r: seq<Id>)
    ensures r <= s && |r| <= n && (|r| < n ==> r == s)
    ensures (Sorted(s) ==> Sorted(r)) && forall x :: x in r ==> x in s
  {
    if |s| <= n then s else s[..n]
  }

  lemma HasMember(s: seq<Id>)
    ensures s == [] || exists x :: x in s
  {
    if s != [] {
      assert s[0] in s;
    }
  }

  /** A sorted sequence is determined by its elements. */
  lemma {:induction false} SortedIsUnique(a: seq<Id>, b: seq<Id>)
    requires Sorted(a) && Sorted(b) && forall x :: x in a <==> x in b
    ensures a == b
    decreases |a|
  {
    if a == [] || b == [] {
      HasMember(a);
      HasMember(b);
    } else {
      assert a[0] in b && b[0] in a;
      assert forall x :: x in a[1..] <==> x in a && x != a[0];
      assert forall x :: x in b[1..] <==> x in b && x != b[0];
      SortedIsUnique(a[1..], b[1..]);
    }
  }

  /** A page misses nothing up to its last identifier, and nothing at all when it is short. */
  lemma PageReaches(all: seq<Id>, limit: nat, x: Id)
    requires Sorted(all) && x in all && limit > 0
    ensures var page := First(all, limit);
            x in page || (|page| == limit && page[limit - 1] < x)
  {
    var k :| 0 <= k < |all| && all[k] == x;
    if k < |First(all, limit)| {
      assert First(all, limit)[k] == x;
    }
  }

  lemma SortedConcat(a: seq<Id>, b: seq<Id>)
    requires Sorted(a) && Sorted(b) && forall x, y :: x in a && y in b ==> x < y
    ensures Sorted(a + b)
  {
    forall i, j | 0 <= i < j < |a + b| ensures (a + b)[i] < (a + b)[j] {
      if i < |a| <= j {
        assert a[i] in a && b[j - |a|] in b;
      }
    }
  }

  // ---------- Rank ----------

  function Below(ids: set<Id>, x: Id): set<Id> {
    set y | y in ids && y < x
  }

  function Members(s: seq<Id>): set<Id> {
    set y | y in s
  }

  lemma {:induction false} SortedSize(s: seq<Id>)
    requires Sorted(s)
    ensures |Members(s)| == |s|
  {
    if s == [] {
      assert Members(s) == {};
    } else {
      var rest, last := s[..|s| - 1], s[|s| - 1];
      SortedSize(rest);
      assert last !in Members(rest);
      assert s == rest + [last];
      assert Members(s) == Members(rest) + {last};
    }
  }

  lemma RankAt(ids: set<Id>, k: nat)
    requires k < |ids|
    ensures |Below(ids, Ascending(ids)[k])| == k
  {
    var s := Ascending(ids);
    SortedSize(s[..k]);
    assert Below(ids, s[k]) == Members(s[..k]) by {
      hide Ascending;
      forall y | y in ids && y < s[k] ensures y in s[..k] {
        var j :| 0 <= j < |s| && s[j] == y;
      }
    }
  }

  /** The first n of a set are those with fewer than n elements before them. */
  lemma FirstByRank(ids: set<Id>, n: nat, x: Id)
    ensures x in First(Ascending(ids), n) <==> x in ids && |Below(ids, x)| < n
  {
    if x in ids {
      var s := Ascending(ids);
      var k :| 0 <= k < |s| && s[k] == x;
      RankAt(ids, k);
      hide Ascending, Below;
      if k < n {
        assert First(s, n)[k] == x;
      }
    }
  }

  lemma {:induction false} FewerBelow(a: set<Id>, b: set<Id>)
    requires a <= b
    ensures |a| <= |b|
    decreases a
  {
    if a != {} {
      var x :| x in a;
      FewerBelow(a - {x}, b - {x});
    }
  }
}
