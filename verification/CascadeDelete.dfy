/** The order in which a selection of bots is deleted: linked clones before the bots they
    were cloned from, by a memoised depth over the clone links. */
module CascadeDelete {
  import opened Outcomes

  type Id = string

  /** `source` is the clone source of a bot that is still linked to it. */
  datatype Bot = Bot(id: Id, source: Option<Id>)

  /** The selection by id; a later bot replaces an earlier one with the same id. */
  function ById(bots: seq<Bot>): (r: map<Id, Bot>)
    ensures forall b :: b in bots ==> b.id in r
    ensures forall k :: k in r ==> r[k].id == k
  {
    if bots == [] then map[] else ById(bots[..|bots| - 1])[bots[|bots| - 1].id := bots[|bots| - 1]]
  }

  predicate DistinctIds(bots: seq<Bot>) {
    forall i, j :: 0 <= i < j < |bots| ==> bots[i].id != bots[j].id
  }

  /** The linked source of a bot, if it is in the selection too. */
  function Source(byId: map<Id, Bot>, bot: Bot): Option<Bot> {
    if bot.source.Some? && bot.source.value in byId then Some(byId[bot.source.value]) else None
  }

  /** The clone links from a bot up to one without a source in the selection. Links that run
      into a cycle have no chain. */
  predicate IsChain(byId: map<Id, Bot>, path: seq<Id>, id: Id) {
    && path != [] && path[0] == id && id in byId
    && match Source(byId, byId[id])
       case None => |path| == 1
       case Some(source) => IsChain(byId, path[1..], source.id)
  }

  lemma {:induction false} ChainIsUnique(byId: map<Id, Bot>, a: seq<Id>, b: seq<Id>, id: Id)
    requires IsChain(byId, a, id) && IsChain(byId, b, id)
    ensures a == b
    decreases |a|
  {
    match Source(byId, byId[id])
    case None =>
      assert a == [id] && b == [id];
    case Some(source) =>
      ChainIsUnique(byId, a[1..], b[1..], source.id);
      assert a == [id] + a[1..] && b == [id] + b[1..];
  }

  lemma {:induction false} ChainFrom(byId: map<Id, Bot>, path: seq<Id>, id: Id, k: nat)
    requires IsChain(byId, path, id) && k < |path|
    ensures IsChain(byId, path[k..], path[k])
  {
    if k > 0 {
      ChainFrom(byId, path[1..], Source(byId, byId[id]).value.id, k - 1);
      assert path[1..][k - 1..] == path[k..];
    } else {
      assert path[0..] == path;
    }
  }

  /** A chain never comes back to where it began. */
  lemma ChainDoesNotReturn(byId: map<Id, Bot>, path: seq<Id>, id: Id)
    requires IsChain(byId, path, id)
    ensures id !in path[1..]
  {
    if id in path[1..] {
      var k :| 0 < k < |path| && path[k] == id;
      ChainFrom(byId, path, id, k);
      ChainIsUnique(byId, path, path[k..], id);
    }
  }

  /** Where the links end, the cached depth is their number. */
  ghost predicate Exact(byId: map<Id, Bot>, depths: map<Id, nat>) {
    forall id, path :: id in depths && IsChain(byId, path, id) ==> depths[id] == |path| - 1
  }

  class DepthSorter {
    const byId: map<Id, Bot>
    var depthCache: map<Id, nat>
    var visiting: set<Id>

    /** Whether every bot asked about is the one its id stands for. */
    ghost const exact: bool

    ghost predicate Valid()
      reads this
    {
      && (forall k :: k in byId ==> byId[k].id == k)
      && visiting <= byId.Keys
      && (exact ==> Exact(byId, depthCache))
    }

    /** Nothing on the way up from this bot is being visited. */
    ghost predicate Clear(id: Id)
      reads this
    {
      forall path, x :: IsChain(byId, path, id) && x in path ==> x !in visiting
    }

    constructor (bots: seq<Bot>)
      ensures Valid() && visiting == {} && depthCache == map[] && byId == ById(bots) && exact == DistinctIds(bots)
    {
      byId, depthCache, visiting := ById(bots), map[], {};
      exact := DistinctIds(bots);
    }

    /** The memoised recursion. It ends on any links, because every call visits one bot more;
        where the links end, the depth is their number. */
    method Depth(bot: Bot) returns (value: nat)
      requires Valid() && bot.id in byId
      requires exact ==> byId[bot.id] == bot && Clear(bot.id)
      modifies this`depthCache, this`visiting
      ensures Valid() && visiting == old(visiting)
      ensures forall id :: id in old(depthCache) ==> id in depthCache && depthCache[id] == old(depthCache)[id]
      ensures bot.id !in visiting ==> bot.id in depthCache && depthCache[bot.id] == value
      ensures exact ==> forall path :: IsChain(byId, path, bot.id) ==> value == |path| - 1
      decreases |byId.Keys - visiting|
    {
      if bot.id in depthCache {
        return depthCache[bot.id];
      }
      if bot.id in visiting {
        OwnIdIsOnChain();
        return 0;
      }
      visiting := visiting + {bot.id};
      Shrinks(byId.Keys, visiting - {bot.id}, bot.id);
      var source := Source(byId, bot);
      match source {
        case None => value := 0;
        case Some(s) =>
          if exact {
            SourceIsClear(bot);
          }
          var above := Depth(s);
          value := above + 1;
      }
      visiting := visiting - {bot.id};
      if exact {
        ChainGrows(byId, bot);
      }
      depthCache := depthCache[bot.id := value];
    }

    lemma OwnIdIsOnChain()
      ensures forall id, path :: IsChain(byId, path, id) ==> id in path
    {
      forall id, path | IsChain(byId, path, id) ensures id in path {
        assert path[0] == id;
      }
    }

    lemma SourceIsClear(bot: Bot)
      requires bot.id in byId && byId[bot.id] == bot && Source(byId, bot).Some? && bot.id in visiting
      requires forall path, x :: IsChain(byId, path, bot.id) && x in path ==> x !in visiting - {bot.id}
      requires forall k :: k in byId ==> byId[k].id == k
      ensures Clear(Source(byId, bot).value.id)
    {
      var id := Source(byId, bot).value.id;
      forall path, x | IsChain(byId, path, id) && x in path ensures x !in visiting {
        var longer := [bot.id] + path;
        assert longer[1..] == path;
        assert IsChain(byId, longer, bot.id) && x in longer;
        ChainDoesNotReturn(byId, longer, bot.id);
      }
    }

    /** The comparator-driven sort: each bot goes behind those that are at least as deep. */
    method Sort(bots: seq<Bot>) returns (sorted: seq<Bot>)
      requires Valid() && visiting == {} && depthCache == map[] && byId == ById(bots) && exact == DistinctIds(bots)
      modifies this`depthCache, this`visiting
      ensures Valid() && SameBots(sorted, bots)
      ensures Falling(sorted, depthCache)
    {
      hide ById, DistinctIds, Falling, Exact, SameBots;
      sorted := [];
      NothingSorted(bots, depthCache);
      DistinctStand(bots);
      var i := 0;
      while i < |bots|
        invariant i <= |bots| && Valid() && visiting == {}
        invariant SameBots(sorted, bots[..i])
        invariant Falling(sorted, depthCache)
      {
        var longer := Insert(sorted, bots[i]);
        OneMoreBot(sorted, longer, bots, i);
        sorted := longer;
        i := i + 1;
      }
      assert bots[..i] == bots;
    }

    method Insert(sorted: seq<Bot>, bot: Bot) returns (longer: seq<Bot>)
      requires Valid() && visiting == {} && bot.id in byId && (exact ==> byId[bot.id] == bot) && Falling(sorted, depthCache)
      modifies this`depthCache, this`visiting
      ensures Valid() && visiting == {} && Falling(longer, depthCache) && SameBots(longer, sorted + [bot])
    {
      hide Exact, Falling, SameBots;
      ghost var before := depthCache;
      var depth := Depth(bot);
      FallingStays(sorted, before, depthCache);
      var k := Place(sorted, depth);
      InsertKeepsFalling(sorted, bot, k, depthCache);
      longer := sorted[..k] + [bot] + sorted[k..];
    }

    method Place(sorted: seq<Bot>, depth: nat) returns (k: nat)
      requires Falling(sorted, depthCache)
      ensures k <= |sorted| && (forall m :: 0 <= m < k ==> depthCache[sorted[m].id] >= depth)
      ensures k < |sorted| ==> depthCache[sorted[k].id] < depth
    {
      k := 0;
      while k < |sorted| && depthCache[sorted[k].id] >= depth
        invariant k <= |sorted| && forall m :: 0 <= m < k ==> depthCache[sorted[m].id] >= depth
      {
        k := k + 1;
      }
    }
  }

  lemma InsertKeepsFalling(sorted: seq<Bot>, bot: Bot, k: nat, depths: map<Id, nat>)
    requires Falling(sorted, depths) && bot.id in depths && k <= |sorted|
    requires forall m :: 0 <= m < k ==> depths[sorted[m].id] >= depths[bot.id]
    requires k < |sorted| ==> depths[sorted[k].id] < depths[bot.id]
    ensures Falling(sorted[..k] + [bot] + sorted[k..], depths)
    ensures SameBots(sorted[..k] + [bot] + sorted[k..], sorted + [bot])
  {
    InsertKeepsElements(sorted, bot, k);
  }

  lemma InsertKeepsElements(sorted: seq<Bot>, bot: Bot, k: nat)
    requires k <= |sorted|
    ensures SameBots(sorted[..k] + [bot] + sorted[k..], sorted + [bot])
  {
    assert sorted == sorted[..k] + sorted[k..];
  }

  predicate Falling(sorted: seq<Bot>, depths: map<Id, nat>) {
    && (forall b :: b in sorted ==> b.id in depths)
    && (forall i, j :: 0 <= i < j < |sorted| ==> depths[sorted[i].id] >= depths[sorted[j].id])
  }

  lemma FallingStays(sorted: seq<Bot>, before: map<Id, nat>, after: map<Id, nat>)
    requires Falling(sorted, before) && forall id :: id in before ==> id in after && after[id] == before[id]
    ensures Falling(sorted, after)
  {
  }

  lemma Shrinks(all: set<Id>, visiting: set<Id>, id: Id)
    requires id in all && id !in visiting
    ensures |all - (visiting + {id})| < |all - visiting|
  {
    assert all - visiting == (all - (visiting + {id})) + {id};
  }

  lemma ChainGrows(byId: map<Id, Bot>, bot: Bot)
    requires bot.id in byId && byId[bot.id] == bot
    ensures forall path :: IsChain(byId, path, bot.id) ==>
              match Source(byId, bot)
              case None => |path| == 1
              case Some(s) => IsChain(byId, path[1..], s.id) && |path| == |path[1..]| + 1
  {
  }

  lemma {:induction false} DistinctStandForThemselves(bots: seq<Bot>, i: nat)
    requires DistinctIds(bots) && i < |bots|
    ensures ById(bots)[bots[i].id] == bots[i]
  {
    if i < |bots| - 1 {
      DistinctStandForThemselves(bots[..|bots| - 1], i);
    }
  }

  predicate SameBots(a: seq<Bot>, b: seq<Bot>) {
    multiset(a) == multiset(b)
  }

  lemma OneMoreBot(sorted: seq<Bot>, longer: seq<Bot>, bots: seq<Bot>, i: nat)
    requires i < |bots| && SameBots(sorted, bots[..i]) && SameBots(longer, sorted + [bots[i]])
    ensures SameBots(longer, bots[..i + 1])
  {
    assert bots[..i + 1] == bots[..i] + [bots[i]];
  }

  lemma NothingSorted(bots: seq<Bot>, depths: map<Id, nat>)
    ensures Falling([], depths) && SameBots([], bots[..0])
  {
  }

  lemma DistinctStand(bots: seq<Bot>)
    ensures DistinctIds(bots) ==> forall i :: 0 <= i < |bots| ==> ById(bots)[bots[i].id] == bots[i]
  {
    if DistinctIds(bots) {
      forall i | 0 <= i < |bots| ensures ById(bots)[bots[i].id] == bots[i] {
        DistinctStandForThemselves(bots, i);
      }
    }
  }

  /** sortBotsForCascadeDelete: a permutation in which, whenever the links above a clone end,
      the clone comes before its source. Links that run into a cycle are tolerated. */
  method SortBotsForCascadeDelete(bots: seq<Bot>) returns (sorted: seq<Bot>)
    ensures multiset(sorted) == multiset(bots)
    ensures DistinctIds(bots) ==>
              forall i, j, path ::
                (0 <= i < |sorted| && 0 <= j < |sorted| && Source(ById(bots), sorted[i]) == Some(sorted[j]) &&
                 IsChain(ById(bots), path, sorted[i].id)) ==> i < j
  {
    var sorter := new DepthSorter(bots);
    sorted := sorter.Sort(bots);
    if DistinctIds(bots) {
      assert forall b :: b in sorted <==> b in multiset(sorted);
      assert forall b :: b in bots <==> b in multiset(bots);
      forall i, j, path | 0 <= i < |sorted| && 0 <= j < |sorted| && Source(ById(bots), sorted[i]) == Some(sorted[j]) &&
                          IsChain(ById(bots), path, sorted[i].id)
        ensures i < j
      {
        assert sorted[i] in bots && sorted[j] in bots;
        var k :| 0 <= k < |bots| && bots[k] == sorted[i];
        DistinctStandForThemselves(bots, k);
        SourceIsShallower(ById(bots), sorter.depthCache, sorted[i], sorted[j], path);
      }
    }
  }

  lemma SourceIsShallower(byId: map<Id, Bot>, depths: map<Id, nat>, clone: Bot, source: Bot, path: seq<Id>)
    requires clone.id in byId && byId[clone.id] == clone && Source(byId, clone) == Some(source)
    requires clone.id in depths && source.id in depths && IsChain(byId, path, clone.id)
    requires Exact(byId, depths)
    ensures depths[clone.id] == depths[source.id] + 1
  {
    assert IsChain(byId, path[1..], source.id);
  }
}
