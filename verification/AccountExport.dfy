/** Two-level keyset paging of an account export: the page a request gets while the tables
    change under it, and the client loop that follows cursors to the end. */
module AccountExport {
  import opened Outcomes
  import opened Ordering

  const PAGE_SIZE: nat := 10

  /** Where a page ended; also the identity of an exported row. */
  datatype Position = Position(parent: Id, child: Id)
  const START := Position(0, 0)

  /** Parents the account owns and that are active, and the rows below parents. */
  datatype Db = Db(parents: set<Id>, rows: set<Position>)

  /** A page is read in three queries, and the tables may change between them. */
  datatype Reading = Reading(atParent: Db, atRows: Db, atNext: Db)

  /** A cursor names the account and section it belongs to. */
  datatype Cursor = Cursor(owner: string, section: string, position: Position)
  datatype Page = Page(records: seq<Position>, next: Option<Cursor>)

  // ---------- One page ----------

  function From(parents: set<Id>, after: Id, inclusive: bool): set<Id> {
    set p | p in parents && (p > after || (inclusive && p == after))
  }

  function OwnedParent(db: Db, after: Id, inclusive: bool): Option<Id> {
    var candidates := From(db.parents, after, inclusive);
    if candidates == {} then None else Some(Min(candidates))
  }

  /** The children beyond a position; none once the parent is no longer active. */
  function Children(db: Db, parent: Id, after: Id): set<Id> {
    if parent !in db.parents then {}
    else set r | r in db.rows && r.parent == parent && r.child > after :: r.child
  }

  function AsRows(parent: Id, children: seq<Id>): seq<Position> {
    seq(|children|, i requires 0 <= i < |children| => Position(parent, children[i]))
  }

  function ChildPage(reading: Reading, owner: string, section: string, after: Position): Page {
    var parent := OwnedParent(reading.atParent, after.parent, true);
    if parent.None? then Page([], None)
    else
      var childAfter := if parent.value == after.parent then after.child else 0;
      var rows := First(Ascending(Children(reading.atRows, parent.value, childAfter)), PAGE_SIZE + 1);
      if |rows| > PAGE_SIZE then
        Page(AsRows(parent.value, rows[..PAGE_SIZE]), Some(Cursor(owner, section, Position(parent.value, rows[PAGE_SIZE - 1]))))
      else
        var next := OwnedParent(reading.atNext, parent.value, false);
        Page(AsRows(parent.value, rows), if next.Some? then Some(Cursor(owner, section, Position(next.value, 0))) else None)
  }

  function PositionOf(cursor: Option<Cursor>, owner: string, section: string): Result<Position, string> {
    if cursor.None? then Success(START)
    else if cursor.value.owner != owner || cursor.value.section != section then Failure("Invalid export cursor.")
    else Success(cursor.value.position)
  }

  /** One request. */
  function ExportPage(reading: Reading, owner: string, section: string, cursor: Option<Cursor>): Result<Page, string> {
    var after :- PositionOf(cursor, owner, section);
    Success(ChildPage(reading, owner, section, after))
  }

  /** A cursor is good for the account and section it was issued for, and for no other; a
      request without one starts at the beginning. */
  lemma ForeignCursorsAreRefused(reading: Reading, owner: string, section: string, cursor: Option<Cursor>)
    ensures ExportPage(reading, owner, section, cursor).Success? <==>
            cursor == None || (cursor.value.owner == owner && cursor.value.section == section)
    ensures cursor == None ==> ExportPage(reading, owner, section, cursor) == Success(ChildPage(reading, owner, section, Position(0, 0)))
    ensures ExportPage(reading, owner, section, cursor).Success? && cursor.Some? ==>
              ExportPage(reading, owner, section, cursor).value == ChildPage(reading, owner, section, cursor.value.position)
  {
  }

  // ---------- What a page guarantees ----------

  predicate Before(a: Position, b: Position) {
    a.parent < b.parent || (a.parent == b.parent && a.child < b.child)
  }

  predicate UpTo(a: Position, b: Position) {
    a == b || Before(a, b)
  }

  predicate InOrder(rows: seq<Position>) {
    forall i, j :: 0 <= i < j < |rows| ==> Before(rows[i], rows[j])
  }

  predicate Visible(db: Db, r: Position) {
    r.parent in db.parents && r in db.rows && r.parent > 0 && r.child > 0
  }

  /** Visible in all three queries of a page. */
  predicate Stays(reading: Reading, r: Position) {
    Visible(reading.atParent, r) && Visible(reading.atRows, r) && Visible(reading.atNext, r)
  }

  /** Rows come in order, beyond the position asked for, and were there when they were read;
      the next position moves strictly on and passes no row that stayed. */
  ghost predicate PageExact(reading: Reading, owner: string, section: string, after: Position, page: Page) {
    && RowsExact(reading.atRows, after, page.records)
    && (page.next.Some? ==> page.next.value.owner == owner && page.next.value.section == section)
    && (page.next.Some? ==> MovesOn(after, page.records, page.next.value.position))
    && (forall r :: Stays(reading, r) && Before(after, r) && (page.next.None? || UpTo(r, page.next.value.position)) ==> r in page.records)
  }

  predicate RowsExact(db: Db, after: Position, records: seq<Position>) {
    && InOrder(records) && |records| <= 10
    && forall r :: r in records ==> Before(after, r) && r.parent in db.parents && r in db.rows
  }

  predicate MovesOn(after: Position, records: seq<Position>, next: Position) {
    Before(after, next) && forall r :: r in records ==> UpTo(r, next)
  }

  lemma ChildrenInOrder(parent: Id, children: seq<Id>)
    requires Sorted(children)
    ensures InOrder(AsRows(parent, children))
    ensures forall r: Position :: r in AsRows(parent, children) <==> r.parent == parent && r.child in children
  {
    forall r: Position | r.parent == parent && r.child in children ensures r in AsRows(parent, children) {
      var i :| 0 <= i < |children| && children[i] == r.child;
      assert AsRows(parent, children)[i] == r;
    }
  }

  /** The children read for a fixed parent are rows beyond the position. */
  lemma ChildrenAreRows(reading: Reading, after: Position, p: Id, taken: seq<Id>)
    requires OwnedParent(reading.atParent, after.parent, true) == Some(p)
    requires Sorted(taken) && |taken| <= PAGE_SIZE
    requires forall c :: c in taken ==> c in Children(reading.atRows, p, if p == after.parent then after.child else 0)
    ensures RowsExact(reading.atRows, after, AsRows(p, taken))
  {
    ChildrenInOrder(p, taken);
    hide AsRows;
  }

  lemma PageIsExact(reading: Reading, owner: string, section: string, after: Position)
    ensures PageExact(reading, owner, section, after, ChildPage(reading, owner, section, after))
  {
    var parent := OwnedParent(reading.atParent, after.parent, true);
    if parent.Some? {
      var p := parent.value;
      var all := Ascending(Children(reading.atRows, p, if p == after.parent then after.child else 0));
      ChildrenAreRows(reading, after, p, First(all, PAGE_SIZE));
      PageRows(reading, owner, section, after, p);
      PageMovesOn(reading, owner, section, after, p);
      var page := ChildPage(reading, owner, section, after);
      assert page.next.Some? ==> page.next.value.owner == owner && page.next.value.section == section;
      hide ChildPage, Children, OwnedParent, RowsExact, MovesOn, Stays, UpTo, Before, AsRows, First;
      forall r | Stays(reading, r) && Before(after, r) && (page.next.None? || UpTo(r, page.next.value.position)) ensures r in page.records {
        PageMissesNothing(reading, owner, section, after, p, r);
      }
    } else {
      NoParentNoRows(reading, after);
    }
  }

  lemma NoParentNoRows(reading: Reading, after: Position)
    requires OwnedParent(reading.atParent, after.parent, true).None?
    ensures forall r :: Stays(reading, r) ==> !Before(after, r)
  {
    forall r | Stays(reading, r) ensures !Before(after, r) {
      if r.parent >= after.parent {
        SomeParent(reading.atParent.parents, after.parent, r.parent);
      }
    }
  }

  lemma SomeParent(parents: set<Id>, after: Id, p: Id)
    requires p in parents && p >= after
    ensures From(parents, after, true) != {}
  {
    assert p in From(parents, after, true);
  }

  /** A row that stayed beyond the position belongs to the fixed parent or to a later one. */
  lemma StayersFollow(reading: Reading, after: Position, p: Id, r: Position)
    requires OwnedParent(reading.atParent, after.parent, true) == Some(p)
    requires Stays(reading, r) && Before(after, r)
    ensures r.parent >= p
    ensures r.parent == p ==> r.child in Children(reading.atRows, p, if p == after.parent then after.child else 0)
    ensures r.parent > p ==> OwnedParent(reading.atNext, p, false).Some? && OwnedParent(reading.atNext, p, false).value <= r.parent
  {
    assert r.parent in From(reading.atParent.parents, after.parent, true);
    if r.parent > p {
      assert r.parent in From(reading.atNext.parents, p, false);
    }
  }

  lemma PageMovesOn(reading: Reading, owner: string, section: string, after: Position, p: Id)
    requires OwnedParent(reading.atParent, after.parent, true) == Some(p)
    ensures var page := ChildPage(reading, owner, section, after);
            page.next.Some? ==> MovesOn(after, page.records, page.next.value.position)
  {
    hide Ascending, AsRows, First;
    var childAfter := if p == after.parent then after.child else 0;
    var all := Ascending(Children(reading.atRows, p, childAfter));
    if |all| > PAGE_SIZE {
      FullPageMovesOn(reading.atRows, after, p, childAfter, all);
    } else {
      ChildrenInOrder(p, First(all, PAGE_SIZE + 1));
    }
  }

  lemma FullPageMovesOn(db: Db, after: Position, p: Id, childAfter: Id, all: seq<Id>)
    requires all == Ascending(Children(db, p, childAfter)) && |all| > PAGE_SIZE
    requires p >= after.parent && childAfter == if p == after.parent then after.child else 0
    ensures var taken := First(all, PAGE_SIZE + 1)[..PAGE_SIZE];
            MovesOn(after, AsRows(p, taken), Position(p, taken[PAGE_SIZE - 1]))
  {
    hide Ascending, AsRows;
    var taken := First(all, PAGE_SIZE + 1)[..PAGE_SIZE];
    LastIsLargest(all, p, taken);
    assert taken[PAGE_SIZE - 1] in all;
  }

  lemma LastIsLargest(all: seq<Id>, p: Id, taken: seq<Id>)
    requires Sorted(all) && |all| > PAGE_SIZE && taken == First(all, PAGE_SIZE + 1)[..PAGE_SIZE]
    ensures forall r :: r in AsRows(p, taken) ==> UpTo(r, Position(p, taken[PAGE_SIZE - 1]))
  {
    assert taken == all[..PAGE_SIZE];
    ChildrenInOrder(p, taken);
  }

  /** Whichever kind of page it is, its rows are the first ones of the fixed parent. */
  lemma PageRows(reading: Reading, owner: string, section: string, after: Position, p: Id)
    requires OwnedParent(reading.atParent, after.parent, true) == Some(p)
    ensures var all := Ascending(Children(reading.atRows, p, if p == after.parent then after.child else 0));
            ChildPage(reading, owner, section, after).records == AsRows(p, First(all, PAGE_SIZE))
  {
    var all := Ascending(Children(reading.atRows, p, if p == after.parent then after.child else 0));
    hide Ascending, Children, OwnedParent, AsRows;
    assert First(First(all, PAGE_SIZE + 1), PAGE_SIZE) == First(all, PAGE_SIZE);
  }

  lemma PageMissesNothing(reading: Reading, owner: string, section: string, after: Position, p: Id, r: Position)
    requires OwnedParent(reading.atParent, after.parent, true) == Some(p) && Stays(reading, r) && Before(after, r)
    requires var next := ChildPage(reading, owner, section, after).next; next.None? || UpTo(r, next.value.position)
    ensures r in ChildPage(reading, owner, section, after).records
  {
    var all := Ascending(Children(reading.atRows, p, if p == after.parent then after.child else 0));
    PageRows(reading, owner, section, after, p);
    StayersFollow(reading, after, p, r);
    assert r.child > 0;
    hide AsRows, Ascending, Children, Stays, OwnedParent;
    ChildrenInOrder(p, First(all, PAGE_SIZE));
    if r.parent == p {
      PageReaches(all, PAGE_SIZE, r.child);
    }
  }

  // ---------- The client loop ----------

  /** What the client has after some pages: the records, and where it stands. */
  ghost predicate ExportedUpTo(readings: seq<Reading>, records: seq<Position>, cursor: Option<Cursor>, done: bool) {
    var here := if cursor.Some? then cursor.value.position else START;
    && InOrder(records)
    && (forall r :: r in records ==> Before(START, r) && exists k :: 0 <= k < |readings| && r in readings[k].atRows.rows)
    && (!done ==> forall r :: r in records ==> UpTo(r, here))
    && (forall r :: StaysThroughout(readings, r) && (done || (UpTo(r, here) && here != START)) ==> r in records)
  }

  ghost predicate StaysThroughout(readings: seq<Reading>, r: Position) {
    forall k :: 0 <= k < |readings| ==> Stays(readings[k], r)
  }

  /** One more exact page extends what has been exported. */
  lemma OneMorePage(readings: seq<Reading>, reading: Reading, owner: string, section: string, records: seq<Position>,
                    cursor: Option<Cursor>, page: Page)
    requires ExportedUpTo(readings, records, cursor, false)
    requires PageExact(reading, owner, section, if cursor.Some? then cursor.value.position else START, page)
    ensures ExportedUpTo(readings + [reading], records + page.records, page.next, page.next.None?)
  {
    var here := if cursor.Some? then cursor.value.position else START;
    var all := readings + [reading];
    forall r | StaysThroughout(all, r) ensures StaysThroughout(readings, r) && Stays(reading, r) {
      assert all[|readings|] == reading;
      assert forall k :: 0 <= k < |readings| ==> all[k] == readings[k];
    }
    forall r | r in records + page.records ensures exists k :: 0 <= k < |all| && r in all[k].atRows.rows {
      if r in records {
        var k :| 0 <= k < |readings| && r in readings[k].atRows.rows;
        assert all[k] == readings[k];
      } else {
        assert all[|readings|] == reading;
      }
    }
    OrderedConcat(records, page.records, here);
    hide StaysThroughout, Stays;
    forall r | StaysThroughout(all, r) && (page.next.None? || UpTo(r, page.next.value.position)) ensures r in records + page.records {
      StayersAreBeyondStart(all, reading, r);
      if UpTo(r, here) {
        assert r in records;
      } else {
        assert Before(here, r);
      }
    }
  }

  lemma StayersAreBeyondStart(all: seq<Reading>, reading: Reading, r: Position)
    requires StaysThroughout(all, r) && reading in all
    ensures Before(START, r)
  {
    assert Stays(reading, r);
  }

  lemma OrderedConcat(a: seq<Position>, b: seq<Position>, mid: Position)
    requires InOrder(a) && InOrder(b)
    requires (forall r :: r in a ==> UpTo(r, mid)) && (forall r :: r in b ==> Before(mid, r))
    ensures InOrder(a + b)
  {
    forall i, j | 0 <= i < j < |a + b| ensures Before((a + b)[i], (a + b)[j]) {
      if i < |a| <= j {
        assert a[i] in a && b[j - |a|] in b;
      }
    }
  }

  /** The repeated-cursor check. */
  method NextCursor(value: Option<Cursor>, seen: set<Cursor>) returns (r: Result<Option<Cursor>, string>)
    ensures r.Failure? <==> value.Some? && value.value in seen
    ensures r.Success? ==> r.value == value
  {
    if value.Some? && value.value in seen {
      return Failure("Export pagination did not advance. No file was downloaded.");
    }
    return Success(value);
  }

  /** The section loop of createAccountExport. Each request meets the next of `readings`;
      `complete` says that the last cursor was reached before they ran out. The export never
      fails on a repeated or foreign cursor, and a complete one holds every row that stayed
      exactly once, in order. */
  method ExportSection(owner: string, section: string, readings: seq<Reading>)
    returns (r: Result<seq<Position>, string>, count: nat, complete: bool, ghost used: nat)
    ensures r.Success? && count == |r.value| && used <= |readings| && (!complete ==> used == |readings|)
    ensures InOrder(r.value)
    ensures forall row :: row in r.value ==> exists k :: 0 <= k < used && row in readings[k].atRows.rows
    ensures complete ==> forall row :: StaysThroughout(readings[..used], row) ==> row in r.value
  {
    hide ExportPage, ExportedUpTo, AllBefore, CursorOf, StaysThroughout;
    NothingExported(owner, section);
    var records: seq<Position>, cursor: Option<Cursor>, seen: set<Cursor> := [], None, {};
    r, complete, count := Success([]), false, 0;
    var i := 0;
    assert readings[..0] == [];
    while r.Success? && !complete && i < |readings|
      invariant r.Success? && i <= |readings| && count == |records|
      invariant ExportedUpTo(readings[..i], records, cursor, complete)
      invariant CursorOf(cursor, owner, section)
      invariant !complete ==> AllBefore(seen, cursor)
      decreases |readings| - i
    {
      OneMoreReading(readings, i, owner, section, records, cursor, seen);
      match ExportPage(readings[i], owner, section, cursor) {
        case Failure(error) => r := Failure(error);
        case Success(page) =>
          records, count := records + page.records, count + |page.records|;
          var next := NextCursor(page.next, seen);
          match next {
            case Failure(error) => r := Failure(error);
            case Success(following) =>
              cursor, complete := following, following.None?;
              if following.Some? {
                seen := seen + {following.value};
              }
          }
      }
      i := i + 1;
    }
    used := i;
    ExportedMeans(readings[..i], records, cursor, complete);
    if r.Success? {
      r := Success(records);
    }
  }

  lemma NothingExported(owner: string, section: string)
    ensures ExportedUpTo([], [], None, false) && CursorOf(None, owner, section) && AllBefore({}, None)
  {
  }

  lemma ExportedMeans(readings: seq<Reading>, records: seq<Position>, cursor: Option<Cursor>, done: bool)
    requires ExportedUpTo(readings, records, cursor, done)
    ensures InOrder(records)
    ensures forall r :: r in records ==> exists k :: 0 <= k < |readings| && r in readings[k].atRows.rows
    ensures done ==> forall r :: StaysThroughout(readings, r) ==> r in records
  {
  }

  /** One round of the loop. */
  lemma OneMoreReading(readings: seq<Reading>, i: nat, owner: string, section: string, records: seq<Position>,
                       cursor: Option<Cursor>, seen: set<Cursor>)
    requires i < |readings| && ExportedUpTo(readings[..i], records, cursor, false)
    requires CursorOf(cursor, owner, section) && AllBefore(seen, cursor)
    ensures var page := ExportPage(readings[i], owner, section, cursor);
            && page.Success?
            && ExportedUpTo(readings[..i + 1], records + page.value.records, page.value.next, page.value.next.None?)
            && CursorOf(page.value.next, owner, section)
            && (page.value.next.Some? ==> page.value.next.value !in seen && AllBefore(seen + {page.value.next.value}, page.value.next))
  {
    var here := if cursor.Some? then cursor.value.position else START;
    var page := ChildPage(readings[i], owner, section, here);
    hide ChildPage, PageExact, ExportedUpTo, AllBefore, Before;
    PageIsExact(readings[i], owner, section, here);
    OneMorePage(readings[..i], readings[i], owner, section, records, cursor, page);
    NextIsNew(readings[i], owner, section, cursor, page, seen);
    assert readings[..i + 1] == readings[..i] + [readings[i]];
  }

  predicate CursorOf(cursor: Option<Cursor>, owner: string, section: string) {
    cursor.Some? ==> cursor.value.owner == owner && cursor.value.section == section && Before(START, cursor.value.position)
  }

  predicate AllBefore(seen: set<Cursor>, cursor: Option<Cursor>) {
    forall c :: c in seen ==> cursor.Some? && UpTo(c.position, cursor.value.position)
  }

  /** Positions strictly increase, so no cursor comes back. */
  lemma NextIsNew(reading: Reading, owner: string, section: string, cursor: Option<Cursor>, page: Page, seen: set<Cursor>)
    requires CursorOf(cursor, owner, section) && AllBefore(seen, cursor)
    requires PageExact(reading, owner, section, if cursor.Some? then cursor.value.position else START, page)
    ensures CursorOf(page.next, owner, section)
    ensures page.next.Some? ==> page.next.value !in seen && AllBefore(seen + {page.next.value}, page.next)
  {
  }
}
