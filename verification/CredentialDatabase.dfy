/** The credential tables as the program updates them, one batch per method, and the
    maintenance page that copies old documents into them. */
module CredentialDatabase {
  import opened Outcomes
  import opened Credentials
  import opened CredentialSafety
  import opened Retention

  datatype PollResult = Pending(expiresAt: int) | Expired(expiresAt: int) | Complete(token: string, expiresAt: int)

  /** What the old store holds under one name: text that is no document, a document that the
      importer refuses although a reader would accept it, or one that both accept. */
  datatype Raw = Malformed | Refused(doc: Doc) | Usable(doc: Doc)

  predicate Held(store: map<Key, Raw>, key: Key) {
    key in store && !store[key].Malformed?
  }

  /** Sessions and command-line tokens are copied; every other prefix is only retired. */
  datatype Prefix = Copied | RetiredOnly

  datatype Page = Page(scanned: nat, copied: nat, retired: nat, invalid: nat, cursor: Option<string>, done: bool)

  predicate Importable(store: map<Key, Raw>, key: Key, now: int) {
    key in store && store[key].Usable? && store[key].doc.expiresAt > now
  }

  /** The names on the page whose documents are copied, in page order. */
  function Imports(store: map<Key, Raw>, names: seq<Key>, now: int): (r: seq<Key>)
    ensures forall k :: k in r <==> k in names && Importable(store, k, now)
    decreases names
  {
    if names == [] then []
    else
      var name := names[|names| - 1];
      Imports(store, names[..|names| - 1], now) + (if Importable(store, name, now) then [name] else [])
  }

  /** What is copied: documents the importer takes that have not expired. What is counted
      invalid: everything else that is still there. */
  lemma ImportsAre(store: map<Key, Raw>, names: seq<Key>, now: int, key: Key)
    ensures key in Imports(store, names, now) <==>
            key in names && key in store && store[key].Usable? && now < store[key].doc.expiresAt
  {
  }

  /** Names that still had something under them, but nothing worth copying. */
  function Rejects(store: map<Key, Raw>, names: seq<Key>, now: int): (r: nat)
    ensures r + |Imports(store, names, now)| <= |names|
    ensures (forall k :: k in names ==> k in store) ==> r + |Imports(store, names, now)| == |names|
    decreases names
  {
    if names == [] then 0
    else
      var name := names[|names| - 1];
      Rejects(store, names[..|names| - 1], now) + (if name in store && !Importable(store, name, now) then 1 else 0)
  }

  const CLEANUP_LIMIT: nat := 500

  function Expiries(records: map<Key, Record>): map<Key, int> {
    map k | k in records :: records[k].expiresAt
  }

  lemma ExpiredMayGo(s: State, chosen: set<Key>, now: int)
    requires OldestFirst(Expiries(s.records), chosen, now, CLEANUP_LIMIT) && now <= s.clock
    ensures Enabled(s, DoCleanup(chosen))
  {
  }

  lemma OneMoreName(store: map<Key, Raw>, names: seq<Key>, i: nat, now: int)
    requires i < |names|
    ensures Imports(store, names[..i + 1], now) ==
            if Importable(store, names[i], now) then Imports(store, names[..i], now) + [names[i]] else Imports(store, names[..i], now)
    ensures Rejects(store, names[..i + 1], now) ==
            Rejects(store, names[..i], now) + (if names[i] in store && !Importable(store, names[i], now) then 1 else 0)
  {
    hide Importable;
    assert names[..i + 1][..i] == names[..i];
  }

  class AuthStore {
    var records: map<Key, Record>
    var cutoffs: map<Id, int>
    var windowOpen: bool
    var active: set<Id>
    var store: map<Key, Raw>
    var cursor: Option<string>
    var completed: bool
    ghost var clock: int
    ghost var legacy: map<Key, Doc>
    ghost var issued: set<Key>
    ghost var approvals: map<string, Id>
    ghost var mints: seq<Mint>

    ghost function View(): State
      reads this
    {
      State(clock, records, cutoffs, windowOpen, active, legacy, issued, approvals, mints)
    }

    ghost predicate Valid()
      reads this
    {
      && Inv(View())
      && (forall k :: Held(store, k) ==> k in legacy && legacy[k] == store[k].doc)
    }

    /** `documents` is what the old store holds when the tables come into use. */
    constructor (documents: map<Key, Raw>, users: set<Id>, now: int)
      requires forall k :: k in documents ==> IsCredential(k)
      requires forall a, b :: a in documents && b in documents && a.hash == b.hash ==> a == b
      ensures Valid() && records == map[] && store == documents && active == users && windowOpen && !completed
    {
      records, cutoffs, windowOpen, active, store := map[], map[], true, users, documents;
      cursor, completed := None, false;
      clock, issued, approvals, mints := now, {}, map[], [];
      legacy := map k | k in documents && Held(documents, k) :: documents[k].doc;
    }

    /** readCredential, run without interruption. */
    method ReadCredential(key: Key, now: int) returns (document: Option<Doc>)
      requires Valid() && IsCredential(key)
      ensures document == Read(key, now, View(), View(), Held(store, key), View())
    {
      if key in records {
        assert RowValid(View(), key);
        if records[key].revoked || records[key].expiresAt <= now {
          return None;
        }
        document := records[key].doc;
      } else {
        if !windowOpen || key !in store || store[key].Malformed? || store[key].doc.expiresAt <= now {
          return None;
        }
        document := Some(store[key].doc);
      }
      var user, createdAt := document.value.user, document.value.createdAt;
      if Marker(key) in records || (user in cutoffs && cutoffs[user] >= createdAt) {
        document := None;
      }
    }

    method CreateSession(hash: string, user: Id, now: int) returns (ok: bool)
      requires Valid() && Enabled(View(), DoCreateSession(hash, user, now))
      modifies this
      ensures Valid() && View() == Credentials.CreateSession(old(View()), hash, user, now) && store == old(store)
      ensures ok <==> user in active
    {
      CreateSessionKeepsInv(View(), hash, user, now);
      hide Inv;
      ok := user in active;
      if ok {
        var doc := Doc(user, now, now + SESSION_TTL_MS);
        records := records[Key(Session, hash) := Record(Some(user), doc.expiresAt, None, false, Some(doc))];
        issued := issued + {Key(Session, hash)};
      }
    }

    method StartRequest(hash: string, now: int)
      requires Valid() && Enabled(View(), DoStartRequest(hash, now))
      modifies this
      ensures Valid() && View() == Credentials.StartRequest(old(View()), hash, now) && store == old(store)
    {
      StartRequestKeepsInv(View(), hash, now);
      hide Inv;
      records := records[Key(CliRequest, hash) := Record(None, now + REQUEST_TTL_MS, None, false, None)];
      issued := issued + {Key(CliRequest, hash)};
    }

    method Approve(hash: string, user: Id, now: int) returns (ok: bool)
      requires Valid()
      modifies this
      ensures Valid() && View() == Credentials.Approve(old(View()), hash, user, now) && store == old(store)
      ensures ok <==> Approvable(old(View()), hash, user, now)
    {
      ApproveKeepsInv(View(), hash, user, now);
      hide Inv;
      var key := Key(CliRequest, hash);
      if key !in records || user !in active {
        return false;
      }
      var row := records[key];
      ok := row.consumedBy.None? && !row.revoked && row.expiresAt > now && (row.user.None? || row.user == Some(user));
      if ok {
        records := records[key := row.(user := Some(user))];
        approvals := if hash in approvals then approvals else approvals[hash := user];
      }
    }

    /** pollCliAuthRequest, run without interruption: the row is read, then the batch claims
        the request and inserts the token under that claim. */
    method Poll(hash: string, token: string, now: int) returns (result: PollResult)
      requires Valid() && now <= clock && Fresh(View(), Key(CliToken, token)) && Unclaimed(View(), token)
      modifies this
      ensures Valid() && store == old(store)
      ensures var user := PollRead(old(View()), hash, now);
              && View() == (if user.Some? then PollCommit(old(View()), hash, user.value, token, now) else old(View()))
              && (result.Complete? <==> user.Some? && Consumable(old(View()), hash, user.value, now))
      ensures result.Complete? ==> result.token == token && Key(CliToken, token) in records &&
                                   records[Key(CliToken, token)].expiresAt == result.expiresAt == now + TOKEN_TTL_MS
      ensures !result.Complete? ==>
                result.expiresAt == if Key(CliRequest, hash) in old(records) then old(records)[Key(CliRequest, hash)].expiresAt else now
      ensures result.Pending? <==> Key(CliRequest, hash) in old(records) && old(records)[Key(CliRequest, hash)].user.None? &&
                                   old(records)[Key(CliRequest, hash)].expiresAt > now &&
                                   old(records)[Key(CliRequest, hash)].consumedBy.None? && !old(records)[Key(CliRequest, hash)].revoked
    {
      hide Inv, Fresh, Unclaimed;
      var key := Key(CliRequest, hash);
      if key !in records {
        return Expired(now);
      }
      var row := records[key];
      if row.expiresAt <= now || row.consumedBy.Some? || row.revoked {
        return Expired(row.expiresAt);
      }
      if row.user.None? {
        return Pending(row.expiresAt);
      }
      var user := row.user.value;
      PollCommitKeepsInv(View(), hash, user, token, now);
      if user in active {
        records := records[key := row.(consumedBy := Some(token))];
      }
      if records[key].consumedBy == Some(token) {
        var doc := Doc(user, now, now + TOKEN_TTL_MS);
        records := records[Key(CliToken, token) := Record(Some(user), doc.expiresAt, None, false, Some(doc))];
        issued := issued + {Key(CliToken, token)};
        mints := mints + [Mint(hash, token, user)];
        result := Complete(token, doc.expiresAt);
      } else {
        result := Expired(row.expiresAt);
      }
    }

    /** revokeCredential: only a credential that still reads back is revoked. */
    method Logout(key: Key, wasLegacy: bool, now: int)
      requires Valid() && IsCredential(key) && (wasLegacy <==> key in legacy)
      modifies this
      ensures Valid() && store == old(store)
      ensures var document := Read(key, now, old(View()), old(View()), Held(store, key), old(View()));
              View() == if document.Some? then Credentials.Logout(old(View()), key, document.value) else old(View())
    {
      var document := ReadCredential(key, now);
      if document.None? {
        return;
      }
      ReadReturnsTheDocument(View(), key, now, Held(store, key));
      LogoutKeepsInv(View(), key, document.value);
      hide Inv, Read;
      if key in records {
        records := records[key := records[key].(revoked := true)];
      }
      if wasLegacy && Marker(key) !in records {
        records := records[Marker(key) := Record(None, document.value.expiresAt, None, false, None)];
      }
    }

    /** revokeAccountCredential. */
    method RevokeById(user: Id, key: Key) returns (found: bool)
      requires Valid()
      modifies this
      ensures Valid() && View() == Credentials.RevokeById(old(View()), user, key) && store == old(store)
      ensures found <==> key in old(records) && old(records)[key].user == Some(user) && IsCredential(key) && user in active
    {
      RevokeKeepsInv(View(), key);
      hide Inv;
      found := key in records && records[key].user == Some(user) && IsCredential(key) && user in active;
      if found {
        records := records[key := records[key].(revoked := true)];
      }
    }

    /** revokeAllAccountCredentials. */
    method RevokeAll(user: Id, now: int) returns (ok: bool)
      requires Valid()
      modifies this
      ensures Valid() && store == old(store) && (ok <==> user in active)
      ensures View() == if ok then Credentials.RevokeAll(old(View()), user, now) else old(View())
    {
      RevokeAllKeepsInv(View(), user, now);
      hide Inv;
      ok := user in active;
      if ok {
        cutoffs := cutoffs[user := if user in cutoffs then Later(cutoffs[user], now) else now];
        records := RevokeUser(records, user);
      }
    }

    /** cleanupAuthRecords, the records half: at most 500 expired rows, the oldest first. */
    method Cleanup(now: int) returns (removed: nat, ghost chosen: set<Key>)
      requires Valid() && now <= clock
      modifies this
      ensures OldestFirst(Expiries(old(records)), chosen, now, 500) && removed == |chosen|
      ensures Enabled(old(View()), DoCleanup(chosen)) && View() == Credentials.Cleanup(old(View()), chosen)
      ensures Valid() && store == old(store)
    {
      hide OldestFirst, Expiries, Enabled, Inv;
      var oldest := ChooseOldest(Expiries(records), now, CLEANUP_LIMIT);
      chosen := oldest;
      ExpiredMayGo(View(), chosen, now);
      CleanupKeepsInv(View(), chosen);
      records, removed := records - oldest, |oldest|;
    }

    /** migrateLegacyAuthPage for one listed page. `next` is the cursor the old store gave. */
    method MigratePage(prefix: Prefix, names: seq<Key>, complete: bool, next: Option<string>, dryRun: bool, now: int)
      returns (page: Result<Page, string>)
      requires Valid()
      modifies this
      ensures Valid()
      ensures page.Failure? <==> (dryRun || !old(completed)) && !complete && next.None?
      ensures page.Failure? || dryRun || old(completed) ==>
                View() == old(View()) && store == old(store) && cursor == old(cursor) && completed == old(completed)
      ensures page.Success? && !dryRun && !old(completed) ==>
                var copied := if prefix.Copied? then Imports(old(store), names, now) else [];
                && (forall k :: k in copied ==> k in old(legacy))
                && View() == ImportAll(old(View()), copied)
                && store == old(store) - (set k | k in names)
                && cursor == (if complete then None else next) && completed == complete
      ensures page.Success? && (dryRun || !old(completed)) ==>
                var p := page.value;
                && p.scanned == |names| && p.done == complete && p.cursor == (if complete then None else next)
                && p.copied == (if prefix.Copied? then |Imports(old(store), names, now)| else 0)
                && p.invalid == (if prefix.Copied? then Rejects(old(store), names, now) else 0)
                && p.retired == (if prefix.Copied? then 0 else |names|)
    {
      hide Inv, ImportAll;
      if !dryRun && completed {
        return Success(Page(0, 0, 0, 0, None, true));
      }
      var statements, invalid, retired := ScanPage(prefix, names, now);
      hide Imports, Rejects;
      var cursorAfter := if complete then None else next;
      if !complete && cursorAfter.None? {
        return Failure("KV returned an incomplete auth page without a cursor.");
      }
      if !dryRun {
        InsertAll(statements);
        DeleteAll(names);
        cursor, completed := cursorAfter, complete;
      }
      page := Success(Page(|names|, |statements|, retired, invalid, cursorAfter, complete));
    }

    /** The loop over the page's names: the inserts to batch, and the counters. */
    method ScanPage(prefix: Prefix, names: seq<Key>, now: int) returns (statements: seq<Key>, invalid: nat, retired: nat)
      ensures statements == if prefix.Copied? then Imports(store, names, now) else []
      ensures invalid == if prefix.Copied? then Rejects(store, names, now) else 0
      ensures retired == if prefix.Copied? then 0 else |names|
    {
      assert Imports(store, names[..0], now) == [] && Rejects(store, names[..0], now) == 0;
      hide Importable, Imports, Rejects;
      statements, invalid, retired := [], 0, 0;
      var scanned := 0;
      while scanned < |names|
        invariant scanned <= |names|
        invariant statements == if prefix.Copied? then Imports(store, names[..scanned], now) else []
        invariant invalid == if prefix.Copied? then Rejects(store, names[..scanned], now) else 0
        invariant retired == if prefix.Copied? then 0 else scanned
      {
        var name := names[scanned];
        OneMoreName(store, names, scanned, now);
        if prefix.RetiredOnly? {
          retired := retired + 1;
        } else if name in store {
          if Importable(store, name, now) {
            statements := statements + [name];
          } else {
            invalid := invalid + 1;
          }
        }
        scanned := scanned + 1;
      }
      assert names[..scanned] == names;
    }

    method DeleteAll(names: seq<Key>)
      modifies this`store
      ensures store == old(store) - (set k | k in names)
    {
      var i := 0;
      while i < |names|
        invariant i <= |names|
        invariant store == old(store) - (set k | k in names[..i])
      {
        assert names[..i + 1] == names[..i] + [names[i]];
        store := store - {names[i]};
        i := i + 1;
      }
    }

    /** The import batch: each document is inserted unless a row or a marker stands. */
    method InsertAll(keys: seq<Key>)
      requires Valid() && forall k :: k in keys ==> k in store && store[k].Usable?
      modifies this`records
      ensures Valid()
      ensures View() == ImportAll(old(View()), keys)
    {
      hide Inv;
      ImportAllKeepsInv(View(), keys);
      var i := 0;
      while i < |keys|
        invariant i <= |keys|
        invariant ImportAll(View(), keys[i..]) == ImportAll(old(View()), keys)
      {
        if keys[i] !in records && Marker(keys[i]) !in records {
          var doc := store[keys[i]].doc;
          records := records[keys[i] := Record(Some(doc.user), doc.expiresAt, None, false, Some(doc))];
        }
        i := i + 1;
      }
    }
  }

  /** A page takes access away exactly from the documents that a reader accepts and the
      importer refuses; everything else reads back as before. */
  lemma PageKeepsAccess(s: State, store: map<Key, Raw>, names: seq<Key>, key: Key, now: int)
    requires Inv(s) && IsCredential(key) && (forall k :: k in names ==> IsCredential(k))
    requires forall k :: Held(store, k) ==> k in s.legacy && s.legacy[k] == store[k].doc
    requires Read(key, now, s, s, Held(store, key), s).Some?
    ensures forall k :: k in Imports(store, names, now) ==> k in s.legacy
    ensures var s', store' := ImportAll(s, Imports(store, names, now)), store - (set k | k in names);
            Read(key, now, s', s', Held(store', key), s') ==
            if key in s.records || key !in names || store[key].Usable? then Read(key, now, s, s, Held(store, key), s) else None
  {
    var page := Imports(store, names, now);
    ImportAllKeepsRows(s, page, key);
    ImportAllKeepsRows(s, page, Marker(key));
    assert Marker(key) !in page;
    if key !in s.records && key in page {
      ImportAllAdds(s, page, key);
    }
    hide Inv, ImportAll, Imports;
  }

  lemma ReadReturnsTheDocument(s: State, key: Key, now: int, found: bool)
    requires Inv(s) && IsCredential(key) && Read(key, now, s, s, found, s).Some?
    ensures DocOf(s, key, Read(key, now, s, s, found, s).value)
  {
    if key in s.records {
      assert RowValid(s, key);
    }
  }
}
