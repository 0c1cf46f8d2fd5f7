/** Revocation is permanent, and a device request mints at most one token. */
module CredentialSafety {
  import opened Outcomes
  import opened Credentials

  // ---------- The invariant ----------

  /** Credential rows carry their document, its owner and its expiry; a legacy key's row is
      its legacy document; markers belong to legacy credentials and last as long. */
  predicate RowValid(s: State, k: Key)
    requires k in s.records
  {
    var row := s.records[k];
    match k.kind
    case Session => CredentialRow(s, k)
    case CliToken => CredentialRow(s, k)
    case CliRequest =>
      k in s.issued && row.doc == None &&
      (if row.user.Some? then k.hash in s.approvals && s.approvals[k.hash] == row.user.value else k.hash !in s.approvals)
    case RevokedLegacy => row.doc == None && row.user == None
  }

  predicate CredentialRow(s: State, k: Key)
    requires k in s.records
  {
    var row := s.records[k];
    && row.doc.Some? && row.user == Some(row.doc.value.user) && row.expiresAt == row.doc.value.expiresAt
    && (k in s.issued || k in s.legacy)
    && (k in s.legacy ==> row.doc == Some(s.legacy[k]))
    && row.consumedBy == None
  }

  predicate RowsValid(s: State) {
    forall k :: k in s.records ==> RowValid(s, k)
  }

  /** A marker lasts as long as its credential, whose migrated row, if any, is revoked. */
  predicate MarkersLast(s: State) {
    forall k :: k in s.legacy && Marker(k) in s.records ==>
      s.records[Marker(k)].expiresAt >= s.legacy[k].expiresAt && (k in s.records ==> s.records[k].revoked)
  }

  predicate LegacyKeys(s: State) {
    && (forall k :: k in s.legacy ==> IsCredential(k) && k !in s.issued)
    && (forall a, b :: a in s.legacy && b in s.legacy && a.hash == b.hash ==> a == b)
  }

  /** The history of consumed requests. */
  predicate MintsValid(s: State) {
    && (forall i :: 0 <= i < |s.mints| ==> MintValid(s, s.mints[i]))
    && (forall i, j :: 0 <= i < j < |s.mints| ==> s.mints[i].request != s.mints[j].request)
    && (forall hash :: hash in s.approvals ==> Key(CliRequest, hash) in s.issued)
  }

  predicate MintValid(s: State, m: Mint) {
    var request := Key(CliRequest, m.request);
    && m.request in s.approvals && s.approvals[m.request] == m.user
    && request in s.issued && Key(CliToken, m.token) in s.issued
    && (request in s.records ==> s.records[request].consumedBy == Some(m.token))
  }

  predicate ConsumedMinted(s: State) {
    forall k :: k in s.records && s.records[k].consumedBy.Some? ==>
      k.kind == CliRequest && s.records[k].user.Some? &&
      Mint(k.hash, s.records[k].consumedBy.value, s.records[k].user.value) in s.mints
  }

  predicate Inv(s: State) {
    RowsValid(s) && MarkersLast(s) && LegacyKeys(s) && MintsValid(s) && ConsumedMinted(s)
  }

  // ---------- Every step keeps the invariant ----------

  lemma ImportKeepsRows(s: State, key: Key)
    requires RowsValid(s) && LegacyKeys(s) && key in s.legacy
    ensures RowsValid(Import(s, key))
  {
    var s' := Import(s, key);
    forall k | k in s'.records ensures RowValid(s', k) {
      assert k in s.records ==> RowValid(s, k);
    }
  }

  lemma ImportKeepsMarkers(s: State, key: Key)
    requires MarkersLast(s) && LegacyKeys(s) && key in s.legacy
    ensures MarkersLast(Import(s, key)) && LegacyKeys(Import(s, key))
  {
  }

  lemma ImportKeepsMints(s: State, key: Key)
    requires MintsValid(s) && ConsumedMinted(s) && LegacyKeys(s) && key in s.legacy
    ensures MintsValid(Import(s, key)) && ConsumedMinted(Import(s, key))
  {
    var s' := Import(s, key);
    forall i | 0 <= i < |s'.mints| ensures MintValid(s', s'.mints[i]) {
      assert MintValid(s, s.mints[i]);
    }
  }

  lemma ImportKeepsInv(s: State, key: Key)
    requires Inv(s) && key in s.legacy
    ensures Inv(Import(s, key))
  {
    hide RowsValid, MarkersLast, MintsValid, ConsumedMinted;
    ImportKeepsRows(s, key);
    ImportKeepsMarkers(s, key);
    ImportKeepsMints(s, key);
  }

  lemma {:induction false} ImportAllKeepsInv(s: State, page: seq<Key>)
    requires Inv(s) && forall k :: k in page ==> k in s.legacy
    ensures Inv(ImportAll(s, page))
    decreases page
  {
    if page != [] {
      ImportKeepsInv(s, page[0]);
      ImportAllKeepsInv(Import(s, page[0]), page[1..]);
    }
  }

  /** Steps that change rows only by revoking or removing them, or add a marker. */
  lemma RevokingKeepsInv(s: State, s': State)
    requires Inv(s)
    requires s'.legacy == s.legacy && s'.issued == s.issued && s'.approvals == s.approvals && s'.mints == s.mints
    requires forall k :: k in s'.records && k in s.records ==>
               s'.records[k] == s.records[k].(revoked := s'.records[k].revoked) && (s.records[k].revoked ==> s'.records[k].revoked)
    requires forall k :: k in s'.records && k !in s.records ==>
               k.kind == RevokedLegacy && s'.records[k].doc == None && s'.records[k].user == None && s'.records[k].consumedBy == None
    requires MarkersLast(s')
    ensures Inv(s')
  {
    forall k | k in s'.records ensures RowValid(s', k) {
      assert k in s.records ==> RowValid(s, k);
    }
    forall i | 0 <= i < |s'.mints| ensures MintValid(s', s'.mints[i]) {
      assert MintValid(s, s.mints[i]);
    }
  }

  lemma InsertKeepsInv(s: State, key: Key, record: Record)
    requires Inv(s) && Fresh(s, key) && key !in s.records && record.consumedBy == None
    requires RowValid(Insert(s, key, record), key) && key.kind != RevokedLegacy
    ensures Inv(Insert(s, key, record))
  {
    var s' := Insert(s, key, record);
    forall k | k in s'.records ensures RowValid(s', k) {
      assert k in s.records ==> RowValid(s, k);
    }
    forall i | 0 <= i < |s'.mints| ensures MintValid(s', s'.mints[i]) {
      assert MintValid(s, s.mints[i]);
    }
  }

  lemma ApproveKeepsInv(s: State, hash: string, user: Id, at: int)
    requires Inv(s)
    ensures Inv(Approve(s, hash, user, at))
  {
    var s' := Approve(s, hash, user, at);
    if Approvable(s, hash, user, at) {
      assert RowValid(s, Key(CliRequest, hash));
      forall k | k in s'.records ensures RowValid(s', k) {
        assert RowValid(s, k);
      }
      forall i | 0 <= i < |s'.mints| ensures MintValid(s', s'.mints[i]) {
        assert MintValid(s, s.mints[i]);
      }
    }
  }

  lemma PollCommitKeepsInv(s: State, hash: string, user: Id, token: string, at: int)
    requires Inv(s) && Fresh(s, Key(CliToken, token)) && Unclaimed(s, token)
    ensures Inv(PollCommit(s, hash, user, token, at))
  {
    if Consumable(s, hash, user, at) {
      NoRowWhenFresh(s, Key(CliToken, token));
      PollCommitKeepsRows(s, hash, user, token, at);
      PollCommitKeepsMints(s, hash, user, token, at);
    }
  }

  lemma PollCommitKeepsRows(s: State, hash: string, user: Id, token: string, at: int)
    requires Inv(s) && Fresh(s, Key(CliToken, token)) && Key(CliToken, token) !in s.records
    requires Consumable(s, hash, user, at)
    ensures var s' := PollCommit(s, hash, user, token, at); RowsValid(s') && MarkersLast(s') && LegacyKeys(s')
  {
    hide MintsValid, ConsumedMinted;
    var s' := PollCommit(s, hash, user, token, at);
    forall k | k in s'.records ensures RowValid(s', k) {
      assert k in s.records ==> RowValid(s, k);
    }
  }

  lemma PollCommitKeepsMints(s: State, hash: string, user: Id, token: string, at: int)
    requires Inv(s) && Fresh(s, Key(CliToken, token)) && Key(CliToken, token) !in s.records
    requires Consumable(s, hash, user, at)
    ensures var s' := PollCommit(s, hash, user, token, at); MintsValid(s') && ConsumedMinted(s')
  {
    var request := Key(CliRequest, hash);
    assert RowValid(s, request);
    hide RowsValid, RowValid, MarkersLast, LegacyKeys, Fresh;
    var s' := PollCommit(s, hash, user, token, at);
    assert s'.mints == s.mints + [Mint(hash, token, user)];
    assert s'.issued == s.issued + {Key(CliToken, token)} && s'.approvals == s.approvals;
    assert forall k :: k in s'.records && k != request && k != Key(CliToken, token) ==> k in s.records && s'.records[k] == s.records[k];
    assert request in s'.records && s'.records[request] == s.records[request].(consumedBy := Some(token));
    assert s'.records[Key(CliToken, token)].consumedBy == None;
    hide PollCommit, Consumable;
    assert forall i :: 0 <= i < |s.mints| ==> MintValid(s, s.mints[i]) && s.mints[i].request != hash;
    forall i | 0 <= i < |s'.mints| ensures MintValid(s', s'.mints[i]) {
      if i < |s.mints| {
        assert s'.mints[i] == s.mints[i] && MintValid(s, s.mints[i]);
      }
    }
    assert s'.mints[|s.mints|] == Mint(hash, token, user);
    assert forall m :: m in s.mints ==> m in s'.mints;
  }

  lemma CreateSessionKeepsInv(s: State, hash: string, user: Id, at: int)
    requires Inv(s) && Fresh(s, Key(Session, hash))
    ensures Inv(CreateSession(s, hash, user, at))
  {
    NoRowWhenFresh(s, Key(Session, hash));
    if user in s.active {
      var doc := Doc(user, at, at + SESSION_TTL_MS);
      InsertKeepsInv(s, Key(Session, hash), Record(Some(user), doc.expiresAt, None, false, Some(doc)));
    }
  }

  lemma StartRequestKeepsInv(s: State, hash: string, at: int)
    requires Inv(s) && Fresh(s, Key(CliRequest, hash))
    ensures Inv(StartRequest(s, hash, at))
  {
    NoRowWhenFresh(s, Key(CliRequest, hash));
    assert hash !in s.approvals;
    InsertKeepsInv(s, Key(CliRequest, hash), Record(None, at + REQUEST_TTL_MS, None, false, None));
  }

  lemma RevokeKeepsInv(s: State, key: Key)
    requires Inv(s)
    ensures Inv(Revoke(s, key))
  {
    hide RowsValid, MintsValid, ConsumedMinted;
    RevokingKeepsInv(s, Revoke(s, key));
  }

  lemma LogoutKeepsInv(s: State, key: Key, doc: Doc)
    requires Inv(s) && IsCredential(key) && DocOf(s, key, doc)
    ensures Inv(Logout(s, key, doc))
  {
    RevokeKeepsInv(s, key);
    hide Inv;
    AddMarkerKeepsInv(Revoke(s, key), key, doc);
  }

  lemma AddMarkerKeepsInv(s: State, key: Key, doc: Doc)
    requires Inv(s) && DocOf(s, key, doc) && (key in s.records ==> s.records[key].revoked)
    ensures Inv(AddMarker(s, key, doc))
  {
    var s' := AddMarker(s, key, doc);
    assert MarkersLast(s') by {
      hide RowsValid, MintsValid, ConsumedMinted;
      assert forall k :: k in s.legacy && k.hash == key.hash && key in s.legacy ==> k == key;
    }
    hide MarkersLast;
    RevokingKeepsInv(s, s');
  }

  lemma RevokeAllKeepsInv(s: State, user: Id, at: int)
    requires Inv(s)
    ensures Inv(RevokeAll(s, user, at))
  {
    hide RowsValid, MintsValid, ConsumedMinted;
    RevokingKeepsInv(s, RevokeAll(s, user, at));
  }

  lemma CleanupKeepsInv(s: State, keys: set<Key>)
    requires Inv(s)
    ensures Inv(Cleanup(s, keys))
  {
    hide RowsValid, MintsValid, ConsumedMinted;
    RevokingKeepsInv(s, Cleanup(s, keys));
  }

  /** The clock, the accounts and the window say nothing about the rows. */
  lemma SurroundingsKeepInv(s: State, s': State)
    requires Inv(s) && s' == s.(clock := s'.clock, active := s'.active, windowOpen := s'.windowOpen)
    ensures Inv(s')
  {
    hide RowsValid, MintsValid, ConsumedMinted;
    RevokingKeepsInv(s, s');
  }

  lemma StepKeepsInv(s: State, step: Step)
    requires Inv(s) && Enabled(s, step)
    ensures Inv(Apply(s, step))
  {
    hide Inv;
    match step
    case DoCreateSession(hash, user, at) => CreateSessionKeepsInv(s, hash, user, at);
    case DoStartRequest(hash, at) => StartRequestKeepsInv(s, hash, at);
    case DoApprove(hash, user, at) => ApproveKeepsInv(s, hash, user, at);
    case DoPollCommit(hash, user, token, at) => PollCommitKeepsInv(s, hash, user, token, at);
    case DoLogout(key, doc) => LogoutKeepsInv(s, key, doc);
    case DoImport(page) => ImportAllKeepsInv(s, page);
    case DoRevokeById(user, key) => RevokeKeepsInv(s, key);
    case DoRevokeAll(user, at) => RevokeAllKeepsInv(s, user, at);
    case DoCleanup(keys) => CleanupKeepsInv(s, keys);
    case _ => SurroundingsKeepInv(s, Apply(s, step));
  }

  lemma NoRowWhenFresh(s: State, key: Key)
    requires Inv(s) && Fresh(s, key) && key.kind != RevokedLegacy
    ensures key !in s.records
  {
    forall k | k in s.records && k.kind != RevokedLegacy ensures k in s.issued || k in s.legacy {
      assert RowValid(s, k);
    }
  }

  lemma {:induction false} RunsKeepInv(states: seq<State>, steps: seq<Step>, i: nat)
    requires IsRun(states, steps) && Inv(states[0]) && i < |states|
    ensures Inv(states[i])
  {
    if i > 0 {
      RunsKeepInv(states, steps, i - 1);
      StepKeepsInv(states[i - 1], steps[i - 1]);
    }
  }

  // ---------- Revocation is permanent ----------

  /** A credential that was taken back: its row is revoked or, for a token that is issued
      once, gone; a marker stands; or its account was cut off. */
  predicate Revoked(s: State, key: Key, doc: Doc) {
    || (key in s.records && s.records[key].revoked)
    || (key in s.issued && key !in s.records)
    || (key in s.legacy && Marker(key) in s.records)
    || CutOff(s, doc)
  }

  /** Taken back, or past its own time. */
  predicate Dead(s: State, key: Key, doc: Doc) {
    Revoked(s, key, doc) || doc.expiresAt <= s.clock
  }

  /** Taken back in a way that no cleanup forgets. */
  predicate RevokedForGood(s: State, key: Key, doc: Doc) {
    Revoked(s, key, doc) && (key !in s.legacy || CutOff(s, doc))
  }

  predicate CutOff(s: State, doc: Doc) {
    doc.user in s.cutoffs && s.cutoffs[doc.user] >= doc.createdAt
  }

  lemma {:induction false} ImportAllKeepsRows(s: State, page: seq<Key>, key: Key)
    requires forall k :: k in page ==> k in s.legacy
    ensures var s' := ImportAll(s, page);
            && s' == s.(records := s'.records)
            && (key in s.records ==> key in s'.records && s'.records[key] == s.records[key])
            && (key in s'.records && key !in s.records ==>
                 (key in page && Marker(key) !in s.records && s'.records[key].doc == Some(s.legacy[key])))
    decreases page
  {
    if page != [] {
      ImportAllKeepsRows(Import(s, page[0]), page[1..], key);
      ImportAllKeepsMarkers(s, page[0], key);
    }
  }

  lemma ImportAllKeepsMarkers(s: State, first: Key, key: Key)
    requires first in s.legacy
    ensures Marker(key) in s.records ==> Marker(key) in Import(s, first).records
  {
  }

  /** What no step undoes about a credential: its document, its cut-off, and its row's
      revocation or a token's absence as long as the row is not cleaned up. */
  predicate StaysDead(s: State, s': State, key: Key, doc: Doc) {
    && DocOf(s', key, doc)
    && (key in s.records && s.records[key].revoked && key in s'.records ==> s'.records[key].revoked)
    && (key in s.issued && key !in s.records ==> key in s'.issued && key !in s'.records)
    && (key in s.records && key !in s'.records ==> doc.expiresAt <= s.clock)
  }

  lemma RowsCarryDocuments(s: State, key: Key)
    requires RowsValid(s) && IsCredential(key) && key in s.records
    ensures CredentialRow(s, key)
  {
    assert RowValid(s, key);
  }

  lemma RowsStayDead(s: State, step: Step, key: Key, doc: Doc)
    requires Inv(s) && Enabled(s, step) && IsCredential(key) && DocOf(s, key, doc)
    ensures StaysDead(s, Apply(s, step), key, doc)
  {
    hide RowsValid, MarkersLast, MintsValid, ConsumedMinted, Unclaimed, RevokeAll, Logout, PollCommit, Approve, ImportAll;
    if key in s.records {
      RowsCarryDocuments(s, key);
    }
    match step
    case DoImport(page) => ImportAllKeepsRows(s, page, key);
    case DoPollCommit(hash, user, token, at) => PollCommitStaysDead(s, hash, user, token, at, key, doc);
    case DoApprove(hash, user, at) => ApproveStaysDead(s, hash, user, at, key, doc);
    case DoLogout(other, _) => LogoutStaysDead(s, other, step.doc, key, doc);
    case DoRevokeById(user, other) => RevokeStaysDead(s, other, key, doc);
    case DoRevokeAll(user, at) => RevokeAllStaysDead(s, user, at, key, doc);
    case _ =>
  }

  lemma ApproveStaysDead(s: State, hash: string, user: Id, at: int, key: Key, doc: Doc)
    requires IsCredential(key) && DocOf(s, key, doc)
    ensures StaysDead(s, Approve(s, hash, user, at), key, doc)
  {
    hide Approvable;
  }

  lemma RevokeStaysDead(s: State, other: Key, key: Key, doc: Doc)
    requires IsCredential(key) && DocOf(s, key, doc)
    ensures StaysDead(s, Revoke(s, other), key, doc) && StaysDead(s, s, key, doc)
  {
  }

  lemma LogoutStaysDead(s: State, other: Key, otherDoc: Doc, key: Key, doc: Doc)
    requires IsCredential(key) && DocOf(s, key, doc)
    ensures StaysDead(s, Logout(s, other, otherDoc), key, doc)
  {
    RevokeStaysDead(s, other, key, doc);
    assert key != Marker(other);
    hide Revoke;
  }

  lemma RevokeAllStaysDead(s: State, user: Id, at: int, key: Key, doc: Doc)
    requires IsCredential(key) && DocOf(s, key, doc)
    ensures StaysDead(s, RevokeAll(s, user, at), key, doc)
  {
  }

  lemma PollCommitStaysDead(s: State, hash: string, user: Id, token: string, at: int, key: Key, doc: Doc)
    requires IsCredential(key) && DocOf(s, key, doc) && Fresh(s, Key(CliToken, token))
    ensures StaysDead(s, PollCommit(s, hash, user, token, at), key, doc)
  {
    hide Consumable;
  }

  lemma MarkersStay(s: State, step: Step, key: Key, doc: Doc)
    requires Inv(s) && Enabled(s, step) && IsCredential(key) && DocOf(s, key, doc) && Marker(key) in s.records
    ensures Marker(key) in Apply(s, step).records || doc.expiresAt <= s.clock || key !in s.legacy
  {
    hide RowsValid, RowValid, MintsValid, ConsumedMinted, Consumable, Approvable, Unclaimed;
    match step
    case DoImport(page) => ImportAllKeepsRows(s, page, Marker(key));
    case DoCleanup(keys) =>
    case _ => hide MarkersLast;
  }

  /** Nothing revives a dead credential: not a late migration batch, not a retry, not the
      cleanup of its row or marker, not time. */
  lemma DeadStaysDead(s: State, step: Step, key: Key, doc: Doc)
    requires Inv(s) && Enabled(s, step) && IsCredential(key) && DocOf(s, key, doc) && Dead(s, key, doc)
    ensures var s' := Apply(s, step); DocOf(s', key, doc) && Dead(s', key, doc)
  {
    RowsStayDead(s, step, key, doc);
    ClockGrows(s, step);
    if Marker(key) in s.records {
      MarkersStay(s, step, key, doc);
    }
    hide Inv, Enabled, Apply, DocOf;
  }

  lemma {:induction false} DeadForever(states: seq<State>, steps: seq<Step>, i: nat, j: nat, key: Key, doc: Doc)
    requires IsRun(states, steps) && Inv(states[0]) && i <= j < |states|
    requires IsCredential(key) && DocOf(states[i], key, doc) && Dead(states[i], key, doc)
    ensures DocOf(states[j], key, doc) && Dead(states[j], key, doc) && states[j].clock >= states[i].clock
    decreases j - i
  {
    if i < j {
      RunsKeepInv(states, steps, i);
      DeadStaysDead(states[i], steps[i], key, doc);
      assert states[i + 1] == Apply(states[i], steps[i]);
      ClockGrows(states[i], steps[i]);
      DeadForever(states, steps, i + 1, j, key, doc);
    }
  }

  lemma ClockGrows(s: State, step: Step)
    requires Enabled(s, step)
    ensures Apply(s, step).clock >= s.clock && Apply(s, step).legacy == s.legacy
    ensures forall user :: user in s.cutoffs ==> user in Apply(s, step).cutoffs && Apply(s, step).cutoffs[user] >= s.cutoffs[user]
  {
    hide Approvable, Consumable, Fresh, Unclaimed, DocOf;
    if step.DoImport? {
      ImportAllKeepsRows(s, step.page, Key(Session, ""));
    }
  }

  lemma {:induction false} RevokedForGoodStays(states: seq<State>, steps: seq<Step>, i: nat, j: nat, key: Key, doc: Doc)
    requires IsRun(states, steps) && Inv(states[0]) && i <= j < |states|
    requires IsCredential(key) && DocOf(states[i], key, doc) && RevokedForGood(states[i], key, doc)
    ensures DocOf(states[j], key, doc) && RevokedForGood(states[j], key, doc)
    decreases j - i
  {
    if i < j {
      RunsKeepInv(states, steps, i);
      RowsStayDead(states[i], steps[i], key, doc);
      ClockGrows(states[i], steps[i]);
      assert states[i + 1] == Apply(states[i], steps[i]);
      hide Inv, Apply, Enabled;
      RevokedForGoodStays(states, steps, i + 1, j, key, doc);
    }
  }

  /** The main theorem, for reads that begin with any time and whose four lookups interleave
      with any other work, whatever the old store still returns: a revoked credential is
      never accepted when it was cut off with its account or is not from the old store.
      Otherwise it is accepted only if its expiry lies between the reader's time and the
      last lookup. */
  lemma RevokedIsNeverAccepted(states: seq<State>, steps: seq<Step>, revoked: nat, atRow: nat, atWindow: nat, atCheck: nat,
                               key: Key, doc: Doc, now: int, found: bool)
    requires IsRun(states, steps) && Inv(states[0])
    requires revoked <= atRow <= atWindow <= atCheck < |states|
    requires IsCredential(key) && DocOf(states[revoked], key, doc) && Revoked(states[revoked], key, doc)
    ensures var accepted := Read(key, now, states[atRow], states[atWindow], found, states[atCheck]);
            && (RevokedForGood(states[revoked], key, doc) ==> accepted == None)
            && (accepted == None || (accepted == Some(doc) && now < doc.expiresAt <= states[atCheck].clock))
  {
    RunsKeepInv(states, steps, atRow);
    DeadForever(states, steps, revoked, atRow, key, doc);
    DeadForever(states, steps, revoked, atCheck, key, doc);
    DeadForever(states, steps, atRow, atCheck, key, doc);
    if CutOff(states[atRow], doc) {
      CutOffStays(states, steps, atRow, atCheck, doc);
    }
    if key in states[atRow].legacy && Marker(key) in states[atRow].records {
      MarkerStays(states, steps, atRow, atCheck, key);
    }
    DeadIsRejected(states[atRow], states[atWindow], states[atCheck], key, doc, now, found);
    if RevokedForGood(states[revoked], key, doc) {
      RevokedForGoodStays(states, steps, revoked, atRow, key, doc);
    }
  }

  /** Between the two positions a cleanup took the row, and the document had expired. */
  ghost predicate CleanedUp(states: seq<State>, steps: seq<Step>, i: nat, j: nat, row: Key, doc: Doc)
    requires |states| == |steps| + 1 && j < |states|
  {
    exists k :: i <= k < j && steps[k].DoCleanup? && row in steps[k].keys && doc.expiresAt <= states[k].clock
  }

  /** Only a cleanup takes a row away. */
  lemma RowsGoByCleanup(s: State, step: Step, row: Key)
    requires Enabled(s, step) && row in s.records && row !in Apply(s, step).records
    ensures step.DoCleanup? && row in step.keys
  {
    match step
    case DoImport(page) => ImportAllKeepsRows(s, page, row);
    case _ => hide Approvable, Consumable, Fresh, Unclaimed;
  }

  /** The row revokes the credential: it is the marker, or the revoked row itself. */
  predicate Stands(s: State, row: Key, key: Key) {
    row in s.records && (row == Marker(key) || (row == key && s.records[key].revoked))
  }

  lemma StandsUntilCleaned(s: State, step: Step, row: Key, key: Key, doc: Doc)
    requires Inv(s) && Enabled(s, step) && IsCredential(key) && DocOf(s, key, doc) && key in s.legacy && Stands(s, row, key)
    ensures Stands(Apply(s, step), row, key) || (step.DoCleanup? && row in step.keys && doc.expiresAt <= s.clock)
  {
    RowsStayDead(s, step, key, doc);
    if row !in Apply(s, step).records {
      RowsGoByCleanup(s, step, row);
      assert row == key ==> RowValid(s, key);
    }
    hide RowsValid, MintsValid, ConsumedMinted, LegacyKeys, Apply;
  }

  lemma {:induction false} StoodUntilCleaned(states: seq<State>, steps: seq<Step>, i: nat, j: nat, row: Key, key: Key, doc: Doc)
    requires IsRun(states, steps) && Inv(states[0]) && i <= j < |states|
    requires IsCredential(key) && DocOf(states[i], key, doc) && key in states[i].legacy && Stands(states[i], row, key)
    ensures Stands(states[j], row, key) || CleanedUp(states, steps, i, j, row, doc)
    decreases j - i
  {
    if i < j {
      RunsKeepInv(states, steps, i);
      RowsStayDead(states[i], steps[i], key, doc);
      ClockGrows(states[i], steps[i]);
      StandsUntilCleaned(states[i], steps[i], row, key, doc);
      assert states[i + 1] == Apply(states[i], steps[i]);
      hide Inv, Apply, Enabled, Stands, DocOf;
      if Stands(states[i + 1], row, key) {
        StoodUntilCleaned(states, steps, i + 1, j, row, key, doc);
      }
    }
  }

  /** What is left open, exactly: the reader's time is before the expiry, and both the
      revoked row and the marker, where they stood, have been cleaned up on the way. */
  lemma RevokedLegacyRead(states: seq<State>, steps: seq<Step>, revoked: nat, atRow: nat, atWindow: nat, atCheck: nat,
                          key: Key, doc: Doc, now: int, found: bool)
    requires IsRun(states, steps) && Inv(states[0])
    requires revoked <= atRow <= atWindow <= atCheck < |states|
    requires IsCredential(key) && DocOf(states[revoked], key, doc) && Revoked(states[revoked], key, doc)
    requires key in states[revoked].legacy && !CutOff(states[atCheck], doc)
    ensures Read(key, now, states[atRow], states[atWindow], found, states[atCheck]) == Some(doc) <==>
            && now < doc.expiresAt && Marker(key) !in states[atCheck].records
            && (if key in states[atRow].records then !states[atRow].records[key].revoked else states[atWindow].windowOpen && found)
    ensures Read(key, now, states[atRow], states[atWindow], found, states[atCheck]) == Some(doc) ==>
            && (Marker(key) in states[revoked].records ==> CleanedUp(states, steps, revoked, atCheck, Marker(key), doc))
            && (key in states[revoked].records && states[revoked].records[key].revoked ==>
                 CleanedUp(states, steps, revoked, atRow, key, doc))
  {
    RunsKeepInv(states, steps, atRow);
    DeadForever(states, steps, revoked, atRow, key, doc);
    LegacyStays(states, steps, revoked, atRow);
    if key in states[atRow].records {
      assert RowValid(states[atRow], key);
    }
    if Stands(states[revoked], Marker(key), key) {
      StoodUntilCleaned(states, steps, revoked, atCheck, Marker(key), key, doc);
    }
    if Stands(states[revoked], key, key) {
      StoodUntilCleaned(states, steps, revoked, atRow, key, key, doc);
    }
    hide Inv, DocOf;
  }

  /** A read that takes its time where it begins, after `s`, and returns the document. */
  ghost predicate AcceptedAfter(s: State, key: Key, doc: Doc, now: int) {
    exists states, steps, begun: nat, atRow: nat, atWindow: nat, atCheck: nat, found ::
      AcceptingRun(states, steps, begun, atRow, atWindow, atCheck, found, s, key, doc, now)
  }

  ghost predicate AcceptingRun(states: seq<State>, steps: seq<Step>, begun: nat, atRow: nat, atWindow: nat, atCheck: nat,
                               found: bool, s: State, key: Key, doc: Doc, now: int) {
    && IsRun(states, steps) && states[0] == s
    && begun <= atRow <= atWindow <= atCheck < |states| && states[begun].clock == now
    && Read(key, now, states[atRow], states[atWindow], found, states[atCheck]) == Some(doc)
  }

  /** Which revocations hold against every later read: all but those of an old document
      that was not cut off, against readers that begin before it expires. */
  lemma AcceptanceAfterRevocation(s: State, key: Key, doc: Doc, now: int)
    requires Inv(s) && IsCredential(key) && DocOf(s, key, doc) && Revoked(s, key, doc)
    ensures AcceptedAfter(s, key, doc, now) <==> !RevokedForGood(s, key, doc) && s.clock <= now < doc.expiresAt
  {
    forall states: seq<State>, steps: seq<Step>, begun: nat, atRow: nat, atWindow: nat, atCheck: nat, found: bool
      | AcceptingRun(states, steps, begun, atRow, atWindow, atCheck, found, s, key, doc, now)
      ensures !RevokedForGood(s, key, doc) && s.clock <= now < doc.expiresAt
    {
      RevokedIsNeverAccepted(states, steps, 0, atRow, atWindow, atCheck, key, doc, now, found);
      DeadForever(states, steps, 0, begun, key, doc);
    }
    if !RevokedForGood(s, key, doc) && s.clock <= now < doc.expiresAt {
      var states, steps := LateReader(s, key, doc, now);
      assert AcceptingRun(states, steps, 1, 4, 4, 4, true, s, key, doc, now);
    }
  }

  lemma RevokedLegacyExpires(s: State, key: Key, doc: Doc)
    requires Inv(s) && IsCredential(key) && DocOf(s, key, doc) && Revoked(s, key, doc) && !RevokedForGood(s, key, doc)
    ensures key in s.legacy && s.legacy[key] == doc && (key in s.records ==> s.records[key].expiresAt == doc.expiresAt)
  {
    if key in s.records {
      assert RowValid(s, key);
    }
    hide Inv;
  }

  lemma FourSteps(states: seq<State>, steps: seq<Step>)
    requires |states| == 5 && |steps| == 4
    requires Enabled(states[0], steps[0]) && states[1] == Apply(states[0], steps[0])
    requires Enabled(states[1], steps[1]) && states[2] == Apply(states[1], steps[1])
    requires Enabled(states[2], steps[2]) && states[3] == Apply(states[2], steps[2])
    requires Enabled(states[3], steps[3]) && states[4] == Apply(states[3], steps[3])
    ensures IsRun(states, steps)
  {
    hide Enabled, Apply;
  }

  function Leftovers(s: State, key: Key): set<Key> {
    set k | k in {key, Marker(key)} && k in s.records
  }

  lemma LateImport(s: State, key: Key, doc: Doc)
    requires IsCredential(key) && key in s.legacy && s.legacy[key] == doc
    ensures Cleanup(s, Leftovers(s, key)).legacy == s.legacy
    ensures var end := Import(Cleanup(s, Leftovers(s, key)), key);
            && key in end.records && end.records[key] == Record(Some(doc.user), doc.expiresAt, None, false, Some(doc))
            && Marker(key) !in end.records && end.cutoffs == s.cutoffs
  {
  }

  lemma TickRuns(s: State, now: int)
    requires s.clock <= now
    ensures Enabled(s, Tick(now)) && Apply(s, Tick(now)) == s.(clock := now)
  {
  }

  lemma CleanupRuns(s: State, keys: set<Key>)
    requires forall k :: k in keys ==> k in s.records && s.records[k].expiresAt <= s.clock
    ensures Enabled(s, DoCleanup(keys)) && Apply(s, DoCleanup(keys)) == Cleanup(s, keys)
  {
  }

  lemma ImportRuns(s: State, key: Key)
    requires key in s.legacy
    ensures Enabled(s, DoImport([key])) && Apply(s, DoImport([key])) == Import(s, key)
  {
    assert ImportAll(s, [key]) == ImportAll(Import(s, key), []);
  }

  /** The reader begins, the credential expires, its revoked row and its marker are cleaned
      up, and a migration page read long ago is written. */
  lemma LateReader(s: State, key: Key, doc: Doc, now: int) returns (states: seq<State>, steps: seq<Step>)
    requires Inv(s) && IsCredential(key) && DocOf(s, key, doc) && Revoked(s, key, doc)
    requires !RevokedForGood(s, key, doc) && s.clock <= now < doc.expiresAt
    ensures IsRun(states, steps) && |states| == 5 && states[0] == s && states[1].clock == now
    ensures var end := states[4];
            && key in end.records && end.records[key] == Record(Some(doc.user), doc.expiresAt, None, false, Some(doc))
            && Marker(key) !in end.records && end.cutoffs == s.cutoffs
  {
    hide Inv, Enabled, Apply, ImportAll, Revoked, CutOff, IsRun, Import, Cleanup, DocOf;
    RevokedLegacyExpires(s, key, doc);
    hide RevokedForGood;
    var marker := Marker(key);
    var late := if marker in s.records then Later(doc.expiresAt, s.records[marker].expiresAt) else doc.expiresAt;
    var leftovers := Leftovers(s, key);
    var s1, s2 := s.(clock := now), s.(clock := late);
    var s3 := Cleanup(s2, leftovers);
    TickRuns(s, now);
    TickRuns(s1, late);
    assert forall k :: k in leftovers ==> k in s2.records && s2.records[k].expiresAt <= s2.clock;
    CleanupRuns(s2, leftovers);
    LateImport(s2, key, doc);
    ImportRuns(s3, key);
    var s4 := Import(s3, key);
    steps := [Tick(now), Tick(late), DoCleanup(leftovers), DoImport([key])];
    states := [s, s1, s2, s3, s4];
    FourSteps(states, steps);
  }

  /** The exception is real: logout has left a marker for a legacy credential that is
      about to expire, and a slow reader still holds the time at which it began. */
  lemma SlowReadOutlivesTheMarker() returns (states: seq<State>, steps: seq<Step>)
    ensures IsRun(states, steps) && Inv(states[0]) && |states| == 3
    ensures var key, doc := Key(Session, "h"), Doc("u", 0, 10);
            && Revoked(states[0], key, doc) && DocOf(states[0], key, doc) && states[0].clock == 5
            && Read(key, 5, states[0], states[0], true, states[2]) == Some(doc)
  {
    var key, doc := Key(Session, "h"), Doc("u", 0, 10);
    var start := State(5, map[Marker(key) := Record(None, 10, None, false, None)], map[], true, {"u"},
                       map[key := doc], {}, map[], []);
    steps := [Tick(10), DoCleanup({Marker(key)})];
    var later := Apply(start, steps[0]);
    states := [start, later, Apply(later, steps[1])];
    assert RowValid(start, Marker(key));
  }

  lemma DeadIsRejected(atRow: State, atWindow: State, atCheck: State, key: Key, doc: Doc, now: int, found: bool)
    requires Inv(atRow) && IsCredential(key) && DocOf(atRow, key, doc) && Dead(atRow, key, doc) && atRow.clock <= atCheck.clock
    requires CutOff(atRow, doc) ==> CutOff(atCheck, doc)
    requires key in atRow.legacy && Marker(key) in atRow.records ==> Marker(key) in atCheck.records || doc.expiresAt <= atCheck.clock
    ensures var accepted := Read(key, now, atRow, atWindow, found, atCheck);
            accepted == None || (accepted == Some(doc) && now < doc.expiresAt <= atCheck.clock)
  {
    if key in atRow.records {
      assert RowValid(atRow, key);
    }
    hide MintsValid, ConsumedMinted, RowsValid;
  }

  lemma {:induction false} CutOffStays(states: seq<State>, steps: seq<Step>, i: nat, j: nat, doc: Doc)
    requires IsRun(states, steps) && i <= j < |states| && CutOff(states[i], doc)
    ensures CutOff(states[j], doc)
    decreases j - i
  {
    if i < j {
      ClockGrows(states[i], steps[i]);
      assert states[i + 1] == Apply(states[i], steps[i]);
      CutOffStays(states, steps, i + 1, j, doc);
    }
  }

  lemma {:induction false} LegacyStays(states: seq<State>, steps: seq<Step>, i: nat, j: nat)
    requires IsRun(states, steps) && i <= j < |states|
    ensures states[j].legacy == states[i].legacy && states[j].clock >= states[i].clock
    decreases j - i
  {
    if i < j {
      ClockGrows(states[i], steps[i]);
      assert states[i + 1] == Apply(states[i], steps[i]);
      LegacyStays(states, steps, i + 1, j);
    }
  }

  /** A marker goes only once the credential it guards against has expired. */
  lemma {:induction false} MarkerStays(states: seq<State>, steps: seq<Step>, i: nat, j: nat, key: Key)
    requires IsRun(states, steps) && Inv(states[0]) && i <= j < |states|
    requires key in states[i].legacy && (Marker(key) in states[i].records || states[i].legacy[key].expiresAt <= states[i].clock)
    ensures states[j].legacy == states[i].legacy
    ensures Marker(key) in states[j].records || states[i].legacy[key].expiresAt <= states[j].clock
    decreases j - i
  {
    if i < j {
      RunsKeepInv(states, steps, i);
      ClockGrows(states[i], steps[i]);
      assert states[i + 1] == Apply(states[i], steps[i]);
      if steps[i].DoImport? {
        ImportAllKeepsRows(states[i], steps[i].page, Marker(key));
      }
      MarkerStays(states, steps, i + 1, j, key);
    }
  }

  // ---------- The three ways to revoke ----------

  lemma LogoutKills(s: State, key: Key, doc: Doc)
    requires Inv(s) && Enabled(s, DoLogout(key, doc))
    ensures Revoked(Logout(s, key, doc), key, doc) && DocOf(Logout(s, key, doc), key, doc)
  {
  }

  lemma RevokeByIdKills(s: State, user: Id, key: Key)
    requires Inv(s) && key in s.records && s.records[key].user == Some(user) && IsCredential(key) && user in s.active
    ensures s.records[key].doc.Some? && Revoked(RevokeById(s, user, key), key, s.records[key].doc.value)
    ensures DocOf(RevokeById(s, user, key), key, s.records[key].doc.value)
  {
    assert RowValid(s, key);
  }

  /** Revoke-all reaches every credential of the account: rows, tokens already gone, and
      documents the migration has not visited, as long as they are not from the future. */
  lemma RevokeAllKills(s: State, user: Id, at: int, key: Key, doc: Doc)
    requires Inv(s) && Enabled(s, DoRevokeAll(user, at))
    requires IsCredential(key) && DocOf(s, key, doc) && doc.user == user
    requires key in s.legacy && key !in s.records ==> doc.createdAt <= at
    ensures Revoked(RevokeAll(s, user, at), key, doc) && DocOf(RevokeAll(s, user, at), key, doc)
  {
    if key in s.records {
      assert RowValid(s, key);
    }
  }

  // ---------- Migration keeps sessions ----------

  /** A legacy credential accepted before the migration batch is accepted after it, with the
      same document, even when the old store no longer has it. */
  lemma MigrationKeepsAccess(s: State, page: seq<Key>, key: Key, now: int, found: bool)
    requires Inv(s) && Enabled(s, DoImport(page)) && IsCredential(key)
    requires Read(key, now, s, s, true, s).Some? && (key in page || key in s.records || found)
    ensures var s' := ImportAll(s, page); Read(key, now, s', s', found, s') == Read(key, now, s, s, true, s)
  {
    var s' := ImportAll(s, page);
    ImportAllKeepsRows(s, page, key);
    ImportAllKeepsRows(s, page, Marker(key));
    if key in page && key !in s.records {
      ImportAllAdds(s, page, key);
    }
    assert Marker(key) !in page;
  }

  lemma {:induction false} ImportAllAdds(s: State, page: seq<Key>, key: Key)
    requires forall k :: k in page ==> k in s.legacy && IsCredential(k)
    requires key in page && Marker(key) !in s.records && key !in s.records
    ensures key in ImportAll(s, page).records
    ensures ImportAll(s, page).records[key] == Record(Some(s.legacy[key].user), s.legacy[key].expiresAt, None, false, Some(s.legacy[key]))
    decreases page
  {
    if page[0] == key {
      ImportAllKeepsRows(Import(s, key), page[1..], key);
    } else {
      ImportAllAdds(Import(s, page[0]), page[1..], key);
    }
  }

  // ---------- Device login ----------

  /** "complete" is exactly the poll whose token row was inserted, and exactly one claim. */
  lemma PollCompletesExactly(s: State, hash: string, user: Id, token: string, at: int)
    requires Inv(s) && Enabled(s, DoPollCommit(hash, user, token, at))
    ensures var s' := PollCommit(s, hash, user, token, at);
            && (Consumable(s, hash, user, at) <==> Claimed(Claim(s, hash, user, token, at), hash, token))
            && (Consumable(s, hash, user, at) <==> Key(CliToken, token) in s'.records)
            && (Consumable(s, hash, user, at) <==> s'.mints == s.mints + [Mint(hash, token, user)])
            && (!Consumable(s, hash, user, at) ==> s' == s)
  {
    NoRowWhenFresh(s, Key(CliToken, token));
    assert |s.mints + [Mint(hash, token, user)]| == |s.mints| + 1;
  }

  /** One request, at most one token, for the account that approved it first. */
  lemma MintsAreSingle(s: State, i: nat, j: nat)
    requires Inv(s) && i < |s.mints| && j < |s.mints| && s.mints[i].request == s.mints[j].request
    ensures i == j && s.mints[i].request in s.approvals && s.approvals[s.mints[i].request] == s.mints[i].user
  {
    assert MintValid(s, s.mints[i]);
  }

  predicate MintedFor(s: State, hash: string) {
    exists i :: 0 <= i < |s.mints| && s.mints[i].request == hash
  }

  /** The request can no longer be consumed. */
  predicate RequestClosed(s: State, hash: string) {
    var request := Key(CliRequest, hash);
    request in s.issued && (request in s.records ==> s.records[request].revoked)
  }

  /** A request revoked (or expired and removed) before it was consumed never mints. */
  lemma ClosedRequestNeverMints(s: State, step: Step, hash: string)
    requires Inv(s) && Enabled(s, step) && RequestClosed(s, hash)
    ensures RequestClosed(Apply(s, step), hash)
    ensures MintedFor(Apply(s, step), hash) <==> MintedFor(s, hash)
  {
    RequestStaysClosed(s, step, hash);
    if step.DoPollCommit? {
      OtherRequestMints(s, step.hash, step.user, step.token, step.at, hash);
    } else {
      if step.DoImport? {
        ImportAllKeepsRows(s, step.page, Key(CliRequest, hash));
      }
      hide Inv, RequestClosed, Fresh, Unclaimed, Approvable;
    }
  }

  lemma RequestStaysClosed(s: State, step: Step, hash: string)
    requires Inv(s) && Enabled(s, step) && RequestClosed(s, hash)
    ensures RequestClosed(Apply(s, step), hash)
  {
    hide RowsValid, RowValid, MintsValid, ConsumedMinted, MarkersLast, Unclaimed;
    match step
    case DoImport(page) => ImportAllKeepsRows(s, page, Key(CliRequest, hash));
    case _ =>
  }

  lemma OtherRequestMints(s: State, other: string, user: Id, token: string, at: int, hash: string)
    requires Inv(s) && Enabled(s, DoPollCommit(other, user, token, at)) && RequestClosed(s, hash)
    ensures MintedFor(PollCommit(s, other, user, token, at), hash) <==> MintedFor(s, hash)
  {
    var s' := PollCommit(s, other, user, token, at);
    PollCompletesExactly(s, other, user, token, at);
    if Consumable(s, other, user, at) {
      assert other != hash;
      hide Inv, PollCommit;
      forall i | 0 <= i < |s'.mints| && s'.mints[i].request == hash ensures MintedFor(s, hash) {
        assert s'.mints[i] == s.mints[i];
      }
      forall i | 0 <= i < |s.mints| && s.mints[i].request == hash ensures MintedFor(s', hash) {
        assert s'.mints[i] == s.mints[i];
      }
    }
  }

  lemma {:induction false} ClosedRequestsStayClosed(states: seq<State>, steps: seq<Step>, i: nat, j: nat, hash: string)
    requires IsRun(states, steps) && Inv(states[0]) && i <= j < |states| && RequestClosed(states[i], hash)
    ensures MintedFor(states[j], hash) <==> MintedFor(states[i], hash)
    decreases j - i
  {
    if i < j {
      RunsKeepInv(states, steps, i);
      ClosedRequestNeverMints(states[i], steps[i], hash);
      assert states[i + 1] == Apply(states[i], steps[i]);
      ClosedRequestsStayClosed(states, steps, i + 1, j, hash);
    }
  }

  /** Revoke-all closes every pending request its account has approved. */
  lemma RevokeAllClosesRequests(s: State, user: Id, at: int, hash: string)
    requires Inv(s) && Key(CliRequest, hash) in s.records && s.records[Key(CliRequest, hash)].user == Some(user)
    ensures RequestClosed(RevokeAll(s, user, at), hash)
  {
    assert RowValid(s, Key(CliRequest, hash));
  }
}
