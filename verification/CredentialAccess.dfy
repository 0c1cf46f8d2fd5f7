/** The other side of revocation: what has been issued is accepted until it expires or until
    a step that names it, and device login issues a token exactly when it should. */
module CredentialAccess {
  import opened Outcomes
  import opened Credentials
  import opened CredentialSafety

  // ---------- What revokes a credential ----------

  /** The steps that take this credential back: its logout, its revocation by its account,
      and the revocation of everything the account has. */
  predicate Revokes(s: State, step: Step, key: Key, user: Id) {
    || (step.DoLogout? && step.key == key)
    || (step.DoRevokeById? && step.key == key && step.user == user && user in s.active)
    || (step.DoRevokeAll? && step.user == user)
  }

  /** No other credential of the old store shares this hash. */
  predicate HashIsOwn(s: State, key: Key) {
    forall k :: k in s.legacy && k.hash == key.hash ==> k == key
  }

  predicate CutOffFrom(s: State, user: Id, createdAt: int) {
    user in s.cutoffs && s.cutoffs[user] >= createdAt
  }

  /** One step on the row of a credential: it is revoked exactly by those steps, goes only
      after its expiry, and changes in no other way. */
  lemma RowChangesExactly(s: State, step: Step, key: Key)
    requires Inv(s) && Enabled(s, step) && IsCredential(key) && key in s.records && s.records[key].user.Some?
    ensures var row, after := s.records[key], Apply(s, step).records;
            && (key !in after ==> row.expiresAt <= s.clock)
            && (key in after ==> after[key] == row.(revoked := row.revoked || Revokes(s, step, key, row.user.value)))
  {
    hide RowsValid, MarkersLast, MintsValid, ConsumedMinted, Unclaimed, Approvable, Consumable, CreateSession, StartRequest, Approve,
         PollCommit, Logout, RevokeAll, ImportAll;
    RowsCarryDocuments(s, key);
    match step
    case DoImport(page) => ImportAllKeepsRows(s, page, key);
    case DoCreateSession(hash, user, at) => NewSessionIsOther(s, hash, user, at, key);
    case DoStartRequest(hash, at) => NewRequestIsOther(s, hash, at, key);
    case DoApprove(hash, user, at) => ApprovalIsOther(s, hash, user, at, key);
    case DoPollCommit(hash, user, token, at) => NewTokenIsOther(s, hash, user, token, at, key);
    case DoLogout(other, doc) => LogoutRevokesOne(s, other, doc, key);
    case DoRevokeAll(user, at) => RevokeAllRevokesItsOwn(s, user, at, key);
    case _ =>
  }

  lemma NewSessionIsOther(s: State, hash: string, user: Id, at: int, key: Key)
    requires key in s.records && CredentialRow(s, key) && Fresh(s, Key(Session, hash))
    ensures key in CreateSession(s, hash, user, at).records && CreateSession(s, hash, user, at).records[key] == s.records[key]
  {
  }

  lemma NewRequestIsOther(s: State, hash: string, at: int, key: Key)
    requires key in s.records && CredentialRow(s, key) && Fresh(s, Key(CliRequest, hash))
    ensures key in StartRequest(s, hash, at).records && StartRequest(s, hash, at).records[key] == s.records[key]
  {
  }

  lemma ApprovalIsOther(s: State, hash: string, user: Id, at: int, key: Key)
    requires key in s.records && IsCredential(key)
    ensures key in Approve(s, hash, user, at).records && Approve(s, hash, user, at).records[key] == s.records[key]
  {
    hide Approvable;
  }

  lemma NewTokenIsOther(s: State, hash: string, user: Id, token: string, at: int, key: Key)
    requires key in s.records && IsCredential(key) && CredentialRow(s, key) && Fresh(s, Key(CliToken, token))
    ensures key in PollCommit(s, hash, user, token, at).records && PollCommit(s, hash, user, token, at).records[key] == s.records[key]
  {
    hide Consumable;
  }

  lemma LogoutRevokesOne(s: State, other: Key, doc: Doc, key: Key)
    requires key in s.records && IsCredential(key)
    ensures key in Logout(s, other, doc).records
    ensures Logout(s, other, doc).records[key] == s.records[key].(revoked := s.records[key].revoked || other == key)
  {
    assert key != Marker(other);
  }

  lemma RevokeAllRevokesItsOwn(s: State, user: Id, at: int, key: Key)
    requires key in s.records
    ensures key in RevokeAll(s, user, at).records
    ensures RevokeAll(s, user, at).records[key] == s.records[key].(revoked := s.records[key].revoked || s.records[key].user == Some(user))
  {
  }

  /** Which step can insert which row. */
  predicate Inserts(s: State, step: Step, row: Key) {
    || (step.DoCreateSession? && row == Key(Session, step.hash))
    || (step.DoStartRequest? && row == Key(CliRequest, step.hash))
    || (step.DoPollCommit? && row == Key(CliToken, step.token))
    || (step.DoLogout? && row == Marker(step.key) && step.key in s.legacy)
    || (step.DoImport? && row in step.page)
  }

  lemma RowsAreInserted(s: State, step: Step, row: Key)
    requires Enabled(s, step) && row !in s.records && row in Apply(s, step).records
    ensures Inserts(s, step, row)
  {
    if step.DoImport? {
      ImportAllKeepsRows(s, step.page, row);
    } else if step.DoApprove? || step.DoPollCommit? {
      hide Unclaimed, Approvable, Consumable, Fresh, ImportAll, Logout, RevokeAll;
    } else {
      hide Approve, PollCommit, ImportAll, Unclaimed;
    }
  }

  /** A marker for a hash appears only with the logout of the old credential of that hash. */
  lemma MarkersAppearByLogout(s: State, step: Step, key: Key)
    requires Enabled(s, step) && HashIsOwn(s, key) && Marker(key) !in s.records && Marker(key) in Apply(s, step).records
    requires LegacyKeys(s)
    ensures step.DoLogout? && step.key == key && key in s.legacy
  {
    hide Apply;
    RowsAreInserted(s, step, Marker(key));
    hide Unclaimed, Fresh;
  }

  /** Cut-offs move only when the account revokes everything. */
  lemma CutOffsMoveByRevokeAll(s: State, step: Step, user: Id)
    requires Enabled(s, step) && !(step.DoRevokeAll? && step.user == user)
    ensures user in Apply(s, step).cutoffs <==> user in s.cutoffs
    ensures user in s.cutoffs ==> Apply(s, step).cutoffs[user] == s.cutoffs[user]
    ensures Apply(s, step).legacy == s.legacy
    ensures s.windowOpen && !step.CloseWindow? ==> Apply(s, step).windowOpen
  {
    hide Unclaimed, Fresh, Approvable, Consumable, DocOf;
    if step.DoImport? {
      ImportAllKeepsRows(s, step.page, Key(Session, ""));
    }
  }

  /** Access ends only by revocation, expiry or the end of the transition: a credential that
      reads back, migrated or not, still does after any step that does not name it. */
  lemma AccessStays(s: State, step: Step, key: Key, doc: Doc, now: int, found: bool)
    requires Inv(s) && Enabled(s, step) && IsCredential(key) && HashIsOwn(s, key)
    requires Read(key, now, s, s, found, s) == Some(doc) && s.clock < doc.expiresAt
    requires !Revokes(s, step, key, doc.user) && (step.CloseWindow? ==> key in s.records)
    ensures var s' := Apply(s, step); Read(key, now, s', s', found, s') == Some(doc)
  {
    hide Apply, Enabled, RowsValid, MarkersLast, MintsValid, ConsumedMinted, Revokes;
    CutOffsMoveByRevokeAll'(s, step, key, doc.user);
    if Marker(key) in Apply(s, step).records {
      MarkersAppearByLogout(s, step, key);
      LogoutRevokes(s, step, key, doc.user);
    }
    if key in s.records {
      RowsCarryDocuments(s, key);
      RowChangesExactly(s, step, key);
    } else if key in Apply(s, step).records {
      RowsAppearAsIssued(s, step, key);
    }
  }

  lemma LogoutRevokes(s: State, step: Step, key: Key, user: Id)
    requires step.DoLogout? && step.key == key
    ensures Revokes(s, step, key, user)
  {
  }

  lemma CutOffsMoveByRevokeAll'(s: State, step: Step, key: Key, user: Id)
    requires Enabled(s, step) && !Revokes(s, step, key, user)
    ensures user in Apply(s, step).cutoffs <==> user in s.cutoffs
    ensures user in s.cutoffs ==> Apply(s, step).cutoffs[user] == s.cutoffs[user]
    ensures Apply(s, step).legacy == s.legacy
    ensures s.windowOpen && !step.CloseWindow? ==> Apply(s, step).windowOpen
  {
    CutOffsMoveByRevokeAll(s, step, user);
  }

  /** An old credential gets a row only by migration, with its own document. */
  lemma RowsAppearAsIssued(s: State, step: Step, key: Key)
    requires Inv(s) && Enabled(s, step) && key in s.legacy && IsCredential(key)
    requires key !in s.records && key in Apply(s, step).records
    ensures var row := Apply(s, step).records[key];
            row.doc == Some(s.legacy[key]) && row.expiresAt == s.legacy[key].expiresAt && !row.revoked
  {
    hide Apply, RowsValid, MarkersLast, MintsValid, ConsumedMinted, Unclaimed;
    RowsAreInserted(s, step, key);
    assert step.DoImport?;
    ImportedRow(s, step, key);
  }

  lemma ImportedRow(s: State, step: Step, key: Key)
    requires LegacyKeys(s) && Enabled(s, step) && step.DoImport? && key in step.page
    requires key !in s.records && key in Apply(s, step).records
    ensures var row := Apply(s, step).records[key];
            row.doc == Some(s.legacy[key]) && row.expiresAt == s.legacy[key].expiresAt && !row.revoked
  {
    ImportAllKeepsRows(s, step.page, key);
    ImportAllAdds(s, step.page, key);
  }

  /** Revoke-all cuts off what was created up to its time, and no later sign-in. */
  lemma RevokeAllCutsOffExactly(s: State, user: Id, at: int, createdAt: int)
    ensures CutOffFrom(RevokeAll(s, user, at), user, createdAt) <==> CutOffFrom(s, user, createdAt) || createdAt <= at
  {
  }

  /** Logout marks an old credential, and only an old one, for exactly as long as it would
      have lasted; a marker that stands already stays. */
  lemma LogoutMarksOldCredentials(s: State, key: Key, doc: Doc)
    requires Inv(s) && Enabled(s, DoLogout(key, doc))
    ensures var marker, after := Marker(key), Logout(s, key, doc).records;
            && (marker in after <==> marker in s.records || key in s.legacy)
            && (marker in s.records ==> after[marker] == s.records[marker])
            && (marker in after && marker !in s.records ==> after[marker] == Record(None, doc.expiresAt, None, false, None))
  {
  }

  /** The transition ends once and for all. */
  lemma WindowOnlyCloses(s: State, step: Step)
    requires Enabled(s, step)
    ensures Apply(s, step).windowOpen <==> s.windowOpen && !step.CloseWindow?
  {
    hide Unclaimed, Fresh, Approvable, Consumable, DocOf;
    if step.DoImport? {
      ImportAllKeepsRows(s, step.page, Key(Session, ""));
    }
  }

  /** An old credential without a row is accepted exactly during the transition, while the
      old store has it unexpired, unless it was logged out or cut off. */
  lemma OldCredentialRead(s: State, key: Key, now: int, found: bool)
    requires key in s.legacy && key !in s.records
    ensures var doc := s.legacy[key];
            Read(key, now, s, s, found, s) ==
            if s.windowOpen && found && now < doc.expiresAt && Marker(key) !in s.records && !CutOffFrom(s, doc.user, doc.createdAt)
            then Some(doc) else None
  {
  }

  // ---------- Issued credentials over runs ----------

  ghost predicate RevokedBetween(states: seq<State>, steps: seq<Step>, i: nat, j: nat, key: Key, user: Id)
    requires |states| == |steps| + 1
  {
    exists k :: i <= k < j && k < |steps| && Revokes(states[k], steps[k], key, user)
  }

  /** The row of an issued credential, as long as it has not expired. */
  lemma {:induction false} RowOverRun(states: seq<State>, steps: seq<Step>, i: nat, j: nat, key: Key, doc: Doc)
    requires IsRun(states, steps) && Inv(states[0]) && i <= j < |states| && IsCredential(key)
    requires key in states[i].records && states[i].records[key] == Record(Some(doc.user), doc.expiresAt, None, false, Some(doc))
    requires states[j].clock < doc.expiresAt
    ensures key in states[j].records
    ensures states[j].records[key] ==
            Record(Some(doc.user), doc.expiresAt, None, RevokedBetween(states, steps, i, j, key, doc.user), Some(doc))
    decreases j
  {
    hide Inv, Apply, Enabled, Revokes;
    if i < j {
      assert states[j] == Apply(states[j - 1], steps[j - 1]) && Enabled(states[j - 1], steps[j - 1]);
      ClockGrows(states[j - 1], steps[j - 1]);
      RowOverRun(states, steps, i, j - 1, key, doc);
      RunsKeepInv(states, steps, j - 1);
      RowChangesExactly(states[j - 1], steps[j - 1], key);
    }
  }

  lemma {:induction false} NoMarkerOverRun(states: seq<State>, steps: seq<Step>, i: nat, j: nat, key: Key)
    requires IsRun(states, steps) && Inv(states[0]) && i <= j < |states|
    requires Marker(key) !in states[i].records && key !in states[i].legacy && HashIsOwn(states[i], key)
    ensures Marker(key) !in states[j].records && states[j].legacy == states[i].legacy
    decreases j
  {
    hide Inv, Apply, Enabled, HashIsOwn;
    if i < j {
      NoMarkerOverRun(states, steps, i, j - 1, key);
      assert states[j] == Apply(states[j - 1], steps[j - 1]) && Enabled(states[j - 1], steps[j - 1]);
      RunsKeepInv(states, steps, j - 1);
      SameLegacySameOwner(states[i], states[j - 1], key);
      NoMarkerStep(states[j - 1], steps[j - 1], key);
    }
  }

  lemma SameLegacySameOwner(s: State, s': State, key: Key)
    requires HashIsOwn(s, key) && s'.legacy == s.legacy
    ensures HashIsOwn(s', key)
  {
  }

  lemma NoMarkerStep(s: State, step: Step, key: Key)
    requires Inv(s) && Enabled(s, step) && Marker(key) !in s.records && key !in s.legacy && HashIsOwn(s, key)
    ensures Marker(key) !in Apply(s, step).records && Apply(s, step).legacy == s.legacy
  {
    hide Apply, Enabled, HashIsOwn, RowsValid, MarkersLast, MintsValid, ConsumedMinted;
    ClockGrows(s, step);
    if Marker(key) in Apply(s, step).records {
      MarkersAppearByLogout(s, step, key);
    }
  }

  /** A credential just issued, of a hash that the old store does not know. */
  predicate JustIssued(s: State, key: Key, doc: Doc) {
    && IsCredential(key) && key !in s.legacy && HashIsOwn(s, key) && Marker(key) !in s.records
    && key in s.records && s.records[key] == Record(Some(doc.user), doc.expiresAt, None, false, Some(doc))
  }

  /** The main theorem: before its expiry, an issued credential is accepted exactly if no step
      between its issue and the row lookup revoked it and its account is not cut off since. */
  lemma AcceptedUntilRevoked(states: seq<State>, steps: seq<Step>, i: nat, atRow: nat, atWindow: nat, atCheck: nat,
                             key: Key, doc: Doc, now: int, found: bool)
    requires IsRun(states, steps) && Inv(states[0]) && i <= atRow <= atWindow <= atCheck < |states|
    requires JustIssued(states[i], key, doc) && states[atRow].clock < doc.expiresAt
    ensures Read(key, now, states[atRow], states[atWindow], found, states[atCheck]) ==
            if now < doc.expiresAt && !RevokedBetween(states, steps, i, atRow, key, doc.user)
               && !CutOffFrom(states[atCheck], doc.user, doc.createdAt)
            then Some(doc) else None
  {
    RowOverRun(states, steps, i, atRow, key, doc);
    NoMarkerOverRun(states, steps, i, atCheck, key);
    hide RevokedBetween, IsRun, Inv, HashIsOwn;
  }

  lemma SessionIsIssued(s: State, hash: string, user: Id, at: int)
    requires Inv(s) && Enabled(s, DoCreateSession(hash, user, at)) && user in s.active
    requires HashIsOwn(s, Key(Session, hash)) && Marker(Key(Session, hash)) !in s.records
    ensures JustIssued(CreateSession(s, hash, user, at), Key(Session, hash), Doc(user, at, at + 2_592_000_000))
  {
    hide Inv;
  }

  /** A session lasts thirty days, unless it is revoked. */
  lemma SessionsLast(states: seq<State>, steps: seq<Step>, i: nat, atRow: nat, atWindow: nat, atCheck: nat, now: int, found: bool)
    requires IsRun(states, steps) && Inv(states[0]) && i < atRow <= atWindow <= atCheck < |states|
    requires steps[i].DoCreateSession? && steps[i].user in states[i].active
    requires HashIsOwn(states[i], Key(Session, steps[i].hash)) && Marker(Key(Session, steps[i].hash)) !in states[i].records
    requires states[atRow].clock < steps[i].at + 2_592_000_000
    ensures var key, doc := Key(Session, steps[i].hash), Doc(steps[i].user, steps[i].at, steps[i].at + 2_592_000_000);
            Read(key, now, states[atRow], states[atWindow], found, states[atCheck]) ==
            if now < doc.expiresAt && !RevokedBetween(states, steps, i + 1, atRow, key, doc.user)
               && !CutOffFrom(states[atCheck], doc.user, doc.createdAt)
            then Some(doc) else None
  {
    assert states[i + 1] == Apply(states[i], steps[i]) && Enabled(states[i], steps[i]);
    RunsKeepInv(states, steps, i);
    SessionIsIssued(states[i], steps[i].hash, steps[i].user, steps[i].at);
    hide Inv, JustIssued, IsRun, CreateSession, RevokedBetween;
    AcceptedUntilRevoked(states, steps, i + 1, atRow, atWindow, atCheck, Key(Session, steps[i].hash),
                         Doc(steps[i].user, steps[i].at, steps[i].at + 2_592_000_000), now, found);
  }

  lemma InactiveGetsNoSession(s: State, hash: string, user: Id, at: int)
    requires user !in s.active
    ensures CreateSession(s, hash, user, at) == s
  {
  }

  // ---------- Device login ----------

  /** What a request must be for this account to get its token now. */
  predicate OpenFor(s: State, hash: string, user: Id, now: int) {
    var key := Key(CliRequest, hash);
    key in s.records && s.records[key].user == Some(user) && user in s.active &&
    s.records[key].consumedBy == None && !s.records[key].revoked && now < s.records[key].expiresAt
  }

  lemma TokenIsIssued(s: State, hash: string, user: Id, token: string, at: int)
    requires Inv(s) && Enabled(s, DoPollCommit(hash, user, token, at)) && OpenFor(s, hash, user, at)
    requires HashIsOwn(s, Key(CliToken, token)) && Marker(Key(CliToken, token)) !in s.records
    ensures JustIssued(PollCommit(s, hash, user, token, at), Key(CliToken, token), Doc(user, at, at + 7_776_000_000))
  {
    hide Inv, Unclaimed;
  }

  /** A device token lasts ninety days, unless it is revoked. */
  lemma TokensLast(states: seq<State>, steps: seq<Step>, i: nat, atRow: nat, atWindow: nat, atCheck: nat, now: int, found: bool)
    requires IsRun(states, steps) && Inv(states[0]) && i < atRow <= atWindow <= atCheck < |states|
    requires steps[i].DoPollCommit? && OpenFor(states[i], steps[i].hash, steps[i].user, steps[i].at)
    requires HashIsOwn(states[i], Key(CliToken, steps[i].token)) && Marker(Key(CliToken, steps[i].token)) !in states[i].records
    requires states[atRow].clock < steps[i].at + 7_776_000_000
    ensures var key, doc := Key(CliToken, steps[i].token), Doc(steps[i].user, steps[i].at, steps[i].at + 7_776_000_000);
            Read(key, now, states[atRow], states[atWindow], found, states[atCheck]) ==
            if now < doc.expiresAt && !RevokedBetween(states, steps, i + 1, atRow, key, doc.user)
               && !CutOffFrom(states[atCheck], doc.user, doc.createdAt)
            then Some(doc) else None
  {
    assert states[i + 1] == Apply(states[i], steps[i]) && Enabled(states[i], steps[i]);
    RunsKeepInv(states, steps, i);
    TokenIsIssued(states[i], steps[i].hash, steps[i].user, steps[i].token, steps[i].at);
    hide Inv, JustIssued, IsRun, PollCommit, RevokedBetween, OpenFor;
    AcceptedUntilRevoked(states, steps, i + 1, atRow, atWindow, atCheck, Key(CliToken, steps[i].token),
                         Doc(steps[i].user, steps[i].at, steps[i].at + 7_776_000_000), now, found);
  }

  /** Device login from its start: open for ten minutes, pending until it is approved, then
      the approver's and nobody else's; the poll mints a token exactly if both the approval
      and the poll came in time. */
  lemma DeviceLoginMints(s: State, hash: string, user: Id, token: string, started: int, approved: int, polled: int)
    requires Inv(s) && user in s.active && started <= s.clock && approved <= s.clock && polled <= s.clock
    requires Fresh(s, Key(CliRequest, hash)) && Fresh(s, Key(CliToken, token)) && Unclaimed(s, token)
    ensures var open := StartRequest(s, hash, started);
            var ready := Approve(open, hash, user, approved);
            var inTime := approved < started + 600_000 && polled < started + 600_000;
            && PollRead(open, hash, polled) == None
            && PollRead(ready, hash, polled) == (if inTime then Some(user) else None)
            && (Key(CliToken, token) in PollCommit(ready, hash, user, token, polled).records <==> inTime)
            && (inTime ==> PollRead(PollCommit(ready, hash, user, token, polled), hash, polled) == None)
  {
    NoRowWhenFresh(s, Key(CliToken, token));
    hide Inv, Unclaimed;
  }

  /** An approved request is nobody else's. */
  lemma ApprovalIsExclusive(s: State, hash: string, user: Id, other: Id, at: int, later: int)
    requires Approvable(s, hash, user, at) && other != user
    ensures Approve(Approve(s, hash, user, at), hash, other, later) == Approve(s, hash, user, at)
    ensures OpenFor(s.(records := Approve(s, hash, user, at).records), hash, user, at)
  {
  }

  /** One step on the row of a request: approval, claim and revocation, and nothing else. */
  lemma RequestChangesExactly(s: State, step: Step, hash: string)
    requires Inv(s) && Enabled(s, step) && Key(CliRequest, hash) in s.records && Key(CliRequest, hash) in Apply(s, step).records
    ensures RequestChange(s, step, hash, s.records[Key(CliRequest, hash)], Apply(s, step).records[Key(CliRequest, hash)])
  {
    hide RowsValid, MarkersLast, MintsValid, ConsumedMinted, Unclaimed, RequestChange, CreateSession, StartRequest, Approve,
         PollCommit, Logout, RevokeAll, ImportAll;
    RequestRow(s, hash);
    match step
    case DoImport(page) =>
      ImportAllKeepsRows(s, page, Key(CliRequest, hash));
      SameRequest(s, step, hash);
    case DoCreateSession(other, user, at) => SessionChangesNoRequest(s, step, hash);
    case DoStartRequest(other, at) => StartChangesNoRequest(s, step, hash);
    case DoApprove(other, user, at) => ApprovalChangesRequest(s, step, hash);
    case DoPollCommit(other, user, token, at) => ClaimChangesRequest(s, step, hash);
    case DoLogout(other, doc) => LogoutChangesNoRequest(s, step, hash);
    case DoRevokeAll(user, at) => RevokeAllChangesRequest(s, step, hash);
    case _ => SameRequest(s, step, hash);
  }

  ghost predicate RequestChange(s: State, step: Step, hash: string, row: Record, after: Record) {
    && after.expiresAt == row.expiresAt
    && after.user == (if step.DoApprove? && step.hash == hash && step.user in s.active && row.consumedBy == None && !row.revoked
                         && step.at < row.expiresAt && row.user in {None, Some(step.user)}
                      then Some(step.user) else row.user)
    && after.consumedBy == (if step.DoPollCommit? && step.hash == hash && OpenFor(s, hash, step.user, step.at)
                            then Some(step.token) else row.consumedBy)
    && (after.revoked <==> row.revoked || (step.DoRevokeAll? && row.user == Some(step.user)))
  }

  lemma RequestRow(s: State, hash: string)
    requires RowsValid(s) && Key(CliRequest, hash) in s.records
    ensures Key(CliRequest, hash) in s.issued
  {
    assert RowValid(s, Key(CliRequest, hash));
  }

  lemma SameRequest(s: State, step: Step, hash: string)
    requires Key(CliRequest, hash) in s.records && !step.DoApprove? && !step.DoPollCommit? && !step.DoRevokeAll?
    ensures RequestChange(s, step, hash, s.records[Key(CliRequest, hash)], s.records[Key(CliRequest, hash)])
  {
  }

  lemma SessionChangesNoRequest(s: State, step: Step, hash: string)
    requires Enabled(s, step) && step.DoCreateSession? && Key(CliRequest, hash) in s.records
    ensures Key(CliRequest, hash) in Apply(s, step).records
    ensures RequestChange(s, step, hash, s.records[Key(CliRequest, hash)], Apply(s, step).records[Key(CliRequest, hash)])
  {
  }

  lemma StartChangesNoRequest(s: State, step: Step, hash: string)
    requires Enabled(s, step) && step.DoStartRequest? && Key(CliRequest, hash) in s.records && Key(CliRequest, hash) in s.issued
    ensures Key(CliRequest, hash) in Apply(s, step).records
    ensures RequestChange(s, step, hash, s.records[Key(CliRequest, hash)], Apply(s, step).records[Key(CliRequest, hash)])
  {
  }

  lemma ApprovalChangesRequest(s: State, step: Step, hash: string)
    requires Enabled(s, step) && step.DoApprove? && Key(CliRequest, hash) in s.records
    ensures Key(CliRequest, hash) in Apply(s, step).records
    ensures RequestChange(s, step, hash, s.records[Key(CliRequest, hash)], Apply(s, step).records[Key(CliRequest, hash)])
  {
  }

  lemma ClaimChangesRequest(s: State, step: Step, hash: string)
    requires Enabled(s, step) && step.DoPollCommit? && Key(CliRequest, hash) in s.records
    ensures Key(CliRequest, hash) in Apply(s, step).records
    ensures RequestChange(s, step, hash, s.records[Key(CliRequest, hash)], Apply(s, step).records[Key(CliRequest, hash)])
  {
    hide Enabled, Unclaimed, Fresh;
    assert Consumable(s, step.hash, step.user, step.at) <==> OpenFor(s, step.hash, step.user, step.at);
    hide Consumable, OpenFor;
  }

  lemma LogoutChangesNoRequest(s: State, step: Step, hash: string)
    requires Enabled(s, step) && step.DoLogout? && Key(CliRequest, hash) in s.records
    ensures Key(CliRequest, hash) in Apply(s, step).records
    ensures RequestChange(s, step, hash, s.records[Key(CliRequest, hash)], Apply(s, step).records[Key(CliRequest, hash)])
  {
    hide DocOf;
    assert step.key != Key(CliRequest, hash) && Marker(step.key) != Key(CliRequest, hash);
    hide OpenFor;
  }

  lemma RevokeAllChangesRequest(s: State, step: Step, hash: string)
    requires Enabled(s, step) && step.DoRevokeAll? && Key(CliRequest, hash) in s.records
    ensures Key(CliRequest, hash) in Apply(s, step).records
    ensures RequestChange(s, step, hash, s.records[Key(CliRequest, hash)], Apply(s, step).records[Key(CliRequest, hash)])
  {
  }
}
