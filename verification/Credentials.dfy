/** Credential records, their revocation, device login and the migration from the old
    key-value store. Every batch is one step; a reader or a poll spans several states. */
module Credentials {
  import opened Outcomes

  const SESSION_TTL_MS: nat := 30 * 24 * 3_600_000
  const REQUEST_TTL_MS: nat := 10 * 60_000
  const TOKEN_TTL_MS: nat := 90 * 24 * 3_600_000

  datatype Kind = Session | CliToken | CliRequest | RevokedLegacy
  type Id = string

  /** `kind:hash`; hashes of distinct tokens are distinct. */
  datatype Key = Key(kind: Kind, hash: string)

  /** The parts of a credential document that decide its acceptance. */
  datatype Doc = Doc(user: Id, createdAt: int, expiresAt: int)

  /** `user` is the user_id column; `doc` is absent for requests and markers. */
  datatype Record = Record(user: Option<Id>, expiresAt: int, consumedBy: Option<string>, revoked: bool, doc: Option<Doc>)

  /** A token row that a poll inserted, with the request it consumed. */
  datatype Mint = Mint(request: string, token: string, user: Id)

  /** `legacy` holds the old store's documents, which nothing rewrites; a reader may or may
      not still find one there. `issued`, `approvals` and `mints` are history. */
  datatype State = State(
    clock: int, records: map<Key, Record>, cutoffs: map<Id, int>, windowOpen: bool, active: set<Id>,
    legacy: map<Key, Doc>, issued: set<Key>, approvals: map<string, Id>, mints: seq<Mint>)

  function Marker(key: Key): Key {
    Key(RevokedLegacy, key.hash)
  }

  predicate IsCredential(key: Key) {
    key.kind == Session || key.kind == CliToken
  }

  // ---------- Reading a credential ----------

  /** readCredential: the record row, the transition window, the old store and the
      revocation tables are read one after the other, in that order. `found` says whether
      the old store still returned the document. */
  function Read(key: Key, now: int, atRow: State, atWindow: State, found: bool, atRevocation: State): Option<Doc> {
    var document :=
      if key in atRow.records then
        var row := atRow.records[key];
        if row.revoked || row.expiresAt <= now then None else row.doc
      else if key !in atRow.legacy || !atWindow.windowOpen || !found || atRow.legacy[key].expiresAt <= now then None
      else Some(atRow.legacy[key]);
    if document.None? || RevocationListed(atRevocation, key, document.value) then None else document
  }

  predicate RevocationListed(s: State, key: Key, doc: Doc) {
    Marker(key) in s.records || (doc.user in s.cutoffs && s.cutoffs[doc.user] >= doc.createdAt)
  }

  // ---------- Batches ----------

  function Insert(s: State, key: Key, record: Record): State {
    s.(records := s.records[key := record], issued := s.issued + {key})
  }

  function CreateSession(s: State, hash: string, user: Id, at: int): State {
    if user !in s.active then s
    else
      var doc := Doc(user, at, at + SESSION_TTL_MS);
      Insert(s, Key(Session, hash), Record(Some(user), doc.expiresAt, None, false, Some(doc)))
  }

  function StartRequest(s: State, hash: string, at: int): State {
    Insert(s, Key(CliRequest, hash), Record(None, at + REQUEST_TTL_MS, None, false, None))
  }

  predicate Approvable(s: State, hash: string, user: Id, at: int) {
    var key := Key(CliRequest, hash);
    key in s.records && user in s.active &&
    var row := s.records[key];
    row.consumedBy.None? && !row.revoked && row.expiresAt > at && (row.user.None? || row.user == Some(user))
  }

  function Approve(s: State, hash: string, user: Id, at: int): State {
    if !Approvable(s, hash, user, at) then s
    else
      var key := Key(CliRequest, hash);
      s.(records := s.records[key := s.records[key].(user := Some(user))],
         approvals := if hash in s.approvals then s.approvals else s.approvals[hash := user])
  }

  /** What the poll's read step lets it go on with: the approving account. */
  function PollRead(s: State, hash: string, now: int): Option<Id> {
    var key := Key(CliRequest, hash);
    if key !in s.records then None
    else
      var row := s.records[key];
      if row.expiresAt <= now || row.consumedBy.Some? || row.revoked then None else row.user
  }

  predicate Consumable(s: State, hash: string, user: Id, at: int) {
    var key := Key(CliRequest, hash);
    key in s.records && user in s.active &&
    var row := s.records[key];
    row.consumedBy.None? && !row.revoked && row.expiresAt > at && row.user == Some(user)
  }

  /** First statement of the poll batch: claim the request. */
  function Claim(s: State, hash: string, user: Id, token: string, at: int): State {
    if !Consumable(s, hash, user, at) then s
    else
      var key := Key(CliRequest, hash);
      s.(records := s.records[key := s.records[key].(consumedBy := Some(token))])
  }

  predicate Claimed(s: State, hash: string, token: string) {
    Key(CliRequest, hash) in s.records && s.records[Key(CliRequest, hash)].consumedBy == Some(token)
  }

  /** The poll batch: the second statement inserts only for the request that carries this
      very claim. */
  function PollCommit(s: State, hash: string, user: Id, token: string, at: int): State {
    var s1 := Claim(s, hash, user, token, at);
    if !Claimed(s1, hash, token) then s1
    else
      var doc := Doc(user, at, at + TOKEN_TTL_MS);
      Insert(s1, Key(CliToken, token), Record(Some(user), doc.expiresAt, None, false, Some(doc)))
        .(mints := s1.mints + [Mint(hash, token, user)])
  }

  function Revoke(s: State, key: Key): State {
    if key in s.records then s.(records := s.records[key := s.records[key].(revoked := true)]) else s
  }

  function AddMarker(s: State, key: Key, doc: Doc): State {
    if key in s.legacy && Marker(key) !in s.records
    then s.(records := s.records[Marker(key) := Record(None, doc.expiresAt, None, false, None)]) else s
  }

  /** Logout with a credential whose document was read before: the row, and for a legacy
      credential a marker that lives as long as the credential. */
  function Logout(s: State, key: Key, doc: Doc): State {
    AddMarker(Revoke(s, key), key, doc)
  }

  function RevokeById(s: State, user: Id, key: Key): State {
    if key in s.records && s.records[key].user == Some(user) && IsCredential(key) && user in s.active
    then Revoke(s, key) else s
  }

  function RevokeUser(records: map<Key, Record>, user: Id): map<Key, Record> {
    map k | k in records :: if records[k].user == Some(user) then records[k].(revoked := true) else records[k]
  }

  function Later(a: int, b: int): int {
    if a < b then b else a
  }

  function RevokeAll(s: State, user: Id, at: int): State {
    s.(cutoffs := s.cutoffs[user := if user in s.cutoffs then Later(s.cutoffs[user], at) else at],
       records := RevokeUser(s.records, user))
  }

  /** One migrated document: never over an existing row or a revocation marker. */
  function Import(s: State, key: Key): State
    requires key in s.legacy
  {
    if key in s.records || Marker(key) in s.records then s
    else
      var doc := s.legacy[key];
      s.(records := s.records[key := Record(Some(doc.user), doc.expiresAt, None, false, Some(doc))])
  }

  /** The migration batch for a page whose documents were read earlier. */
  function ImportAll(s: State, keys: seq<Key>): (r: State)
    requires forall k :: k in keys ==> k in s.legacy
    ensures r.legacy == s.legacy
    decreases keys
  {
    if keys == [] then s else ImportAll(Import(s, keys[0]), keys[1..])
  }

  function Cleanup(s: State, keys: set<Key>): State {
    s.(records := s.records - keys)
  }

  // ---------- Steps ----------

  datatype Step =
    | Tick(now: int)
    | SetActive(users: set<Id>)
    | CloseWindow
    | DoCreateSession(hash: string, user: Id, at: int)
    | DoStartRequest(hash: string, at: int)
    | DoApprove(hash: string, user: Id, at: int)
    | DoPollCommit(hash: string, user: Id, token: string, at: int)
    | DoLogout(key: Key, doc: Doc)
    | DoRevokeById(user: Id, key: Key)
    | DoRevokeAll(user: Id, at: int)
    | DoImport(page: seq<Key>)
    | DoCleanup(keys: set<Key>)

  /** The clock is monotone and nobody acts with a time ahead of it; new tokens are fresh,
      and no claim on a request was ever the same random token; logout names a document
      that a reader returned. */
  predicate Enabled(s: State, step: Step) {
    match step
    case Tick(now) => now >= s.clock
    case SetActive(_) => true
    case CloseWindow => true
    case DoCreateSession(hash, _, at) => at <= s.clock && Fresh(s, Key(Session, hash))
    case DoStartRequest(hash, at) => at <= s.clock && Fresh(s, Key(CliRequest, hash))
    case DoApprove(_, _, at) => at <= s.clock
    case DoPollCommit(_, _, token, at) => at <= s.clock && Fresh(s, Key(CliToken, token)) && Unclaimed(s, token)
    case DoLogout(key, doc) => IsCredential(key) && DocOf(s, key, doc)
    case DoRevokeById(_, _) => true
    case DoRevokeAll(_, at) => at <= s.clock
    case DoImport(page) => forall k :: k in page ==> k in s.legacy
    case DoCleanup(keys) => forall k :: k in keys ==> k in s.records && s.records[k].expiresAt <= s.clock
  }

  predicate Fresh(s: State, key: Key) {
    key !in s.issued && key !in s.legacy
  }

  predicate Unclaimed(s: State, token: string) {
    forall k :: k in s.records ==> s.records[k].consumedBy != Some(token)
  }

  /** The document of this credential, wherever it still is. */
  predicate DocOf(s: State, key: Key, doc: Doc) {
    && (key in s.records ==> s.records[key].doc == Some(doc))
    && (key in s.legacy ==> s.legacy[key] == doc)
    && (key in s.legacy || key in s.issued)
  }

  function Apply(s: State, step: Step): State
    requires Enabled(s, step)
  {
    match step
    case Tick(now) => s.(clock := now)
    case SetActive(users) => s.(active := users)
    case CloseWindow => s.(windowOpen := false)
    case DoCreateSession(hash, user, at) => CreateSession(s, hash, user, at)
    case DoStartRequest(hash, at) => StartRequest(s, hash, at)
    case DoApprove(hash, user, at) => Approve(s, hash, user, at)
    case DoPollCommit(hash, user, token, at) => PollCommit(s, hash, user, token, at)
    case DoLogout(key, doc) => Logout(s, key, doc)
    case DoRevokeById(user, key) => RevokeById(s, user, key)
    case DoRevokeAll(user, at) => RevokeAll(s, user, at)
    case DoImport(page) => ImportAll(s, page)
    case DoCleanup(keys) => Cleanup(s, keys)
  }

  ghost predicate IsRun(states: seq<State>, steps: seq<Step>) {
    && |states| == |steps| + 1
    && forall i :: 0 <= i < |steps| ==> Enabled(states[i], steps[i]) && states[i + 1] == Apply(states[i], steps[i])
  }
}
