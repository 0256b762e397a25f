/** The protected store as one state machine: the repository's tables, the ciphertext
    objects, the keyring, and every operation as one atomic transition. */
module StoreModel {
  import opened Wrappers
  import opened Framing
  import opened Envelope

  /** One row per logical file: catalogue and lifecycle columns together. */
  datatype File = File(
    ownerID: string, name: string, currentVersionID: string, createdAt: Time, updatedAt: Time,
    deletedAt: Option<Time>, purgeAfter: Option<Time>, retentionUntil: Option<Time>,
    legalHold: bool, holdReason: string, purgedAt: Option<Time>)
  {
    /** Neither in the trash nor purged: the only rows any read path serves. */
    predicate Active() { deletedAt == None && purgedAt == None }
  }

  datatype Reason = InitialUpload | VerifiedRestore

  datatype Version = Version(
    versionID: string, sourceVersionID: Option<string>, operationID: OperationID, number: int,
    plaintextSize: int, mediaType: string, reason: Reason, current: bool, createdAt: Time)

  datatype Permission = Read | Download

  datatype Grant = Grant(
    fileID: string, ownerID: string, recipientID: string, permission: Permission,
    expiresAt: Option<Time>, createdAt: Time, revokedAt: Option<Time>)

  /** A digest of owner, file and the caller's or the worker's key: two purges share an ID
      only when all three agree. */
  datatype PurgeID = PurgeID(owner: string, file: string, key: string)

  /** The order in which purge lists the removed objects is a map order; a set keeps what
      matters, since removal of each is independent. */
  datatype PurgeResult = PurgeResult(
    fileID: string, operationID: PurgeID, destroyedKeys: nat, completedAt: Time, blobObjects: set<string>)

  datatype Repo = Repo(
    entries: map<OperationID, Metadata>, files: map<string, File>,
    versions: map<string, seq<Version>>, grants: map<string, Grant>,
    purges: map<PurgeID, PurgeResult>)

  const GRACE: Time := 30 * 24 * 60 * 60 * 1_000_000

  type Outcome<R> = Result<R, StoreError>

  // --- Catalogue -------------------------------------------------------------

  function VersionsOf(r: Repo, f: string): seq<Version> {
    if f in r.versions then r.versions[f] else []
  }

  predicate HasVersion(vs: seq<Version>, id: string) {
    exists i :: 0 <= i < |vs| && vs[i].versionID == id
  }

  predicate HasOperation(vs: seq<Version>, op: OperationID) {
    exists i :: 0 <= i < |vs| && vs[i].operationID == op
  }

  function FirstVersion(m: Metadata): Version {
    Version(m.versionID, None, m.uploadID, 1, m.plaintextSize, m.mediaType, InitialUpload, true, m.createdAt)
  }

  /** A retry is recognised only while the initial version is still the current one. */
  predicate Recognises(r: Repo, f: string, owner: string, m: Metadata) {
    f in r.files && r.files[f].ownerID == owner && r.files[f].currentVersionID == m.versionID
  }

  predicate Recognised(r: Repo, owner: string, m: Metadata) {
    exists f :: f in r.files && Recognises(r, f, owner, m)
  }

  /** Some history holds the version or the operation already; each is unique over all of
      them, so a second row is refused. */
  predicate Catalogued(r: Repo, m: Metadata) {
    exists f :: f in r.versions && (HasVersion(r.versions[f], m.versionID) || HasOperation(r.versions[f], m.uploadID))
  }

  function NewFile(owner: string, name: string, m: Metadata): File {
    File(owner, name, m.versionID, m.createdAt, m.createdAt, None, None, None, false, "", None)
  }

  function AddFile(r: Repo, owner: string, name: string, m: Metadata, newFile: string): Repo {
    r.(files := r.files[newFile := NewFile(owner, name, m)], versions := r.versions[newFile := [FirstVersion(m)]])
  }

  function RegisterInitial(r: Repo, owner: string, name: string, m: Metadata, newFile: string): Repo {
    if Recognised(r, owner, m) || Catalogued(r, m) then r else AddFile(r, owner, name, m, newFile)
  }

  /** The metadata of one version of an active file, for its owner only. */
  ghost predicate Finds(r: Repo, owner: string, f: string, versionID: string, m: Metadata) {
    && f in r.files && r.files[f].ownerID == owner && r.files[f].Active()
    && HasVersion(VersionsOf(r, f), versionID)
    && m.uploadID in r.entries && r.entries[m.uploadID] == m && m.versionID == versionID
  }

  function Superseded(vs: seq<Version>): (r: seq<Version>)
    ensures |r| == |vs|
  {
    seq(|vs|, i requires 0 <= i < |vs| => vs[i].(current := false))
  }

  function RestoredVersion(vs: seq<Version>, source: string, m: Metadata): Version {
    Version(m.versionID, Some(source), m.uploadID, |vs| + 1, m.plaintextSize, m.mediaType,
            VerifiedRestore, true, m.createdAt)
  }

  /** Whether a restore may still be committed: an active file that has the source. */
  function RestoreGuard(r: Repo, owner: string, f: string, source: string): Outcome<()> {
    if f !in r.files || r.files[f].ownerID != owner || !r.files[f].Active() then Failure(NotFound)
    else if !HasVersion(VersionsOf(r, f), source) then Failure(NotFound)
    else Success(())
  }

  /** A known operation changes nothing, whatever has become of the file since. */
  function CommitRestore(r: Repo, owner: string, f: string, source: string, m: Metadata): Repo {
    if f in r.files && r.files[f].ownerID == owner && HasOperation(VersionsOf(r, f), m.uploadID) then r
    else if RestoreGuard(r, owner, f, source).Failure? then r
    else
      var vs := VersionsOf(r, f);
      r.(files := r.files[f := r.files[f].(currentVersionID := m.versionID, updatedAt := m.createdAt)],
         versions := r.versions[f := [RestoredVersion(vs, source, m)] + Superseded(vs)])
  }

  // --- Key rewrap ------------------------------------------------------------

  /** Compare and swap: the wrapper is replaced only if it is still the one that was read. */
  predicate RewrapMatches(r: Repo, candidate: Metadata) {
    && candidate.uploadID in r.entries
    && r.entries[candidate.uploadID].versionID == candidate.versionID
    && r.entries[candidate.uploadID].wrappedDEK == candidate.wrappedDEK
  }

  function CommitRewrap(r: Repo, candidate: Metadata, replacement: Wrapped, id: string, version: string): Repo {
    if !RewrapMatches(r, candidate) then r
    else
      var stored := r.entries[candidate.uploadID];
      r.(entries := r.entries[candidate.uploadID :=
        stored.(wrappedDEK := Some(replacement), wrappingKEKID := id, wrappingKEKVersion := version)])
  }

  // --- Lifecycle -------------------------------------------------------------

  function RevokeAll(grants: map<string, Grant>, f: string, now: Time): map<string, Grant> {
    map id | id in grants ::
      if grants[id].fileID == f && grants[id].revokedAt == None
      then grants[id].(revokedAt := Some(now)) else grants[id]
  }

  function TrashGuard(r: Repo, owner: string, f: string, now: Time): Outcome<()> {
    if f !in r.files || r.files[f].ownerID != owner || r.files[f].purgedAt.Some? then Failure(NotFound)
    else if r.files[f].legalHold then Failure(LegalHold)
    else if After(r.files[f].retentionUntil, now) then Failure(RetentionActive)
    else Success(())
  }

  function MoveToTrash(r: Repo, owner: string, f: string, now: Time, purgeAfter: Time): Repo {
    if TrashGuard(r, owner, f, now).Failure? || r.files[f].deletedAt.Some? then r
    else r.(files := r.files[f := r.files[f].(deletedAt := Some(now), purgeAfter := Some(purgeAfter),
                                              updatedAt := now)],
            grants := RevokeAll(r.grants, f, now))
  }

  predicate InTrash(r: Repo, owner: string, f: string) {
    f in r.files && r.files[f].ownerID == owner && r.files[f].deletedAt.Some? && r.files[f].purgedAt == None
  }

  function RestoreFromTrash(r: Repo, owner: string, f: string, now: Time): Repo {
    if !InTrash(r, owner, f) then r
    else r.(files := r.files[f := r.files[f].(deletedAt := None, purgeAfter := None, updatedAt := now)])
  }

  function PurgeGuard(r: Repo, owner: string, f: string, now: Time): Outcome<()> {
    if !InTrash(r, owner, f) then Failure(NotInTrash)
    else if r.files[f].legalHold then Failure(LegalHold)
    else if After(r.files[f].retentionUntil, now) then Failure(RetentionActive)
    else if r.files[f].purgeAfter == None || After(r.files[f].purgeAfter, now) then Failure(PurgeTooEarly)
    else Success(())
  }

  predicate Live(m: Metadata) { m.wrappedDEK.Some? }

  /** The still existing keys of the file's versions. */
  function Erased(r: Repo, f: string): set<OperationID> {
    set u | u in r.entries && Live(r.entries[u]) && HasVersion(VersionsOf(r, f), r.entries[u].versionID)
  }

  function ErasedObjects(r: Repo, f: string): set<string> {
    set u | u in Erased(r, f) :: r.entries[u].blobObject
  }

  function Destroy(entries: map<OperationID, Metadata>, gone: set<OperationID>): map<OperationID, Metadata> {
    map u | u in entries :: if u in gone then entries[u].(wrappedDEK := None) else entries[u]
  }

  function PurgeOutcome(r: Repo, op: PurgeID, now: Time): Outcome<PurgeResult> {
    if op in r.purges then
      if r.purges[op].fileID != op.file then Failure(IdempotencyConflict) else Success(r.purges[op])
    else match PurgeGuard(r, op.owner, op.file, now)
      case Failure(e) => Failure(e)
      case Success(_) =>
        Success(PurgeResult(op.file, op, |Erased(r, op.file)|, now, ErasedObjects(r, op.file)))
  }

  predicate Purges(r: Repo, op: PurgeID, now: Time) {
    op !in r.purges && PurgeGuard(r, op.owner, op.file, now).Success?
  }

  function Purge(r: Repo, op: PurgeID, now: Time): Repo {
    if !Purges(r, op, now) then r
    else
      var f := op.file;
      Repo(Destroy(r.entries, Erased(r, f)),
           r.files[f := r.files[f].(purgedAt := Some(now), updatedAt := now)],
           r.versions, RevokeAll(r.grants, f, now),
           r.purges[op := PurgeResult(f, op, |Erased(r, f)|, now, ErasedObjects(r, f))])
  }

  /** Deadlines only move forward while one is set. */
  predicate RetentionAccepted(r: Repo, f: string, until: Option<Time>) {
    && f in r.files && r.files[f].purgedAt == None
    && (r.files[f].retentionUntil.Some? ==> until.Some? && until.value >= r.files[f].retentionUntil.value)
  }

  function SetRetention(r: Repo, f: string, until: Option<Time>): Repo {
    if !RetentionAccepted(r, f, until) then r
    else r.(files := r.files[f := r.files[f].(retentionUntil := until)])
  }

  function SetLegalHold(r: Repo, f: string, enabled: bool, reason: string): Repo {
    if f !in r.files || r.files[f].purgedAt.Some? then r
    else r.(files := r.files[f := r.files[f].(legalHold := enabled, holdReason := if enabled then reason else "")])
  }

  // --- Grants ----------------------------------------------------------------

  predicate Unrevoked(r: Repo, id: string, f: string, recipient: string) {
    && id in r.grants && r.grants[id].fileID == f && r.grants[id].recipientID == recipient
    && r.grants[id].revokedAt == None
  }

  predicate MayGrant(r: Repo, owner: string, f: string, recipient: string) {
    f in r.files && r.files[f].ownerID == owner && r.files[f].Active() && recipient != owner
  }

  /** An unrevoked grant to the same recipient is updated in place; otherwise one is added. */
  function CreateGrant(r: Repo, owner: string, f: string, recipient: string, permission: Permission,
                       expiresAt: Option<Time>, now: Time, slot: string): Repo
  {
    if !MayGrant(r, owner, f, recipient) then r
    else r.(grants := r.grants[slot :=
      if slot in r.grants
      then r.grants[slot].(permission := permission, expiresAt := expiresAt, createdAt := now)
      else Grant(f, owner, recipient, permission, expiresAt, now, None)])
  }

  /** Where a grant goes: the recipient's unrevoked grant if there is one, else a fresh ID. */
  predicate GrantSlot(r: Repo, f: string, recipient: string, slot: string) {
    if exists id :: id in r.grants && Unrevoked(r, id, f, recipient)
    then Unrevoked(r, slot, f, recipient) else slot !in r.grants
  }

  function RevokeGrant(r: Repo, owner: string, f: string, id: string, now: Time): Repo {
    if id !in r.grants || r.grants[id].ownerID != owner || r.grants[id].fileID != f ||
        r.grants[id].revokedAt.Some? then r
    else r.(grants := r.grants[id := r.grants[id].(revokedAt := Some(now))])
  }

  /** This grant lets the requester use the capability now. */
  predicate Allows(g: Grant, f: string, requester: string, capability: Permission, now: Time) {
    && g.fileID == f && g.recipientID == requester && g.revokedAt == None
    && (g.expiresAt == None || After(g.expiresAt, now))
    && (capability == Read || g.permission == Download)
  }

  /** The one authorization rule behind every shared read. */
  predicate Authorized(r: Repo, requester: string, f: string, capability: Permission, now: Time) {
    && f in r.files && r.files[f].Active()
    && (r.files[f].ownerID == requester ||
        exists id :: id in r.grants && Allows(r.grants[id], f, requester, capability, now))
  }

  // --- The whole store -------------------------------------------------------

  /** `inFlight` holds sealed versions whose object is written but whose metadata is not
      yet committed, and `cleaning` versions whose commit took effect but was answered with
      an error, so that their object is about to be removed. Both are process memory: a crash
      empties them and leaves the objects. `content` is history that no step reads: the bytes
      each version was sealed from. */
  datatype World = World(ring: Keyring, blobs: Blobs, inFlight: map<string, Metadata>, cleaning: set<string>,
                         repo: Repo,
                         content: map<string, Bytes>)

  datatype Event =
    | StartProtect(request: Request, plaintext: Bytes, draw: Draw)
    | StartRestore(owner: string, file: string, source: string, key: string, sourceMetadata: Metadata, draw: Draw)
    | CommitProtect(versionID: string)
    | CommitDoubted(versionID: string)
    | CleanUp(versionID: string)
    | AbortProtect(versionID: string)
    | Crash
    | Register(owner: string, name: string, uploadID: OperationID, newFile: string)
    | CommitRestored(owner: string, file: string, source: string, key: string)
    | RotateKEK(version: string, kek: Key)
    | Rewrap(candidate: Metadata, nonce: Bytes)
    | RemoveObject(name: string)
    | Trash(owner: string, file: string, now: Time)
    | Untrash(owner: string, file: string, now: Time)
    | PurgeFile(op: PurgeID, now: Time)
    | Retain(file: string, until: Option<Time>)
    | Hold(file: string, enabled: bool, reason: string)
    | Share(owner: string, file: string, recipient: string, permission: Permission,
            expiresAt: Option<Time>, now: Time, slot: string)
    | Unshare(owner: string, file: string, grantID: string, now: Time)

  /** A version ID nobody has used: random 96-bit IDs are taken to be fresh. */
  predicate FreshVersion(w: World, v: string) {
    && v !in w.inFlight && Blob(v) !in w.blobs
    && (forall u :: u in w.repo.entries ==> w.repo.entries[u].versionID != v)
  }

  function Write(w: World, q: Request, source: Bytes, d: Draw): World
    requires ValidRing(w.ring)
  {
    var m := NewMetadata(w.ring, q, d);
    w.(blobs := w.blobs[m.blobObject := Seal(m, d.dek, source)], inFlight := w.inFlight[d.versionID := m],
       content := w.content[d.versionID := source])
  }

  function StartProtectStep(cfg: Config, w: World, q: Request, source: Bytes, d: Draw): World {
    if q.uploadID in w.repo.entries || CheckRequest(cfg, q, source).Failure? ||
       !ValidDraw(d) || !FreshVersion(w, d.versionID) || !ValidRing(w.ring)
    then w else Write(w, q, source, d)
  }

  function RestoreRequest(owner: string, f: string, source: string, key: string, m: Metadata): Request {
    Request(Restore(owner, f, source, key), owner, m.plaintextDigest, m.mediaType, m.inspectionRecordID,
            m.plaintextSize)
  }

  predicate ValidIdempotencyKey(key: string) { 8 <= |key| <= 128 }

  /** Authenticates the source first, then protects its bytes again under fresh keys. */
  ghost function StartRestoreStep(cfg: Config, w: World, owner: string, f: string, source: string, key: string,
                                  m: Metadata, d: Draw): World
  {
    var plain := Open(cfg, w.ring, w.blobs, m);
    if !Finds(w.repo, owner, f, source, m) || plain.Failure? || !ValidIdempotencyKey(key) then w
    else StartProtectStep(cfg, w, RestoreRequest(owner, f, source, key, m), plain.value, d)
  }

  /** The first commit for an upload wins; a later one removes its own object. */
  function CommitProtectStep(w: World, v: string): World {
    if v !in w.inFlight then w
    else
      var m := w.inFlight[v];
      if m.uploadID in w.repo.entries
      then w.(blobs := w.blobs - {m.blobObject}, inFlight := w.inFlight - {v})
      else w.(inFlight := w.inFlight - {v}, repo := w.repo.(entries := w.repo.entries[m.uploadID := m]))
  }

  /** The insert takes effect, but its caller is told that it failed and will remove the
      object. */
  function CommitDoubtedStep(w: World, v: string): World {
    if v !in w.inFlight || w.inFlight[v].uploadID in w.repo.entries then w
    else
      var m := w.inFlight[v];
      w.(inFlight := w.inFlight - {v}, cleaning := w.cleaning + {v},
         repo := w.repo.(entries := w.repo.entries[m.uploadID := m]))
  }

  function CleanUpStep(w: World, v: string): World {
    if v !in w.cleaning then w else w.(blobs := w.blobs - {Blob(v)}, cleaning := w.cleaning - {v})
  }

  function CrashStep(w: World): World { w.(inFlight := map[], cleaning := {}) }

  function AbortProtectStep(w: World, v: string): World {
    if v !in w.inFlight then w
    else w.(blobs := w.blobs - {w.inFlight[v].blobObject}, inFlight := w.inFlight - {v})
  }

  function RegisterStep(w: World, owner: string, name: string, u: OperationID, newFile: string): World {
    if !u.Upload? || u !in w.repo.entries || w.repo.entries[u].ownerID != owner || newFile in w.repo.files then w
    else w.(repo := RegisterInitial(w.repo, owner, name, w.repo.entries[u], newFile))
  }

  function CommitRestoredStep(w: World, owner: string, f: string, source: string, key: string): World {
    var u := Restore(owner, f, source, key);
    if u !in w.repo.entries || w.repo.entries[u].ownerID != owner then w
    else w.(repo := CommitRestore(w.repo, owner, f, source, w.repo.entries[u]))
  }

  /** Historical keys are retained: a version keeps its key, and only the current one changes. */
  function RotateStep(w: World, version: string, kek: Key): World {
    if version == "" || (version in w.ring.keys && w.ring.keys[version] != kek) then w
    else w.(ring := Keyring(w.ring.id, version, w.ring.keys[version := kek]))
  }

  /** The candidate is whatever was read earlier, however stale. */
  function RewrapStep(w: World, candidate: Metadata, nonce: Bytes): World {
    var (id, version) := WrappingIdentity(candidate);
    var dek := Unwrap(w.ring, candidate.wrappedDEK, id, version);
    if dek == None || !ValidRing(w.ring) then w
    else w.(repo := CommitRewrap(w.repo, candidate, Wrap(w.ring, dek.value, nonce), w.ring.id, w.ring.version))
  }

  predicate Tracked(w: World, name: string) {
    || (exists u :: u in w.repo.entries && Live(w.repo.entries[u]) && w.repo.entries[u].blobObject == name)
    || (exists v :: v in w.inFlight && w.inFlight[v].blobObject == name)
  }

  /** Purge clean-up and orphan reconciliation remove only untracked objects. */
  function RemoveObjectStep(w: World, name: string): World {
    if Tracked(w, name) then w else w.(blobs := w.blobs - {name})
  }

  ghost function Next(cfg: Config, w: World, e: Event): World {
    match e
    case StartProtect(q, source, d) => if q.uploadID.Upload? then StartProtectStep(cfg, w, q, source, d) else w
    case StartRestore(o, f, s, k, m, d) => StartRestoreStep(cfg, w, o, f, s, k, m, d)
    case CommitProtect(v) => CommitProtectStep(w, v)
    case CommitDoubted(v) => CommitDoubtedStep(w, v)
    case CleanUp(v) => CleanUpStep(w, v)
    case AbortProtect(v) => AbortProtectStep(w, v)
    case Crash => CrashStep(w)
    case Register(o, n, u, f) => RegisterStep(w, o, n, u, f)
    case CommitRestored(o, f, s, k) => CommitRestoredStep(w, o, f, s, k)
    case RotateKEK(v, kek) => RotateStep(w, v, kek)
    case Rewrap(c, n) => RewrapStep(w, c, n)
    case RemoveObject(name) => RemoveObjectStep(w, name)
    case Trash(o, f, now) => w.(repo := MoveToTrash(w.repo, o, f, now, now + GRACE))
    case Untrash(o, f, now) => w.(repo := RestoreFromTrash(w.repo, o, f, now))
    case PurgeFile(op, now) => w.(repo := Purge(w.repo, op, now))
    case Retain(f, until) => w.(repo := SetRetention(w.repo, f, until))
    case Hold(f, enabled, reason) => w.(repo := SetLegalHold(w.repo, f, enabled, reason))
    case Share(o, f, rcpt, p, x, now, slot) =>
      if GrantSlot(w.repo, f, rcpt, slot) then w.(repo := CreateGrant(w.repo, o, f, rcpt, p, x, now, slot)) else w
    case Unshare(o, f, id, now) => w.(repo := RevokeGrant(w.repo, o, f, id, now))
  }

  function EmptyRepo(): Repo { Repo(map[], map[], map[], map[], map[]) }

  function EmptyWorld(ring: Keyring): World { World(ring, map[], map[], {}, EmptyRepo(), map[]) }

  ghost function Run(cfg: Config, w: World, events: seq<Event>): World {
    if events == [] then w
    else Next(cfg, Run(cfg, w, events[..|events| - 1]), events[|events| - 1])
  }
}
