/** The protected store's service in its ordered effects: writing an object and committing
    its metadata, whatever the database answers, opening, and restoring an older version
    under fresh keys. */
module StoreProtect {
  import opened Wrappers
  import opened Framing
  import opened Envelope
  import opened StoreModel
  import opened StoreInvariant
  import opened StoreSteps
  import opened StoreContent
  import opened MemoryStore

  /** How the insert ended: done; refused without effect; or done and answered with an error. */
  datatype Answer = Done | Refused | Doubted

  /** The caller protects a restore only with the bytes of its committed source. */
  ghost predicate Honest(w: World, q: Request, source: Bytes) {
    && AimsAt(w.repo.versions, q.uploadID)
    && (q.uploadID.Restore? ==>
          && Committed(w.repo.entries, q.uploadID.source) && q.ownerID == q.uploadID.owner
          && (q.uploadID.source in w.content ==> w.content[q.uploadID.source] == source))
  }

  /** The store at rest once a new object was written, the insert ended, and the object was
      removed again where the service removes it and the removal succeeds. */
  ghost function Ended(w: World, q: Request, source: Bytes, d: Draw, answer: Answer, removed: bool): World
    requires ValidRing(w.ring)
  {
    var v := d.versionID;
    var written := Write(w, q, source, d);
    if q.uploadID in w.repo.entries || answer.Refused? then
      if removed then AbortProtectStep(written, v) else CrashStep(written)
    else if answer.Done? then CommitProtectStep(written, v)
    else if removed then CleanUpStep(CommitDoubtedStep(written, v), v)
    else CrashStep(CommitDoubtedStep(written, v))
  }

  lemma WrittenKeeps(cfg: Config, w: World, q: Request, source: Bytes, d: Draw)
    requires Inv(cfg, w) && ValidRing(w.ring) && ValidDraw(d) && FreshVersion(w, d.versionID)
    requires CheckRequest(cfg, q, source).Success? && Honest(w, q, source)
    ensures Inv(cfg, Write(w, q, source, d))
  {
    hide Inv, CheckRequest, FreshVersion, Write, AimsAt, Committed;
    WriteKeeps(cfg, w, q, source, d);
  }

  /** However the insert ends, the invariant holds and the store is at rest again. */
  lemma EndedKeeps(cfg: Config, w: World, q: Request, source: Bytes, d: Draw, answer: Answer, removed: bool)
    requires Inv(cfg, w) && ValidRing(w.ring) && ValidDraw(d) && FreshVersion(w, d.versionID)
    requires CheckRequest(cfg, q, source).Success? && Honest(w, q, source)
    ensures Inv(cfg, Ended(w, q, source, d, answer, removed))
  {
    hide Inv, CheckRequest, FreshVersion, Write, AbortProtectStep, CommitProtectStep, CommitDoubtedStep, CleanUpStep,
         CrashStep, Honest;
    var v := d.versionID;
    var written := Write(w, q, source, d);
    WrittenKeeps(cfg, w, q, source, d);
    AbortProtectKeeps(cfg, written, v);
    CrashKeeps(cfg, written);
    CommitProtectKeeps(cfg, written, v);
    CommitDoubtedKeeps(cfg, written, v);
    CleanUpKeeps(cfg, CommitDoubtedStep(written, v), v);
    CrashKeeps(cfg, CommitDoubtedStep(written, v));
  }

  /** The same store, field by field. */
  lemma EndedIs(w: World, q: Request, source: Bytes, d: Draw, answer: Answer, removed: bool)
    requires ValidRing(w.ring) && FreshVersion(w, d.versionID) && w.inFlight == map[] && w.cleaning == {}
    ensures
      var m := NewMetadata(w.ring, q, d);
      var known := q.uploadID in w.repo.entries;
      && m.uploadID == q.uploadID && m.blobObject !in w.blobs
      && Ended(w, q, source, d, answer, removed) == World(
        w.ring,
        if removed && (known || !answer.Done?) then w.blobs[m.blobObject := Seal(m, d.dek, source)] - {m.blobObject}
        else w.blobs[m.blobObject := Seal(m, d.dek, source)],
        map[], {},
        if known || answer.Refused? then w.repo else w.repo.(entries := w.repo.entries[q.uploadID := m]),
        w.content[d.versionID := source])
  {
    hide Wrap, Lower, Seal;
    assert Write(w, q, source, d).inFlight - {d.versionID} == map[];
  }

  lemma NewEntry(w: World, q: Request, source: Bytes, d: Draw, answer: Answer, removed: bool)
    requires ValidRing(w.ring) && FreshVersion(w, d.versionID) && w.inFlight == map[] && w.cleaning == {}
    ensures q.uploadID !in w.repo.entries && answer.Done? ==>
              Ended(w, q, source, d, answer, removed).repo.entries
              == w.repo.entries[q.uploadID := NewMetadata(w.ring, q, d)]
  {
    EndedIs(w, q, source, d, answer, removed);
    hide Ended, NewMetadata, Seal;
  }

  /** What a new operation leaves: nothing if the insert was refused, and otherwise a version
      that opens to its source, unless the insert was doubtful and its object removed. */
  lemma EndedOpens(cfg: Config, w: World, q: Request, source: Bytes, d: Draw, answer: Answer, removed: bool)
    requires ValidRing(w.ring) && ValidDraw(d) && FreshVersion(w, d.versionID) && w.inFlight == map[] &&
             w.cleaning == {}
    requires CheckRequest(cfg, q, source).Success? && q.uploadID !in w.repo.entries
    ensures
      var w' := Ended(w, q, source, d, answer, removed);
      && (q.uploadID in w'.repo.entries <==> !answer.Refused?)
      && (!answer.Refused? ==>
            Open(cfg, w'.ring, w'.blobs, w'.repo.entries[q.uploadID])
            == if answer.Doubted? && removed then Failure(Integrity) else Success(source))
  {
    EndedIs(w, q, source, d, answer, removed);
    ProtectThenOpen(cfg, w.ring, w.blobs, q, source, d);
    var m := NewMetadata(w.ring, q, d);
    assert ValidMetadata(cfg, m);
    hide Ended, FreshVersion, CheckRequest, NewMetadata, ValidMetadata, Seal, Intact, Unwrap, WrappingIdentity, Bound,
         ValidRing;
  }

  lemma RestoreAllowed(cfg: Config, w: World, owner: string, f: string, source: string, m: Metadata)
    requires Inv(cfg, w) && Finds(w.repo, owner, f, source, m)
    ensures f in w.repo.files && f in w.repo.versions && w.repo.files[f].ownerID == owner &&
            RestoreGuard(w.repo, owner, f, source).Success?
  {}

  lemma GuardHasRows(cfg: Config, w: World, owner: string, f: string, source: string)
    requires Inv(cfg, w) && RestoreGuard(w.repo, owner, f, source).Success?
    ensures f in w.repo.files && f in w.repo.versions && w.repo.files[f].ownerID == owner
  {}

  lemma RecordKeeps(cfg: Config, w: World, owner: string, f: string, source: string, key: string)
    requires Inv(cfg, w) && RestoreGuard(w.repo, owner, f, source).Success?
    requires OperationID.Restore(owner, f, source, key) in w.repo.entries
    ensures
      var u := OperationID.Restore(owner, f, source, key);
      && f in w.repo.files && f in w.repo.versions && w.repo.files[f].ownerID == owner
      && w.repo.entries[u].uploadID == u && SourceIs(w.repo.versions[f], u, source)
      && Inv(cfg, w.(repo := CommitRestore(w.repo, owner, f, source, w.repo.entries[u])))
      && CommitRestore(w.repo, owner, f, source, w.repo.entries[u]).entries == w.repo.entries
  {
    var u := OperationID.Restore(owner, f, source, key);
    GuardHasRows(cfg, w, owner, f, source);
    hide Inv, CommitRestore, RestoreGuard, HasOperation, HasVersion, SourceIs, CommitRestoredStep;
    EntryNamed(cfg, w, u);
    CommitRestoredKeeps(cfg, w, owner, f, source, key);
    RestoreCommits(cfg, w, owner, f, source, key);
    CommitKeepsEntries(w.repo, owner, f, source, w.repo.entries[u]);
  }

  lemma GuardLooksAtRows(r: Repo, r': Repo, owner: string, f: string, source: string)
    requires r'.files == r.files && r'.versions == r.versions
    ensures RestoreGuard(r', owner, f, source) == RestoreGuard(r, owner, f, source)
  {}

  lemma RingIsValid(cfg: Config, w: World)
    requires Inv(cfg, w)
    ensures ValidRing(w.ring)
  {}

  /** What an owner finds in an active file has its key, and opens to its bytes exactly while
      its object is in place. */
  lemma FoundOpens(cfg: Config, w: World, owner: string, f: string, v: string, m: Metadata)
    requires Inv(cfg, w) && Finds(w.repo, owner, f, v, m)
    ensures Live(m) && v in w.content && m.versionID == v && m.ownerID == owner
    ensures Open(cfg, w.ring, w.blobs, m) == if Blob(v) in w.blobs then Success(w.content[v]) else Failure(Integrity)
  {
    FoundIsKept(cfg, w, owner, f, v, m);
    hide Inv, Open, Finds, Keeps;
    KeptOpens(cfg, w, v, m.uploadID);
  }

  lemma FoundIsKept(cfg: Config, w: World, owner: string, f: string, v: string, m: Metadata)
    requires Inv(cfg, w) && Finds(w.repo, owner, f, v, m)
    ensures Keeps(w, v, m.uploadID) && w.repo.entries[m.uploadID] == m && m.ownerID == owner
  {
    hide CleaningOK, GrantsOK, Lineage, RestoresFaithful, HasOperation, Aimed, Readable;
    var r := w.repo;
    assert History(f, r.files[f], r.versions[f], r.entries);
    var i :| 0 <= i < |r.versions[f]| && r.versions[f][i].versionID == v;
    assert r.versions[f][i].operationID == m.uploadID;
  }

  lemma CurrentIsFound(cfg: Config, w: World, owner: string, f: string)
    requires Inv(cfg, w) && f in w.repo.files && w.repo.files[f].ownerID == owner && w.repo.files[f].Active()
    ensures exists m :: Finds(w.repo, owner, f, w.repo.files[f].currentVersionID, m)
  {
    hide CleaningOK, GrantsOK, Lineage, RestoresFaithful, HasOperation, Readable, LifecycleOK, HasVersion, History,
         Aimed, EntriesOK;
    var r := w.repo;
    assert History(f, r.files[f], r.versions[f], r.entries);
    Head(f, r.files[f], r.versions[f], r.entries);
    hide HistoriesOK;
    EntryNamed(cfg, w, r.versions[f][0].operationID);
    assert Finds(r, owner, f, r.files[f].currentVersionID, r.entries[r.versions[f][0].operationID]);
  }

  lemma RestoreWellFormed(cfg: Config, ring: Keyring, blobs: Blobs, owner: string, f: string, source: string,
                          key: string, m: Metadata)
    requires m.ownerID == owner && Open(cfg, ring, blobs, m).Success?
    ensures CheckRequest(cfg, RestoreRequest(owner, f, source, key, m), Open(cfg, ring, blobs, m).value).Success?
  {}

  lemma RestoreHonest(w: World, owner: string, f: string, source: string, key: string, m: Metadata)
    requires Finds(w.repo, owner, f, source, m) && source in w.content
    requires Aimed(w.inFlight, w.repo.entries, w.repo.versions)
    ensures Honest(w, RestoreRequest(owner, f, source, key, m), w.content[source])
  {
    assert w.repo.entries[m.uploadID].versionID == source;
  }

  /** Protecting a restore with what its source opened to is honest and well formed. */
  lemma HonestRestore(cfg: Config, w: World, owner: string, f: string, source: string, key: string, m: Metadata)
    requires Inv(cfg, w) && Finds(w.repo, owner, f, source, m) && Open(cfg, w.ring, w.blobs, m).Success?
    ensures source in w.content && Open(cfg, w.ring, w.blobs, m).value == w.content[source]
    ensures Honest(w, RestoreRequest(owner, f, source, key, m), w.content[source])
    ensures CheckRequest(cfg, RestoreRequest(owner, f, source, key, m), w.content[source]).Success?
  {
    hide Open, Finds, CheckRequest, Honest, RestoreRequest, Blob, EntriesOK, CleaningOK, Readable, RestoresFaithful,
         Lineage, Aimed, HistoriesOK, LifecycleOK, GrantsOK;
    FoundOpens(cfg, w, owner, f, source, m);
    RestoreWellFormed(cfg, w.ring, w.blobs, owner, f, source, key, m);
    RestoreHonest(w, owner, f, source, key, m);
  }

  /** An earlier attempt's version, committed or not yet in the history, was sealed from the
      source's bytes, and opens to them while its own object is in place. */
  lemma EarlierAttemptOpens(cfg: Config, w: World, owner: string, f: string, source: string, key: string, m: Metadata)
    requires Inv(cfg, w) && Finds(w.repo, owner, f, source, m)
    requires OperationID.Restore(owner, f, source, key) in w.repo.entries
    ensures
      var again := w.repo.entries[OperationID.Restore(owner, f, source, key)];
      && source in w.content
      && Open(cfg, w.ring, w.blobs, again)
         == if Blob(again.versionID) in w.blobs then Success(w.content[source]) else Failure(Integrity)
  {
    hide CleaningOK, GrantsOK, Lineage, HasVersion, History, Open, HasOperation, Aimed, Readable, EntriesOK;
    var u := OperationID.Restore(owner, f, source, key);
    KeyOfOpenFile(w.repo, u);
    assert SameBytes(w.content, w.repo.entries[u].versionID, source);
    hide HistoriesOK, LifecycleOK, RestoresFaithful;
    KeptOpens(cfg, w, w.repo.entries[u].versionID, u);
  }

  /** The key of a restore into a file that is not purged exists. */
  lemma KeyOfOpenFile(r: Repo, u: OperationID)
    requires HistoriesOK(r.files, r.versions, r.entries) && LifecycleOK(r.files, r.versions, r.entries, r.purges)
    requires u in r.entries && u.Restore? && u.file in r.files && r.files[u.file].purgedAt == None
    ensures Live(r.entries[u])
  {
    hide HistoriesOK;
    assert u.file in r.versions by { FilesHaveHistories(r.files, r.versions, r.entries); }
    if HasOperation(r.versions[u.file], u) {
      var i :| 0 <= i < |r.versions[u.file]| && r.versions[u.file][i].operationID == u;
    } else {
      hide LifecycleOK, HasOperation;
      RestoreUnowned(r.files, r.versions, r.entries, u);
      UnownedIsLive(r.files, r.versions, r.entries, r.purges, u);
    }
  }

  lemma FilesHaveHistories(files: Files, versions: Histories, entries: Entries)
    requires HistoriesOK(files, versions, entries)
    ensures files.Keys == versions.Keys
  {}

  /** Committing the restore is the store's own step, and it cannot be refused now. */
  lemma RestoreCommits(cfg: Config, w: World, owner: string, f: string, source: string, key: string)
    requires Inv(cfg, w) && OperationID.Restore(owner, f, source, key) in w.repo.entries && f in w.repo.versions &&
             f in w.repo.files
    ensures
      var u := OperationID.Restore(owner, f, source, key);
      && CommitRestoredStep(w, owner, f, source, key) ==
         w.(repo := CommitRestore(w.repo, owner, f, source, w.repo.entries[u]))
      && SourceIs(w.repo.versions[f], u, source)
  {
    var u := OperationID.Restore(owner, f, source, key);
    assert w.repo.entries[u].ownerID == owner && History(f, w.repo.files[f], w.repo.versions[f], w.repo.entries);
    hide Inv, CommitRestore, SourceIs, History;
    SourcesAgree(f, w.repo.files[f], w.repo.versions[f], w.repo.entries, u);
  }

  lemma SourcesAgree(f: string, file: File, vs: seq<Version>, entries: Entries, u: OperationID)
    requires History(f, file, vs, entries) && u.Restore?
    ensures SourceIs(vs, u, u.source)
  {
    hide HasVersion;
  }

  lemma Head(f: string, file: File, vs: seq<Version>, entries: Entries)
    requires History(f, file, vs, entries)
    ensures HasVersion(vs, file.currentVersionID)
    ensures vs != [] && vs[0].operationID in entries && entries[vs[0].operationID].versionID == file.currentVersionID
  {
    assert vs[0].versionID == file.currentVersionID;
  }

  /** The end of a restore: the file moves to the new version, once per operation. */
  method Record(repo: MemoryRepository, owner: string, f: string, source: string, key: string, again: Metadata)
    returns (r: Outcome<Version>)
    requires repo.Valid() && f in repo.files && f in repo.versions && repo.files[f].ownerID == owner
    requires RestoreGuard(repo.State(), owner, f, source).Success?
    requires again.uploadID == OperationID.Restore(owner, f, source, key) &&
             SourceIs(repo.versions[f], again.uploadID, source)
    modifies repo`files, repo`versions
    ensures repo.Valid() && repo.State() == CommitRestore(old(repo.State()), owner, f, source, again)
    ensures r.Success? && f in repo.versions && r.value in repo.versions[f]
    ensures r.value.operationID == OperationID.Restore(owner, f, source, key) && r.value.sourceVersionID == Some(source)
    ensures HasOperation(repo.versions[f], r.value.operationID)
  {
    hide CommitRestore, RestoreGuard, HasOperation, SourceIs;
    r := repo.CommitRestore(owner, f, source, again);
    HoldsOperation(repo.versions[f], r.value);
  }

  lemma HoldsOperation(vs: seq<Version>, v: Version)
    requires v in vs
    ensures HasOperation(vs, v.operationID)
  {}

  /** A new version of this draw, for the same owner, with the size, digest, media type and
      inspection record of the one it was made from. */
  ghost predicate MadeFrom(m: Metadata, source: Metadata, d: Draw) {
    && m.versionID == d.versionID && m.createdAt == d.now && m.ownerID == source.ownerID
    && m.plaintextSize == source.plaintextSize && m.mediaType == source.mediaType
    && EqualFold(source.plaintextDigest, m.plaintextDigest)
    && m.inspectionRecordID == source.inspectionRecordID
  }

  class ProtectedStore {
    const cfg: Config
    const repo: MemoryRepository
    const ring: Keyring
    var blobs: Blobs
    ghost var content: Content

    /** At rest nothing is in flight and nothing waits to be removed. */
    ghost function State(): World
      reads this, repo
    {
      World(ring, blobs, map[], {}, repo.State(), content)
    }

    constructor (cfg: Config, ring: Keyring, repo: MemoryRepository)
      ensures this.cfg == cfg && this.repo == repo && this.ring == ring && blobs == map[] && content == map[]
    {
      this.cfg, this.repo, this.ring, blobs, content := cfg, repo, ring, map[], map[];
    }

    /** Protects one upload or restore. The operation ID is the idempotency boundary: a known
        one returns the committed version and writes nothing. A new one writes one object and
        inserts its metadata; whenever that reports an error the object is removed, which, if
        the insert took effect all the same, leaves a version that does not open. */
    method Protect(q: Request, source: Bytes, d: Draw, answer: Answer, removed: bool) returns (r: Outcome<Metadata>)
      requires Inv(cfg, State()) && repo.Valid() && ValidDraw(d) && FreshVersion(State(), d.versionID)
      requires Honest(State(), q, source)
      modifies this`blobs, this`content, repo
      ensures Inv(cfg, State()) && repo.Valid() && ValidRing(ring)
      ensures
        var known := q.uploadID in old(repo.entries) && old(repo.entries)[q.uploadID].ownerID == q.ownerID;
        && (if known || CheckRequest(cfg, q, source).Failure? then State() == old(State())
            else State() == Ended(old(State()), q, source, d, answer, removed))
        && (r.Success? <==> known || (CheckRequest(cfg, q, source).Success? && answer.Done?))
        && (r.Success? ==> q.uploadID in repo.entries && r.value == repo.entries[q.uploadID])
        && (r.Failure? ==> r.error == if CheckRequest(cfg, q, source).Failure? then CheckRequest(cfg, q, source).error
            else Database)
      ensures
        var inOrder := q.uploadID != Upload("") && q.ownerID != "" && 1 <= q.plaintextSize <= cfg.maxPlaintext &&
                       |q.plaintextDigest| == 64;
        var matches := |source| == q.plaintextSize && EqualFold(cfg.digest(source), q.plaintextDigest);
        q.uploadID !in old(repo.entries) ==>
          && (r == Failure(InvalidEnvelope) <==> !inOrder)
          && (r == Failure(Integrity) <==> inOrder && !matches)
          && (r == Failure(Database) <==> inOrder && matches && !answer.Done?)
          && (!inOrder || !matches ==> State() == old(State()))
      ensures r.Success? && q.uploadID !in old(repo.entries) ==>
                && r.value.uploadID == q.uploadID && r.value.versionID == d.versionID && r.value.ownerID == q.ownerID
                && r.value.blobObject == d.versionID + ".ciphertext"
                && r.value.plaintextSize == |source| && r.value.mediaType == q.mediaType
                && r.value.inspectionRecordID == q.inspectionRecordID && r.value.createdAt == d.now
                && EqualFold(q.plaintextDigest, r.value.plaintextDigest)
                && (LowerHex(cfg.digest(source)) ==> r.value.plaintextDigest == cfg.digest(source))
    {
      RingIsValid(cfg, State());
      RequestAcceptedIff(cfg, q, source);
      if CheckRequest(cfg, q, source).Success? {
        RecordedFields(cfg, ring, q, source, d);
        NewEntry(State(), q, source, d, answer, removed);
      }
      hide Inv, CheckRequest, Honest, FreshVersion, Ended, ValidRing, NewMetadata, EqualFold, LowerHex;
      if q.uploadID in repo.entries && repo.entries[q.uploadID].ownerID == q.ownerID {
        return Success(repo.entries[q.uploadID]);
      }
      var checked := CheckRequest(cfg, q, source);
      if checked.Failure? { return Failure(checked.error); }
      EndedKeeps(cfg, State(), q, source, d, answer, removed);
      r := WriteAndInsert(q, source, d, answer, removed);
    }

    /** The object first, then its metadata; and the object again, if that reports an error. */
    method WriteAndInsert(q: Request, source: Bytes, d: Draw, answer: Answer, removed: bool)
      returns (r: Outcome<Metadata>)
      requires repo.Valid() && ValidRing(ring) && FreshVersion(State(), d.versionID)
      modifies this`blobs, this`content, repo
      ensures repo.Valid() && State() == Ended(old(State()), q, source, d, answer, removed)
      ensures if answer.Done? then q.uploadID in repo.entries && r == Success(repo.entries[q.uploadID])
              else r == Failure(Database)
    {
      EndedIs(State(), q, source, d, answer, removed);
      hide Seal, NewMetadata, FreshVersion, Ended, ValidRing;
      var m := NewMetadata(ring, q, d);
      blobs, content := blobs[m.blobObject := Seal(m, d.dek, source)], content[d.versionID := source];
      var stored, existing := m, false;
      if !answer.Refused? { stored, existing := repo.Create(m); }
      if removed && (existing || !answer.Done?) { blobs := blobs - {m.blobObject}; }
      return if answer.Done? then Success(stored) else Failure(Database);
    }

    /** Opens the current version of an active file, for its owner, while its object is there. */
    method OpenCurrent(owner: string, f: string) returns (r: Outcome<Bytes>)
      requires Inv(cfg, State()) && repo.Valid()
      ensures r.Success? <==>
                && f in repo.files && repo.files[f].ownerID == owner && repo.files[f].Active()
                && Blob(repo.files[f].currentVersionID) in blobs
      ensures r.Success? ==>
              repo.files[f].currentVersionID in content && r.value == content[repo.files[f].currentVersionID]
      ensures r.Failure? ==>
                r.error == if f in repo.files && repo.files[f].ownerID == owner && repo.files[f].Active() then Integrity
                    else NotFound
    {
      if f !in repo.files || repo.files[f].ownerID != owner || !repo.files[f].Active() { return Failure(NotFound); }
      CurrentIsFound(cfg, State(), owner, f);
      hide Inv, Open, Blob;
      var found := repo.FindVersion(owner, f, repo.files[f].currentVersionID);
      FoundOpens(cfg, State(), owner, f, repo.files[f].currentVersionID, found.value);
      r := Open(cfg, ring, blobs, found.value);
    }

    /** The source is found with its object in place, the key is valid, and the insert is
        answered or was made by an earlier attempt. */
    ghost predicate Ready(owner: string, f: string, source: string, key: string, answer: Answer)
      reads this, repo
    {
      && (exists m :: Finds(repo.State(), owner, f, source, m)) && Blob(source) in blobs
      && 8 <= |key| <= 128
      && (answer.Done? || OperationID.Restore(owner, f, source, key) in repo.entries)
    }

    /** Restores an older version: authenticates it, protects its bytes again under a new data
        key, and makes them the file's current version. What becomes current was sealed from
        the source's bytes and opens to them, unless it is an earlier attempt's version whose
        object is gone: a retry takes that over without opening it. The file moves whenever the
        last commit takes effect, and the call succeeds when that is answered too. */
    method Restore(owner: string, f: string, source: string, key: string, d: Draw, answer: Answer, removed: bool,
                   committed: Answer)
      returns (r: Outcome<Version>)
      requires Inv(cfg, State()) && repo.Valid() && ValidDraw(d) && FreshVersion(State(), d.versionID)
      modifies this`blobs, this`content, repo
      ensures Inv(cfg, State()) && repo.Valid()
      ensures r.Success? <==> old(Ready(owner, f, source, key, answer)) && committed.Done?
      ensures !old(Ready(owner, f, source, key, answer)) || committed.Refused? ==>
                repo.State() == old(repo.State()).(entries := repo.entries)
      ensures old(Ready(owner, f, source, key, answer)) && !committed.Refused? ==>
                var u := OperationID.Restore(owner, f, source, key);
                && u in repo.entries && f in repo.versions && HasOperation(repo.versions[f], u)
                && repo.State()
                   == CommitRestore(old(repo.State()).(entries := repo.entries), owner, f, source, repo.entries[u])
                && source in old(content)
                && Open(cfg, ring, blobs, repo.entries[u]) ==
                   (if Blob(repo.entries[u].versionID) in blobs then Success(old(content)[source])
                    else Failure(Integrity))
                && (u !in old(repo.entries) ==>
                      && Blob(repo.entries[u].versionID) in blobs
                      && exists m ::
                           Finds(old(repo.State()), owner, f, source, m) && MadeFrom(repo.entries[u], m, d))
      ensures r.Success? ==>
                && r.value in repo.versions[f]
                && r.value.operationID == OperationID.Restore(owner, f, source, key) &&
                   r.value.sourceVersionID == Some(source)
    {
      hide Inv, Open, Finds, FreshVersion, RestoreGuard, HasOperation, HasVersion, Blob, Ended, MadeFrom;
      ghost var w := State();
      var found := repo.FindVersion(owner, f, source);
      if found.Failure? { return Failure(found.error); }
      var m := found.value;
      FoundOpens(cfg, w, owner, f, source, m);
      var plain := Open(cfg, ring, blobs, m);
      if plain.Failure? { return Failure(Integrity); }
      if !ValidIdempotencyKey(key) { return Failure(InvalidKey); }
      RestoreAllowed(cfg, w, owner, f, source, m);
      var protected := Reprotect(owner, f, source, key, m, d, answer, removed);
      if protected.Failure? { return Failure(protected.error); }
      GuardLooksAtRows(w.repo, repo.State(), owner, f, source);
      RecordKeeps(cfg, State(), owner, f, source, key);
      ghost var written, kept := blobs, content;
      if committed.Refused? { return Failure(Database); }
      r := Record(repo, owner, f, source, key, protected.value);
      assert blobs == written && content == kept;
      if committed.Doubted? { r := Failure(Database); }
    }

    /** The middle of a restore: the source's bytes under the restore's own operation ID, by
        this call or an earlier one. */
    method Reprotect(owner: string, f: string, source: string, key: string, m: Metadata, d: Draw, answer: Answer,
                     removed: bool)
      returns (r: Outcome<Metadata>)
      requires Inv(cfg, State()) && repo.Valid() && ValidDraw(d) && FreshVersion(State(), d.versionID)
      requires Finds(repo.State(), owner, f, source, m) && Open(cfg, ring, blobs, m).Success?
      modifies this`blobs, this`content, repo
      ensures Inv(cfg, State()) && repo.Valid()
      ensures repo.State() == old(repo.State()).(entries := repo.entries)
      ensures r.Success? <==> answer.Done? || OperationID.Restore(owner, f, source, key) in old(repo.entries)
      ensures r.Success? ==>
                var u := OperationID.Restore(owner, f, source, key);
                && u in repo.entries && r.value == repo.entries[u] && source in old(content)
                && Open(cfg, ring, blobs, r.value)
                   == (if Blob(r.value.versionID) in blobs then Success(old(content)[source]) else Failure(Integrity))
                && (u !in old(repo.entries) ==> Blob(r.value.versionID) in blobs && MadeFrom(r.value, m, d))
    {
      ghost var w := State();
      ghost var bytes := Open(cfg, ring, blobs, m).value;
      assert |bytes| == m.plaintextSize && m.ownerID == owner;
      HonestRestore(cfg, w, owner, f, source, key, m);
      var u := OperationID.Restore(owner, f, source, key);
      var q := RestoreRequest(owner, f, source, key, m);
      RestoreKnown(cfg, w, owner, f, source, key, m);
      RingIsValid(cfg, w);
      if u !in repo.entries { RestoreEnds(cfg, w, q, w.content[source], d, answer, removed); }
      hide Inv, Honest, CheckRequest, Finds, FreshVersion, Open, Ended, Blob, ValidRing;
      var plain := Open(cfg, ring, blobs, m);
      r := Protect(q, plain.value, d, answer, removed);
    }
  }

  /** The owner is part of a restore's ID, so a known one is found by its owner. */
  lemma RestoreKnown(cfg: Config, w: World, owner: string, f: string, source: string, key: string, m: Metadata)
    requires Inv(cfg, w) && Finds(w.repo, owner, f, source, m)
    ensures
      var u := OperationID.Restore(owner, f, source, key);
      u in w.repo.entries ==>
        && w.repo.entries[u].ownerID == owner && source in w.content
        && Open(cfg, w.ring, w.blobs, w.repo.entries[u])
           == if Blob(w.repo.entries[u].versionID) in w.blobs then Success(w.content[source]) else Failure(Integrity)
  {
    var u := OperationID.Restore(owner, f, source, key);
    if u in w.repo.entries {
      assert w.repo.entries[u].ownerID == u.owner;
      hide Inv, Finds, Open, Blob;
      EarlierAttemptOpens(cfg, w, owner, f, source, key, m);
    }
  }

  /** A restore's own commit touches nothing but its envelope, and what it commits opens. */
  lemma RestoreEnds(cfg: Config, w: World, q: Request, source: Bytes, d: Draw, answer: Answer, removed: bool)
    requires ValidRing(w.ring) && ValidDraw(d) && FreshVersion(w, d.versionID) && w.inFlight == map[] &&
             w.cleaning == {}
    requires CheckRequest(cfg, q, source).Success? && q.uploadID !in w.repo.entries
    ensures
      var w' := Ended(w, q, source, d, answer, removed);
      && w'.repo == w.repo.(entries := w'.repo.entries)
      && (answer.Done? ==>
            && q.uploadID in w'.repo.entries && Blob(w'.repo.entries[q.uploadID].versionID) in w'.blobs
            && Open(cfg, w'.ring, w'.blobs, w'.repo.entries[q.uploadID]) == Success(source))
  {
    EndedOpens(cfg, w, q, source, d, answer, removed);
    EndedIs(w, q, source, d, answer, removed);
    assert NewMetadata(w.ring, q, d).blobObject == Blob(NewMetadata(w.ring, q, d).versionID);
    hide Ended, Open, FreshVersion, CheckRequest, NewMetadata, Seal, Blob;
  }

  lemma CommitKeepsEntries(r: Repo, owner: string, f: string, source: string, m: Metadata)
    ensures CommitRestore(r, owner, f, source, m).entries == r.entries
  {
    hide HasOperation, RestoreGuard;
  }
}
