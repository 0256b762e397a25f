/** The life of one file, from its upload to its purge, in which every step does what it is
    there for; and four lives that end otherwise. */
module StoreExample {
  import opened Wrappers
  import opened Framing
  import opened Envelope
  import opened StoreModel
  import opened StoreInvariant
  import opened StoreSteps
  import opened StoreProtect
  import opened StoreWorker
  import opened StoreDeletions

  lemma OneStep(cfg: Config, w: World, events: seq<Event>, e: Event)
    ensures Run(cfg, w, events + [e]) == Next(cfg, Run(cfg, w, events), e)
  {
    hide Next;
    assert (events + [e])[..|events|] == events;
  }

  lemma ThreeSteps(cfg: Config, w: World, e1: Event, e2: Event, e3: Event)
    ensures Run(cfg, w, [e1, e2, e3]) == Next(cfg, Next(cfg, Next(cfg, w, e1), e2), e3)
  {
    OneStep(cfg, w, [], e1);
    OneStep(cfg, w, [e1], e2);
    OneStep(cfg, w, [e1, e2], e3);
    hide Next;
    assert [] + [e1] == [e1] && [e1] + [e2] == [e1, e2] && [e1, e2] + [e3] == [e1, e2, e3];
  }

  lemma FourSteps(cfg: Config, w: World, e1: Event, e2: Event, e3: Event, e4: Event)
    ensures Run(cfg, w, [e1, e2, e3, e4]) == Next(cfg, Next(cfg, Next(cfg, Next(cfg, w, e1), e2), e3), e4)
  {
    ThreeSteps(cfg, w, e1, e2, e3);
    OneStep(cfg, w, [e1, e2, e3], e4);
    hide Next;
    assert [e1, e2, e3] + [e4] == [e1, e2, e3, e4];
  }

  function Stored(ring: Keyring, q: Request, source: Bytes, d: Draw): World
    requires ValidRing(ring)
  {
    var m := NewMetadata(ring, q, d);
    World(ring, map[m.blobObject := Seal(m, d.dek, source)], map[], {}, EmptyRepo().(entries := map[q.uploadID := m]),
          map[d.versionID := source])
  }

  function Listed(ring: Keyring, q: Request, source: Bytes, d: Draw): World
    requires ValidRing(ring)
  {
    var m := NewMetadata(ring, q, d);
    Stored(ring, q, source, d).(repo := Repo(
      map[q.uploadID := m],
      map["f1" := File(q.ownerID, "report", m.versionID, m.createdAt, m.createdAt, None, None, None, false, "", None)],
      map["f1" := [Version(d.versionID, None, q.uploadID, 1, q.plaintextSize, q.mediaType, InitialUpload, true,
                           d.now)]],
      map[], map[]))
  }

  /** Uploaded and committed. */
  lemma Uploading(cfg: Config, ring: Keyring, q: Request, source: Bytes, d: Draw)
    requires ValidRing(ring) && ValidDraw(d) && q.uploadID.Upload? && CheckRequest(cfg, q, source).Success?
    ensures
      var w := Next(cfg, EmptyWorld(ring), StartProtect(q, source, d));
      Next(cfg, w, CommitProtect(d.versionID)) == Stored(ring, q, source, d)
  {
    hide CheckRequest, ValidRing, ValidDraw, Wrap, Lower, Seal;
    var w := Next(cfg, EmptyWorld(ring), StartProtect(q, source, d));
    assert w == Write(EmptyWorld(ring), q, source, d);
    assert w.inFlight - {d.versionID} == map[];
  }

  /** And listed as a file. */
  lemma Listing(cfg: Config, ring: Keyring, q: Request, source: Bytes, d: Draw)
    requires ValidRing(ring) && q.uploadID.Upload?
    ensures Next(cfg, Stored(ring, q, source, d), Register(q.ownerID, "report", q.uploadID, "f1")) ==
            Listed(ring, q, source, d)
  {
    hide ValidRing, Wrap, Lower, Seal, HasOperation;
  }

  /** An accepted upload becomes a file that opens to its bytes. */
  lemma UploadedFileOpens(cfg: Config, ring: Keyring, q: Request, source: Bytes, d: Draw)
    requires ValidRing(ring) && ValidDraw(d) && q.uploadID.Upload? && CheckRequest(cfg, q, source).Success?
    ensures
      Run(cfg, EmptyWorld(ring),
          [StartProtect(q, source, d), CommitProtect(d.versionID), Register(q.ownerID, "report", q.uploadID, "f1")])
      == Listed(ring, q, source, d)
    ensures
      var w := Listed(ring, q, source, d);
      && Open(cfg, w.ring, w.blobs, w.repo.entries[q.uploadID]) == Success(source)
      && Authorized(w.repo, q.ownerID, "f1", Read, 0)
  {
    ProtectThenOpen(cfg, ring, map[], q, source, d);
    hide Next, Run, Open, Intact, CheckRequest, ValidRing;
    ThreeSteps(cfg, EmptyWorld(ring), StartProtect(q, source, d), CommitProtect(d.versionID),
               Register(q.ownerID, "report", q.uploadID, "f1"));
    Uploading(cfg, ring, q, source, d);
    Listing(cfg, ring, q, source, d);
  }

  /** The file after its move to the trash at instant 0. */
  function Trashed(ring: Keyring, q: Request, source: Bytes, d: Draw): World
    requires ValidRing(ring)
  {
    var w := Listed(ring, q, source, d);
    w.(repo := w.repo.(files :=
                       map["f1" := w.repo.files["f1"].(deletedAt := Some(0), purgeAfter := Some(GRACE),
                                                       updatedAt := 0)]))
  }

  lemma Trashing(cfg: Config, ring: Keyring, q: Request, source: Bytes, d: Draw)
    requires ValidRing(ring)
    ensures Next(cfg, Listed(ring, q, source, d), Trash(q.ownerID, "f1", 0)) == Trashed(ring, q, source, d)
    ensures !Authorized(Trashed(ring, q, source, d).repo, q.ownerID, "f1", Read, 0)
  {
    hide ValidRing, NewMetadata, Seal;
    assert RevokeAll(map[], "f1", 0) == map[];
  }

  /** In the trash for thirty days it can be purged: its one key goes, with its one object
      named, and it opens no more. */
  lemma TrashedFileIsPurged(cfg: Config, ring: Keyring, q: Request, source: Bytes, d: Draw)
    requires ValidRing(ring)
    ensures
      var op := PurgeID(q.ownerID, "f1", "purge-it");
      var w := Trashed(ring, q, source, d);
      var thirtyDays := 2_592_000_000_000;
      && PurgeOutcome(w.repo, op, thirtyDays - 1) == Failure(PurgeTooEarly)
      && PurgeOutcome(w.repo, op, thirtyDays)
         == Success(PurgeResult("f1", op, 1, thirtyDays, {d.versionID + ".ciphertext"}))
      && Purges(w.repo, op, thirtyDays)
      && Purge(w.repo, op, thirtyDays).entries[q.uploadID].wrappedDEK == None
  {
    OneKey(ring, q, source, d, Trashed(ring, q, source, d).repo);
    hide ValidRing, Seal, NewMetadata, Erased, ErasedObjects, RevokeAll;
  }

  /** The invariant holds all along, so each of these worlds meets the premises of the
      theorems about purges. */
  lemma InvariantAlong(cfg: Config, ring: Keyring, q: Request, source: Bytes, d: Draw)
    requires ValidRing(ring) && ValidDraw(d) && q.uploadID.Upload? && CheckRequest(cfg, q, source).Success?
    ensures Inv(cfg, Listed(ring, q, source, d)) && Inv(cfg, Trashed(ring, q, source, d))
    ensures Inv(cfg, Next(cfg, Trashed(ring, q, source, d), PurgeFile(PurgeID(q.ownerID, "f1", "purge-it"), GRACE)))
  {
    hide Inv, Run, Next, Open, CheckRequest, Listed, Trashed;
    UploadedFileOpens(cfg, ring, q, source, d);
    RunKeeps(cfg, ring, [StartProtect(q, source, d), CommitProtect(d.versionID),
                         Register(q.ownerID, "report", q.uploadID, "f1")]);
    StepKeeps(cfg, Listed(ring, q, source, d), Trash(q.ownerID, "f1", 0));
    Trashing(cfg, ring, q, source, d);
    StepKeeps(cfg, Trashed(ring, q, source, d), PurgeFile(PurgeID(q.ownerID, "f1", "purge-it"), GRACE));
  }

  lemma OneKey(ring: Keyring, q: Request, source: Bytes, d: Draw, r: Repo)
    requires ValidRing(ring)
    requires r.entries == Listed(ring, q, source, d).repo.entries &&
             r.versions == Listed(ring, q, source, d).repo.versions
    ensures Erased(r, "f1") == {q.uploadID} && ErasedObjects(r, "f1") == {Blob(d.versionID)}
  {
    var m := NewMetadata(ring, q, d);
    assert VersionsOf(r, "f1")[0].versionID == m.versionID;
    assert HasVersion(VersionsOf(r, "f1"), m.versionID);
    assert r.entries[q.uploadID] == m;
    hide HasVersion, Blob, Wrap, Lower;
    assert Erased(r, "f1") == {q.uploadID};
  }

  // --- Sharing -----------------------------------------------------------------

  /** The file shared with one recipient under grant g1. */
  function SharedWith(ring: Keyring, q: Request, source: Bytes, d: Draw, who: string, permission: Permission,
                      now: Time): World
    requires ValidRing(ring)
  {
    var w := Listed(ring, q, source, d);
    w.(repo := w.repo.(grants := map["g1" := Grant("f1", q.ownerID, who, permission, Some(100), now, None)]))
  }

  lemma Sharing(cfg: Config, ring: Keyring, q: Request, source: Bytes, d: Draw, who: string)
    requires ValidRing(ring) && who != q.ownerID
    ensures Next(cfg, Listed(ring, q, source, d), Share(q.ownerID, "f1", who, Read, Some(100), 1, "g1"))
            == SharedWith(ring, q, source, d, who, Read, 1)
    ensures Next(cfg, SharedWith(ring, q, source, d, who, Read, 1),
                 Share(q.ownerID, "f1", who, Download, Some(100), 2, "g1"))
            == SharedWith(ring, q, source, d, who, Download, 2)
  {
    hide ValidRing, NewMetadata, Seal;
    assert Unrevoked(SharedWith(ring, q, source, d, who, Read, 1).repo, "g1", "f1", who);
  }

  /** Shared for reading the file is read by the recipient and not downloaded; shared again
      for downloading it is downloaded; and from its expiry on it is neither. */
  lemma ReadIsNotDownload(cfg: Config, ring: Keyring, q: Request, source: Bytes, d: Draw, who: string, now: Time)
    requires ValidRing(ring) && who != q.ownerID
    ensures
      var w := Run(cfg, Listed(ring, q, source, d), [Share(q.ownerID, "f1", who, Read, Some(100), 1, "g1")]);
      && (Authorized(w.repo, who, "f1", Read, now) <==> now < 100)
      && !Authorized(w.repo, who, "f1", Download, now)
    ensures
      var w := Run(cfg, Listed(ring, q, source, d),
                   [Share(q.ownerID, "f1", who, Read, Some(100), 1, "g1"),
                    Share(q.ownerID, "f1", who, Download, Some(100), 2, "g1")]);
      Authorized(w.repo, who, "f1", Download, now) <==> now < 100
  {
    var read := Share(q.ownerID, "f1", who, Read, Some(100), 1, "g1");
    var download := Share(q.ownerID, "f1", who, Download, Some(100), 2, "g1");
    hide ValidRing, NewMetadata, Seal, Next;
    OneStep(cfg, Listed(ring, q, source, d), [], read);
    OneStep(cfg, Listed(ring, q, source, d), [read], download);
    assert [] + [read] == [read] && [read] + [download] == [read, download];
    Sharing(cfg, ring, q, source, d, who);
    hide Run;
    var r := SharedWith(ring, q, source, d, who, Read, 1).repo;
    var r' := SharedWith(ring, q, source, d, who, Download, 2).repo;
    assert "g1" in r.grants && "g1" in r'.grants;
    assert now < 100 ==> Allows(r.grants["g1"], "f1", who, Read, now);
    assert now < 100 ==> Allows(r'.grants["g1"], "f1", who, Download, now);
  }

  // --- A restore that outlives the purge -------------------------------------

  /** The restore of the listed file, with its object written. */
  function Restoring(ring: Keyring, q: Request, source: Bytes, d: Draw, key: string, again: Draw): World
    requires ValidRing(ring)
  {
    Write(Listed(ring, q, source, d), RestoreRequest(q.ownerID, "f1", d.versionID, key, NewMetadata(ring, q, d)),
          source, again)
  }

  lemma FirstOpens(cfg: Config, ring: Keyring, q: Request, source: Bytes, d: Draw)
    requires ValidRing(ring) && ValidDraw(d) && CheckRequest(cfg, q, source).Success?
    ensures Open(cfg, ring, Listed(ring, q, source, d).blobs, NewMetadata(ring, q, d)) == Success(source)
  {
    ProtectThenOpen(cfg, ring, map[], q, source, d);
    hide Open, Intact, CheckRequest, ValidRing;
  }

  lemma OtherIsFresh(ring: Keyring, q: Request, source: Bytes, d: Draw, again: Draw)
    requires ValidRing(ring) && again.versionID != d.versionID
    ensures FreshVersion(Listed(ring, q, source, d), again.versionID)
  {
    BlobInjective(d.versionID, again.versionID);
    hide Wrap, Lower, Blob;
  }

  lemma FirstIsFound(ring: Keyring, q: Request, source: Bytes, d: Draw)
    requires ValidRing(ring)
    ensures Finds(Listed(ring, q, source, d).repo, q.ownerID, "f1", d.versionID, NewMetadata(ring, q, d))
  {
    hide Wrap, Lower, Blob;
    assert Listed(ring, q, source, d).repo.versions["f1"][0].versionID == d.versionID;
  }

  lemma Starting(cfg: Config, ring: Keyring, q: Request, source: Bytes, d: Draw, key: string, again: Draw)
    requires ValidRing(ring) && ValidDraw(d) && ValidDraw(again) && q.uploadID.Upload? &&
             CheckRequest(cfg, q, source).Success?
    requires ValidIdempotencyKey(key) && again.versionID != d.versionID
    ensures
      Next(cfg, Listed(ring, q, source, d),
           StartRestore(q.ownerID, "f1", d.versionID, key, NewMetadata(ring, q, d), again))
      == Restoring(ring, q, source, d, key, again)
  {
    var w, m := Listed(ring, q, source, d), NewMetadata(ring, q, d);
    FirstOpens(cfg, ring, q, source, d);
    FirstIsFound(ring, q, source, d);
    OtherIsFresh(ring, q, source, d, again);
    RestoreWellFormed(cfg, ring, w.blobs, q.ownerID, "f1", d.versionID, key, m);
    assert w.repo.entries.Keys == {q.uploadID};
    hide Open, Finds, FreshVersion, CheckRequest, NewMetadata, Write, ValidRing, ValidDraw;
  }

  /** The same once its metadata is committed: protected, and in no history yet. */
  function Strayed(ring: Keyring, q: Request, source: Bytes, d: Draw, key: string, again: Draw): World
    requires ValidRing(ring)
  {
    var w := Restoring(ring, q, source, d, key, again);
    var m := NewMetadata(ring, RestoreRequest(q.ownerID, "f1", d.versionID, key, NewMetadata(ring, q, d)), again);
    w.(inFlight := map[], repo := w.repo.(entries := w.repo.entries[m.uploadID := m]))
  }

  lemma Straying(cfg: Config, ring: Keyring, q: Request, source: Bytes, d: Draw, key: string, again: Draw)
    requires ValidRing(ring) && q.uploadID.Upload?
    ensures Next(cfg, Restoring(ring, q, source, d, key, again), CommitProtect(again.versionID)) ==
            Strayed(ring, q, source, d, key, again)
  {
    hide Wrap, Lower, Seal, Blob, ValidRing;
    assert Restoring(ring, q, source, d, key, again).inFlight - {again.versionID} == map[];
  }

  lemma StrayOpens(cfg: Config, ring: Keyring, q: Request, source: Bytes, d: Draw, key: string, again: Draw)
    requires ValidRing(ring) && ValidDraw(d) && ValidDraw(again) && CheckRequest(cfg, q, source).Success?
    ensures
      var w := Strayed(ring, q, source, d, key, again);
      var u := OperationID.Restore(q.ownerID, "f1", d.versionID, key);
      u in w.repo.entries && Open(cfg, ring, w.blobs, w.repo.entries[u]) == Success(source)
  {
    var m := NewMetadata(ring, q, d);
    FirstOpens(cfg, ring, q, source, d);
    RestoreWellFormed(cfg, ring, Listed(ring, q, source, d).blobs, q.ownerID, "f1", d.versionID, key, m);
    var r := RestoreRequest(q.ownerID, "f1", d.versionID, key, m);
    ProtectThenOpen(cfg, ring, Listed(ring, q, source, d).blobs, r, source, again);
    hide Open, Intact, CheckRequest, Wrap, Lower, Seal, Blob, Listed, ValidRing;
  }

  lemma StrayIsSpared(r: Repo, op: PurgeID, now: Time, m: Metadata, u: OperationID)
    requires u in r.entries && VersionsOf(r, op.file) == [FirstVersion(m)] && r.entries[u].versionID != m.versionID
    ensures u in Purge(r, op, now).entries && Purge(r, op, now).entries[u] == r.entries[u]
  {
    hide PurgeGuard, ErasedObjects, RevokeAll;
  }

  /** A restore protected before its file is moved to the trash, and committed to the history
      never: after the purge its envelope still opens to the file's bytes. */
  lemma PurgeLeavesRestore(cfg: Config, ring: Keyring, q: Request, source: Bytes, d: Draw, key: string, again: Draw)
    requires ValidRing(ring) && ValidDraw(d) && ValidDraw(again) && q.uploadID.Upload? &&
             CheckRequest(cfg, q, source).Success?
    requires ValidIdempotencyKey(key) && again.versionID != d.versionID
    ensures
      var restore := StartRestore(q.ownerID, "f1", d.versionID, key, NewMetadata(ring, q, d), again);
      var purge := PurgeFile(PurgeID(q.ownerID, "f1", "purge-it"), GRACE);
      var w := Run(cfg, Listed(ring, q, source, d),
                   [restore, CommitProtect(again.versionID), Trash(q.ownerID, "f1", 0), purge]);
      var u := OperationID.Restore(q.ownerID, "f1", d.versionID, key);
      && "f1" in w.repo.files && w.repo.files["f1"].purgedAt == Some(GRACE)
      && u in w.repo.entries && Open(cfg, w.ring, w.blobs, w.repo.entries[u]) == Success(source)
  {
    hide Run, Open, CheckRequest, ValidRing, ValidDraw, ValidIdempotencyKey;
    var op := PurgeID(q.ownerID, "f1", "purge-it");
    FourSteps(cfg, Listed(ring, q, source, d),
              StartRestore(q.ownerID, "f1", d.versionID, key, NewMetadata(ring, q, d), again),
              CommitProtect(again.versionID), Trash(q.ownerID, "f1", 0), PurgeFile(op, GRACE));
    Starting(cfg, ring, q, source, d, key, again);
    Straying(cfg, ring, q, source, d, key, again);
    StrayOpens(cfg, ring, q, source, d, key, again);
    StrayPurged(cfg, ring, q, source, d, key, again);
  }

  lemma StrayPurged(cfg: Config, ring: Keyring, q: Request, source: Bytes, d: Draw, key: string, again: Draw)
    requires ValidRing(ring) && again.versionID != d.versionID
    ensures
      var w0 := Strayed(ring, q, source, d, key, again);
      var w := Next(cfg, Next(cfg, w0, Trash(q.ownerID, "f1", 0)),
                    PurgeFile(PurgeID(q.ownerID, "f1", "purge-it"), GRACE));
      var u := OperationID.Restore(q.ownerID, "f1", d.versionID, key);
      && "f1" in w.repo.files && w.repo.files["f1"].purgedAt == Some(GRACE)
      && w.ring == w0.ring && w.blobs == w0.blobs
      && u in w0.repo.entries && u in w.repo.entries && w.repo.entries[u] == w0.repo.entries[u]
  {
    hide Wrap, Lower, Seal, Blob, ValidRing, RevokeAll, Erased, ErasedObjects, Destroy, HasVersion;
    var w0 := Strayed(ring, q, source, d, key, again);
    var w1 := Next(cfg, w0, Trash(q.ownerID, "f1", 0));
    StrayIsSpared(w1.repo, PurgeID(q.ownerID, "f1", "purge-it"), GRACE, NewMetadata(ring, q, d),
                  OperationID.Restore(q.ownerID, "f1", d.versionID, key));
  }

  // --- Lost objects ----------------------------------------------------------

  /** The insert takes effect and is answered with an error, the object is removed, and the
      upload, found again by its metadata, is listed: a file that does not open. */
  lemma ListedAndLost(cfg: Config, ring: Keyring, q: Request, source: Bytes, d: Draw)
    requires ValidRing(ring) && ValidDraw(d) && q.uploadID.Upload? && CheckRequest(cfg, q, source).Success?
    ensures
      var w := Run(cfg, EmptyWorld(ring), [StartProtect(q, source, d), CommitDoubted(d.versionID), CleanUp(d.versionID),
                                           Register(q.ownerID, "report", q.uploadID, "f1")]);
      && "f1" in w.repo.files && w.repo.files["f1"].currentVersionID == d.versionID && q.uploadID in w.repo.entries
      && Authorized(w.repo, q.ownerID, "f1", Download, 0)
      && Open(cfg, w.ring, w.blobs, w.repo.entries[q.uploadID]) == Failure(Integrity)
  {
    hide Run, Wrap, Seal, Blob;
    FourSteps(cfg, EmptyWorld(ring), StartProtect(q, source, d), CommitDoubted(d.versionID), CleanUp(d.versionID),
              Register(q.ownerID, "report", q.uploadID, "f1"));
    var w1 := Next(cfg, EmptyWorld(ring), StartProtect(q, source, d));
    assert w1 == Write(EmptyWorld(ring), q, source, d);
    var w2 := Next(cfg, w1, CommitDoubted(d.versionID));
    var w3 := Next(cfg, w2, CleanUp(d.versionID));
    assert w3.blobs == map[] && w3.repo == EmptyRepo().(entries := map[q.uploadID := NewMetadata(ring, q, d)]);
    hide CheckRequest, Lower, ValidRing;
  }

  /** A restore whose insert was doubtful and whose object was removed, tried again: the retry
      succeeds and makes the lost version current, while the version it was restored from
      still opens. */
  lemma RetryMovesToLost(cfg: Config, ring: Keyring, q: Request, source: Bytes, d: Draw, key: string, again: Draw)
    requires ValidRing(ring) && ValidDraw(d) && ValidDraw(again) && q.uploadID.Upload? &&
             CheckRequest(cfg, q, source).Success?
    requires ValidIdempotencyKey(key) && again.versionID != d.versionID
    ensures
      var restore := StartRestore(q.ownerID, "f1", d.versionID, key, NewMetadata(ring, q, d), again);
      var w := Run(cfg, Listed(ring, q, source, d), [restore, CommitDoubted(again.versionID), CleanUp(again.versionID),
                                                     CommitRestored(q.ownerID, "f1", d.versionID, key)]);
      var u := OperationID.Restore(q.ownerID, "f1", d.versionID, key);
      && "f1" in w.repo.files && w.repo.files["f1"].currentVersionID == again.versionID
      && u in w.repo.entries && Blob(again.versionID) !in w.blobs &&
         Open(cfg, w.ring, w.blobs, w.repo.entries[u]).Failure?
      && q.uploadID in w.repo.entries && Open(cfg, w.ring, w.blobs, w.repo.entries[q.uploadID]) == Success(source)
  {
    hide Run, Open, CheckRequest, ValidRing, ValidDraw, ValidIdempotencyKey;
    FourSteps(cfg, Listed(ring, q, source, d),
              StartRestore(q.ownerID, "f1", d.versionID, key, NewMetadata(ring, q, d), again),
              CommitDoubted(again.versionID), CleanUp(again.versionID),
                  CommitRestored(q.ownerID, "f1", d.versionID, key));
    Starting(cfg, ring, q, source, d, key, again);
    Losing(cfg, ring, q, source, d, key, again);
    FirstOpens(cfg, ring, q, source, d);
    var m := NewMetadata(ring, RestoreRequest(q.ownerID, "f1", d.versionID, key, NewMetadata(ring, q, d)), again);
    NoObject(cfg, ring, Listed(ring, q, source, d).blobs - {Blob(again.versionID)}, m);
    OtherIsFresh(ring, q, source, d, again);
    assert Listed(ring, q, source, d).blobs - {Blob(again.versionID)} == Listed(ring, q, source, d).blobs;
  }

  lemma NoObject(cfg: Config, ring: Keyring, blobs: Blobs, m: Metadata)
    requires m.blobObject !in blobs
    ensures Open(cfg, ring, blobs, m).Failure?
  {}

  /** The listed file with a restore's envelope committed and its object gone. */
  function Lost(ring: Keyring, q: Request, source: Bytes, d: Draw, key: string, again: Draw): World
    requires ValidRing(ring)
  {
    var w := Restoring(ring, q, source, d, key, again);
    var m := NewMetadata(ring, RestoreRequest(q.ownerID, "f1", d.versionID, key, NewMetadata(ring, q, d)), again);
    w.(inFlight := map[], blobs := w.blobs - {Blob(again.versionID)},
       repo := w.repo.(entries := w.repo.entries[m.uploadID := m]))
  }

  lemma LosingObject(cfg: Config, ring: Keyring, q: Request, source: Bytes, d: Draw, key: string, again: Draw)
    requires ValidRing(ring) && q.uploadID.Upload?
    ensures
      Next(cfg, Next(cfg, Restoring(ring, q, source, d, key, again), CommitDoubted(again.versionID)),
           CleanUp(again.versionID))
      == Lost(ring, q, source, d, key, again)
  {
    hide Wrap, Lower, Seal, Blob, ValidRing;
    assert Restoring(ring, q, source, d, key, again).inFlight - {again.versionID} == map[];
  }

  lemma Losing(cfg: Config, ring: Keyring, q: Request, source: Bytes, d: Draw, key: string, again: Draw)
    requires ValidRing(ring) && again.versionID != d.versionID && q.uploadID.Upload?
    ensures
      var w1 := Next(cfg, Restoring(ring, q, source, d, key, again), CommitDoubted(again.versionID));
      var w := Next(cfg, Next(cfg, w1, CleanUp(again.versionID)), CommitRestored(q.ownerID, "f1", d.versionID, key));
      var m := NewMetadata(ring, RestoreRequest(q.ownerID, "f1", d.versionID, key, NewMetadata(ring, q, d)), again);
      && "f1" in w.repo.files && w.repo.files["f1"].currentVersionID == again.versionID
      && w.ring == ring && w.blobs == Listed(ring, q, source, d).blobs - {Blob(again.versionID)}
      && w.repo.entries == map[q.uploadID := NewMetadata(ring, q, d), m.uploadID := m]
  {
    LosingObject(cfg, ring, q, source, d, key, again);
    hide CommitDoubtedStep, CleanUpStep, Lower, Seal, Blob, ValidRing, Superseded, RestoredVersion;
    var w := Lost(ring, q, source, d, key, again);
    var vs := VersionsOf(w.repo, "f1");
    assert vs == [FirstVersion(NewMetadata(ring, q, d))];
    assert vs[0].versionID == d.versionID;
    assert HasVersion(vs, d.versionID) && !HasOperation(vs, OperationID.Restore(q.ownerID, "f1", d.versionID, key));
    assert w.blobs == Listed(ring, q, source, d).blobs - {Blob(again.versionID)};
    hide HasVersion, HasOperation;
  }

  // --- A purge that failed once ----------------------------------------------

  lemma OnlyPage(ring: Keyring, q: Request, source: Bytes, d: Draw, now: Time, limit: int)
    requires ValidRing(ring) && now >= GRACE
    ensures IsPage(Trashed(ring, q, source, d).repo, now, limit, ["f1"])
  {
    hide ValidRing, NewMetadata, Seal;
    assert Eligible(Trashed(ring, q, source, d).repo, now) == {"f1"};
  }

  lemma TrashedRow(ring: Keyring, q: Request, source: Bytes, d: Draw)
    requires ValidRing(ring)
    ensures
      var r := Trashed(ring, q, source, d).repo;
      && "f1" in r.files && r.files["f1"].purgedAt == None && r.files["f1"].purgeAfter == Some(GRACE)
      && HasOperation(VersionsOf(r, "f1"), q.uploadID)
  {
    var r := Trashed(ring, q, source, d).repo;
    assert VersionsOf(r, "f1")[0].operationID == q.uploadID;
    hide NewMetadata, Seal, ValidRing;
  }

  lemma FailedRun(r: Repo, key: KeyFormat)
    requires HaveRows(r, ["f1"]) && "f1" in r.files && r.files["f1"].purgeAfter.Some?
    ensures Worked(Sql(r, {}), ["f1"], GRACE, key, Weather({"f1"}, {}, {})) == Sql(r, {ScheduledOp(r, "f1", key)})
    ensures Stuck(Sql(r, {ScheduledOp(r, "f1", key)}), "f1", key)
  {
    hide SqlOutcome;
    assert ["f1"][..0] == [] && ["f1"][0] == "f1";
  }

  lemma EmptyRun(r: Repo, key: KeyFormat, now: Time)
    requires HaveRows(r, ["f1"]) && "f1" in r.files && r.files["f1"].purgeAfter.Some?
    ensures Completed(Sql(r, {ScheduledOp(r, "f1", key)}), ["f1"], now, key, FAIR) == 1
  {
    assert ["f1"][..0] == [] && ["f1"][0] == "f1";
    hide PurgeOutcome;
  }

  /** The worker finds the file due and the database fails it once. Every later run, whenever
      it is, counts the file as completed, and neither purges it nor destroys its key. */
  lemma OneFailureSticks(cfg: Config, ring: Keyring, q: Request, source: Bytes, d: Draw, key: KeyFormat,
                         rounds: seq<Round>, limit: int, now: Time)
    requires ValidRing(ring) && ValidDraw(d) && q.uploadID.Upload? && CheckRequest(cfg, q, source).Success?
    requires now >= GRACE
    ensures HaveRows(Trashed(ring, q, source, d).repo, ["f1"]) &&
            IsPage(Trashed(ring, q, source, d).repo, GRACE, limit, ["f1"])
    ensures
      var s := Worked(Sql(Trashed(ring, q, source, d).repo, {}), ["f1"], GRACE, key, Weather({"f1"}, {}, {}));
      && s.repo == Trashed(ring, q, source, d).repo
      && HaveRows(s.repo, ["f1"]) && Completed(s, ["f1"], now, key, FAIR) == 1
      && (AreRuns(s, rounds, limit, key) ==>
            var s' := AfterRuns(s, rounds, limit, key);
            && "f1" in Eligible(s'.repo, now)
            && q.uploadID in s'.repo.entries && Live(s'.repo.entries[q.uploadID]))
  {
    hide Inv, CheckRequest, ValidRing, ValidDraw, Trashed, HasOperation, Eligible, Worked, Completed, AreRuns,
         AfterRuns, IsPage, Stuck, HaveRows;
    var w := Trashed(ring, q, source, d);
    InvariantAlong(cfg, ring, q, source, d);
    TrashedRow(ring, q, source, d);
    OnlyPage(ring, q, source, d, GRACE, limit);
    OnlyPage(ring, q, source, d, now, limit);
    EligibleNow(w.repo, now, limit);
    PageHasRows(w.repo, GRACE, limit, ["f1"]);
    FailedRun(w.repo, key);
    var op := ScheduledOp(w.repo, "f1", key);
    EmptyRun(w.repo, key, now);
    var failed := Sql(w.repo, {op});
    if AreRuns(failed, rounds, limit, key) {
      StuckForEver(cfg, w, failed, rounds, limit, key, "f1");
      StuckKeepsKeys(cfg, w, failed, rounds, limit, key, "f1", q.uploadID);
    }
  }

  lemma EligibleNow(r: Repo, now: Time, limit: int)
    requires IsPage(r, now, limit, ["f1"])
    ensures "f1" in Eligible(r, now)
  {
    assert ["f1"][0] in Eligible(r, now);
  }
}
