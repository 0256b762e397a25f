/** What every transition of the protected store keeps. */
module StoreInvariant {
  import opened Wrappers
  import opened Framing
  import opened Envelope
  import opened StoreModel

  type Entries = map<OperationID, Metadata>
  type Flight = map<string, Metadata>
  type Histories = map<string, seq<Version>>
  type Files = map<string, File>
  type Content = map<string, Bytes>

  ghost predicate Committed(entries: Entries, version: string) {
    exists t :: t in entries && entries[t].versionID == version
  }

  /** Metadata sits under its own operation and names its own object; no version ID is used
      twice, committed or in flight; and a restore's source is a committed version, its owner
      the one in its ID. */
  ghost predicate EntriesOK(flight: Flight, entries: Entries) {
    && (forall u :: u in entries ==> entries[u].uploadID == u && entries[u].blobObject == Blob(entries[u].versionID))
    && (forall u, t :: u in entries && t in entries && entries[u].versionID == entries[t].versionID ==> u == t)
    && (forall v :: v in flight ==> flight[v].versionID == v && flight[v].blobObject == Blob(v))
    && (forall v, u :: v in flight && u in entries ==> entries[u].versionID != v)
    && (forall u :: u in entries && u.Restore? ==> Committed(entries, u.source) && entries[u].ownerID == u.owner)
    && (forall v :: v in flight && flight[v].uploadID.Restore? ==>
          Committed(entries, flight[v].uploadID.source) && flight[v].ownerID == flight[v].uploadID.owner)
  }

  /** A version told to be cleaned up is committed: its metadata is there to stay. */
  ghost predicate CleaningOK(cleaning: set<string>, entries: Entries) {
    forall v :: v in cleaning ==> Committed(entries, v)
  }

  /** The version opens, and to the bytes it was sealed from. */
  ghost predicate Sound(cfg: Config, ring: Keyring, blobs: Blobs, content: Content, m: Metadata) {
    Intact(cfg, ring, blobs, m) && m.versionID in content && blobs[m.blobObject].plaintext == content[m.versionID]
  }

  /** Every key that exists unwraps, and a version whose key and object are both in place
      opens. A version in flight has both. */
  ghost predicate Readable(cfg: Config, ring: Keyring, blobs: Blobs, content: Content, flight: Flight,
                           entries: Entries) {
    && ValidRing(ring)
    && (forall u :: u in entries && Live(entries[u]) ==> Unwraps(cfg, ring, entries[u]))
    && (forall u :: u in entries && Live(entries[u]) && entries[u].blobObject in blobs ==>
          Sound(cfg, ring, blobs, content, entries[u]))
    && (forall v :: v in flight ==> Sound(cfg, ring, blobs, content, flight[v]))
  }

  ghost predicate SameBytes(content: Content, a: string, b: string) {
    a in content && b in content && content[a] == content[b]
  }

  /** A restore was sealed from its source's bytes, whatever has become of either object. */
  ghost predicate RestoresFaithful(content: Content, flight: Flight, entries: Entries) {
    && (forall u :: u in entries ==> entries[u].versionID in content)
    && (forall v :: v in flight ==> v in content)
    && (forall u :: u in entries && u.Restore? ==> SameBytes(content, entries[u].versionID, u.source))
    && (forall v :: v in flight && flight[v].uploadID.Restore? ==> SameBytes(content, v, flight[v].uploadID.source))
  }

  /** The version the file was first uploaded as. */
  function FirstVersionID(vs: seq<Version>): string
    requires |vs| > 0
  {
    vs[|vs| - 1].versionID
  }

  /** All versions of one file were sealed from the same bytes. */
  ghost predicate OneContent(content: Content, vs: seq<Version>) {
    forall i :: 0 <= i < |vs| ==> SameBytes(content, vs[i].versionID, FirstVersionID(vs))
  }

  ghost predicate Lineage(content: Content, versions: Histories) {
    forall f :: f in versions ==> OneContent(content, versions[f])
  }

  /** A restore, committed or in flight, aims at a file that has its source. */
  ghost predicate AimsAt(versions: Histories, u: OperationID) {
    u.Restore? ==> u.file in versions && HasVersion(versions[u.file], u.source)
  }

  ghost predicate Aimed(flight: Flight, entries: Entries, versions: Histories) {
    && (forall u :: u in entries ==> AimsAt(versions, u))
    && (forall v :: v in flight ==> AimsAt(versions, flight[v].uploadID))
  }

  /** Numbers run n down to 1, exactly the head is current and is the file's current version,
      and every later version was restored from an earlier one of the same file. */
  ghost predicate History(f: string, file: File, vs: seq<Version>, entries: Entries) {
    && |vs| > 0
    && vs[0].versionID == file.currentVersionID
    && (forall i :: 0 <= i < |vs| ==> vs[i].number == |vs| - i && (vs[i].current <==> i == 0))
    && (forall i :: 0 <= i < |vs| ==>
          && vs[i].operationID in entries
          && entries[vs[i].operationID].versionID == vs[i].versionID
          && entries[vs[i].operationID].ownerID == file.ownerID)
    && (forall i, j :: 0 <= i < j < |vs| ==> vs[i].operationID != vs[j].operationID)
    && vs[|vs| - 1].operationID.Upload? && vs[|vs| - 1].sourceVersionID == None
    && (forall i :: 0 <= i < |vs| - 1 ==>
          && vs[i].operationID.Restore? && vs[i].operationID.file == f
          && vs[i].sourceVersionID == Some(vs[i].operationID.source)
          && HasVersion(vs[i + 1..], vs[i].operationID.source))
  }

  function Initial(vs: seq<Version>): OperationID
    requires |vs| > 0
  {
    vs[|vs| - 1].operationID
  }

  ghost predicate HistoriesOK(files: Files, versions: Histories, entries: Entries) {
    && files.Keys == versions.Keys
    && (forall f :: f in files ==> History(f, files[f], versions[f], entries))
    && (forall f, g :: f in versions && g in versions && f != g && |versions[f]| > 0 && |versions[g]| > 0 ==>
          Initial(versions[f]) != Initial(versions[g]))
  }

  /** Keys exist exactly until their file is purged; only trashed files are purged. */
  ghost predicate LifecycleOK(files: Files, versions: Histories, entries: Entries, purges: map<PurgeID, PurgeResult>) {
    && (forall f :: f in files ==>
          && (files[f].deletedAt.Some? <==> files[f].purgeAfter.Some?)
          && (files[f].purgedAt.Some? ==> files[f].deletedAt.Some?))
    && (forall f, i | f in files && f in versions && 0 <= i < |versions[f]| && versions[f][i].operationID in entries ::
          (Live(entries[versions[f][i].operationID]) <==> files[f].purgedAt == None))
    && (forall u :: u in entries && !Live(entries[u]) ==> exists f :: f in versions && HasOperation(versions[f], u))
    && (forall op :: op in purges ==>
          purges[op].fileID == op.file && op.file in files && files[op.file].purgedAt.Some?)
  }

  /** One unrevoked grant per file and recipient, and only on active files. */
  ghost predicate GrantsOK(files: Files, grants: map<string, Grant>) {
    && (forall id :: id in grants ==>
          && grants[id].fileID in files
          && grants[id].ownerID == files[grants[id].fileID].ownerID
          && grants[id].recipientID != grants[id].ownerID
          && (grants[id].revokedAt == None ==> files[grants[id].fileID].Active()))
    && (forall a, b | a in grants && b in grants && grants[a].revokedAt == None && grants[b].revokedAt == None ::
          grants[a].fileID == grants[b].fileID && grants[a].recipientID == grants[b].recipientID ==> a == b)
  }

  ghost predicate Inv(cfg: Config, w: World) {
    && EntriesOK(w.inFlight, w.repo.entries)
    && CleaningOK(w.cleaning, w.repo.entries)
    && Readable(cfg, w.ring, w.blobs, w.content, w.inFlight, w.repo.entries)
    && RestoresFaithful(w.content, w.inFlight, w.repo.entries)
    && Lineage(w.content, w.repo.versions)
    && Aimed(w.inFlight, w.repo.entries, w.repo.versions)
    && HistoriesOK(w.repo.files, w.repo.versions, w.repo.entries)
    && LifecycleOK(w.repo.files, w.repo.versions, w.repo.entries, w.repo.purges)
    && GrantsOK(w.repo.files, w.repo.grants)
  }

  lemma BlobInjective(a: string, b: string)
    ensures Blob(a) == Blob(b) ==> a == b
  {
    assert Blob(a)[..|Blob(a)| - 11] == a && Blob(b)[..|Blob(b)| - 11] == b;
  }

  lemma EntryNamed(cfg: Config, w: World, u: OperationID)
    requires Inv(cfg, w) && u in w.repo.entries
    ensures w.repo.entries[u].uploadID == u
  {}

  // --- Protection ------------------------------------------------------------

  /** Objects in flight stay, and those of committed versions may only disappear. */
  ghost predicate Untouched(blobs: Blobs, blobs': Blobs, flight: Flight, entries: Entries) {
    && (forall u :: u in entries && Live(entries[u]) ==>
          (entries[u].blobObject in blobs' ==>
           entries[u].blobObject in blobs && blobs'[entries[u].blobObject] == blobs[entries[u].blobObject]))
    && (forall v :: v in flight ==>
          (flight[v].blobObject in blobs ==>
           flight[v].blobObject in blobs' && blobs'[flight[v].blobObject] == blobs[flight[v].blobObject]))
  }

  lemma SoundUntouched(cfg: Config, ring: Keyring, ring': Keyring, blobs: Blobs, blobs': Blobs, content: Content,
                       m: Metadata)
    requires Sound(cfg, ring, blobs, content, m) && ValidRing(ring')
    requires ring'.id == ring.id && forall v :: v in ring.keys ==> v in ring'.keys && ring'.keys[v] == ring.keys[v]
    requires m.blobObject in blobs' && blobs'[m.blobObject] == blobs[m.blobObject]
    ensures Sound(cfg, ring', blobs', content, m)
  {
    IntactUnderGrowth(cfg, ring, ring', blobs, blobs', m);
  }

  /** Objects may come and go as long as those in flight stay, and the ring may only grow. */
  lemma ReadableUntouched(cfg: Config, ring: Keyring, ring': Keyring, blobs: Blobs, blobs': Blobs,
                          content: Content, flight: Flight, entries: Entries)
    requires Readable(cfg, ring, blobs, content, flight, entries) && Untouched(blobs, blobs', flight, entries)
    requires ValidRing(ring') && ring'.id == ring.id
    requires forall v :: v in ring.keys ==> v in ring'.keys && ring'.keys[v] == ring.keys[v]
    ensures Readable(cfg, ring', blobs', content, flight, entries)
  {
    hide Intact, Unwraps, ValidRing;
    forall u | u in entries && Live(entries[u]) ensures Unwraps(cfg, ring', entries[u]) {
      IntactUnderGrowth(cfg, ring, ring', blobs, blobs', entries[u]);
    }
    forall u | u in entries && Live(entries[u]) && entries[u].blobObject in blobs'
      ensures Sound(cfg, ring', blobs', content, entries[u])
    {
      SoundUntouched(cfg, ring, ring', blobs, blobs', content, entries[u]);
    }
    forall v | v in flight ensures Sound(cfg, ring', blobs', content, flight[v]) {
      assert flight[v].blobObject in blobs by { SoundHasObject(cfg, ring, blobs, content, flight[v]); }
      SoundUntouched(cfg, ring, ring', blobs, blobs', content, flight[v]);
    }
  }

  lemma SoundHasObject(cfg: Config, ring: Keyring, blobs: Blobs, content: Content, m: Metadata)
    requires Sound(cfg, ring, blobs, content, m)
    ensures m.blobObject in blobs
  {}

  /** A new object under a fresh version ID touches no other. */
  lemma WriteUntouched(w: World, v: string, c: Sealed)
    requires EntriesOK(w.inFlight, w.repo.entries) && FreshVersion(w, v)
    ensures Untouched(w.blobs, w.blobs[Blob(v) := c], w.inFlight, w.repo.entries)
  {
    forall u | u in w.repo.entries ensures w.repo.entries[u].blobObject != Blob(v) {
      BlobInjective(w.repo.entries[u].versionID, v);
    }
    forall x | x in w.inFlight ensures w.inFlight[x].blobObject != Blob(v) {
      BlobInjective(x, v);
    }
  }

  /** What a fresh version was sealed from says nothing about any other version. */
  lemma ReadableRecorded(cfg: Config, w: World, blobs: Blobs, v: string, bytes: Bytes)
    requires EntriesOK(w.inFlight, w.repo.entries) && FreshVersion(w, v)
    requires Readable(cfg, w.ring, blobs, w.content, w.inFlight, w.repo.entries)
    ensures Readable(cfg, w.ring, blobs, w.content[v := bytes], w.inFlight, w.repo.entries)
  {
    hide Intact, Unwraps, ValidRing, Committed, Blob;
  }

  lemma RestoresRecorded(w: World, v: string, bytes: Bytes)
    requires EntriesOK(w.inFlight, w.repo.entries) && FreshVersion(w, v)
    requires RestoresFaithful(w.content, w.inFlight, w.repo.entries)
    ensures RestoresFaithful(w.content[v := bytes], w.inFlight, w.repo.entries)
  {
    hide Blob;
  }

  lemma OneContentRecorded(f: string, file: File, vs: seq<Version>, entries: Entries, content: Content, v: string,
                           bytes: Bytes)
    requires OneContent(content, vs) && History(f, file, vs, entries)
    requires forall u :: u in entries ==> entries[u].versionID != v
    ensures OneContent(content[v := bytes], vs)
  {
    hide HasVersion;
  }

  lemma LineageRecorded(w: World, v: string, bytes: Bytes)
    requires FreshVersion(w, v) && Lineage(w.content, w.repo.versions)
    requires HistoriesOK(w.repo.files, w.repo.versions, w.repo.entries)
    ensures Lineage(w.content[v := bytes], w.repo.versions)
  {
    hide OneContent, History;
    forall f | f in w.repo.versions ensures OneContent(w.content[v := bytes], w.repo.versions[f]) {
      OneContentRecorded(f, w.repo.files[f], w.repo.versions[f], w.repo.entries, w.content, v, bytes);
    }
  }

  lemma FlightGrows(cfg: Config, w: World, blobs: Blobs, content: Content, m: Metadata)
    requires EntriesOK(w.inFlight, w.repo.entries) && m.blobObject == Blob(m.versionID) && FreshVersion(w, m.versionID)
    requires Readable(cfg, w.ring, blobs, content, w.inFlight, w.repo.entries) && Sound(cfg, w.ring, blobs, content, m)
    requires RestoresFaithful(content, w.inFlight, w.repo.entries) && Aimed(w.inFlight, w.repo.entries, w.repo.versions)
    requires m.uploadID.Restore? ==> Committed(w.repo.entries, m.uploadID.source) && m.ownerID == m.uploadID.owner
    requires m.uploadID.Restore? ==> SameBytes(content, m.versionID, m.uploadID.source)
    requires AimsAt(w.repo.versions, m.uploadID)
    ensures EntriesOK(w.inFlight[m.versionID := m], w.repo.entries)
    ensures Readable(cfg, w.ring, blobs, content, w.inFlight[m.versionID := m], w.repo.entries)
    ensures RestoresFaithful(content, w.inFlight[m.versionID := m], w.repo.entries)
    ensures Aimed(w.inFlight[m.versionID := m], w.repo.entries, w.repo.versions)
  {
    FlightNamed(w.inFlight, w.repo.entries, m);
    assert m.versionID in content;
    hide EntriesOK, Sound, SameBytes, AimsAt, Unwraps, Committed, Live, ValidRing, Blob, FreshVersion;
    assert Aimed(w.inFlight[m.versionID := m], w.repo.entries, w.repo.versions);
    hide Aimed;
    assert Readable(cfg, w.ring, blobs, content, w.inFlight[m.versionID := m], w.repo.entries);
    hide Readable;
  }

  lemma FlightNamed(flight: Flight, entries: Entries, m: Metadata)
    requires EntriesOK(flight, entries) && m.blobObject == Blob(m.versionID)
    requires forall u :: u in entries ==> entries[u].versionID != m.versionID
    requires m.uploadID.Restore? ==> Committed(entries, m.uploadID.source) && m.ownerID == m.uploadID.owner
    ensures EntriesOK(flight[m.versionID := m], entries)
  {
    hide Committed, Blob;
  }

  lemma WrittenSound(cfg: Config, w: World, q: Request, source: Bytes, d: Draw)
    requires ValidRing(w.ring) && ValidDraw(d) && CheckRequest(cfg, q, source).Success?
    ensures
      var w' := Write(w, q, source, d);
      Sound(cfg, w.ring, w'.blobs, w'.content, NewMetadata(w.ring, q, d))
  {
    ProtectThenOpen(cfg, w.ring, w.blobs, q, source, d);
    hide Intact, CheckRequest;
  }

  /** What was there before stays as it was. */
  lemma WriteKeepsOthers(cfg: Config, w: World, q: Request, source: Bytes, d: Draw)
    requires Inv(cfg, w) && ValidRing(w.ring) && FreshVersion(w, d.versionID)
    ensures
      var w' := Write(w, q, source, d);
      && Readable(cfg, w.ring, w'.blobs, w'.content, w.inFlight, w.repo.entries)
      && RestoresFaithful(w'.content, w.inFlight, w.repo.entries) && Lineage(w'.content, w.repo.versions)
  {
    assert ValidRing(w.ring);
    hide HistoriesOK, LifecycleOK, GrantsOK, Lineage, RestoresFaithful, Readable, EntriesOK, CleaningOK, Aimed,
         FreshVersion, Untouched, Seal, Blob, ValidRing;
    var m := NewMetadata(w.ring, q, d);
    WriteUntouched(w, d.versionID, Seal(m, d.dek, source));
    ReadableUntouched(cfg, w.ring, w.ring, w.blobs, Write(w, q, source, d).blobs, w.content, w.inFlight,
                      w.repo.entries);
    ReadableRecorded(cfg, w, Write(w, q, source, d).blobs, d.versionID, source);
    RestoresRecorded(w, d.versionID, source);
    LineageRecorded(w, d.versionID, source);
  }

  lemma WriteKeeps(cfg: Config, w: World, q: Request, source: Bytes, d: Draw)
    requires Inv(cfg, w) && ValidRing(w.ring) && ValidDraw(d) && FreshVersion(w, d.versionID)
    requires CheckRequest(cfg, q, source).Success? && AimsAt(w.repo.versions, q.uploadID)
    requires q.uploadID.Restore? ==> Committed(w.repo.entries, q.uploadID.source) && q.ownerID == q.uploadID.owner
    requires q.uploadID.Restore? && q.uploadID.source in w.content ==> w.content[q.uploadID.source] == source
    ensures Inv(cfg, Write(w, q, source, d))
  {
    assert ValidRing(w.ring);
    hide HistoriesOK, LifecycleOK, GrantsOK, Lineage, RestoresFaithful, Readable, EntriesOK, CleaningOK, Aimed,
         FreshVersion, Committed, Sound, AimsAt, Seal, Blob, CheckRequest, ValidRing;
    WrittenSound(cfg, w, q, source, d);
    WriteKeepsOthers(cfg, w, q, source, d);
    RestoreSource(w, q, source, d);
    hide SameBytes;
    FlightGrows(cfg, w, Write(w, q, source, d).blobs, Write(w, q, source, d).content, NewMetadata(w.ring, q, d));
  }

  lemma RestoreSource(w: World, q: Request, source: Bytes, d: Draw)
    requires ValidRing(w.ring) && RestoresFaithful(w.content, w.inFlight, w.repo.entries) &&
             FreshVersion(w, d.versionID)
    requires q.uploadID.Restore? ==> Committed(w.repo.entries, q.uploadID.source)
    requires q.uploadID.Restore? && q.uploadID.source in w.content ==> w.content[q.uploadID.source] == source
    ensures q.uploadID.Restore? ==> SameBytes(Write(w, q, source, d).content, d.versionID, q.uploadID.source)
  {
    hide RestoresFaithful, FreshVersion, Committed;
    if q.uploadID.Restore? { CommittedRecorded(w, q.uploadID.source); }
  }

  /** A committed version's bytes are on record, and it is no version anyone may draw. */
  lemma CommittedRecorded(w: World, v: string)
    requires RestoresFaithful(w.content, w.inFlight, w.repo.entries) && Committed(w.repo.entries, v)
    ensures v in w.content && !FreshVersion(w, v)
  {
    var t :| t in w.repo.entries && w.repo.entries[t].versionID == v;
  }

  lemma StartRestoreKeeps(cfg: Config, w: World, owner: string, f: string, source: string, key: string, m: Metadata,
                          d: Draw)
    requires Inv(cfg, w)
    ensures Inv(cfg, StartRestoreStep(cfg, w, owner, f, source, key, m, d))
  {
    if StartRestoreStep(cfg, w, owner, f, source, key, m, d) != w {
      OpensIffIntact(cfg, w.ring, w.blobs, m);
      var q := RestoreRequest(owner, f, source, key, m);
      var plain := Open(cfg, w.ring, w.blobs, m).value;
      hide LifecycleOK, GrantsOK, Lineage, RestoresFaithful, History, HasVersion, Aimed;
      assert Live(m) && Sound(cfg, w.ring, w.blobs, w.content, m);
      assert plain == w.content[source];
      assert Committed(w.repo.entries, source);
      assert w.repo.versions[f] == VersionsOf(w.repo, f);
      hide HistoriesOK, Readable, Sound, Intact, EntriesOK, FreshVersion;
      WriteKeeps(cfg, w, q, plain, d);
    }
  }

  lemma FlightShrinks(cfg: Config, ring: Keyring, blobs: Blobs, content: Content, flight: Flight, gone: set<string>,
                      entries: Entries, versions: Histories)
    requires EntriesOK(flight, entries) && Readable(cfg, ring, blobs, content, flight, entries)
    requires RestoresFaithful(content, flight, entries) && Aimed(flight, entries, versions)
    ensures EntriesOK(flight - gone, entries) && Readable(cfg, ring, blobs, content, flight - gone, entries)
    ensures RestoresFaithful(content, flight - gone, entries) && Aimed(flight - gone, entries, versions)
  {
    hide Sound, Unwraps, SameBytes, AimsAt;
  }

  /** The object of a version that is not in flight may go. */
  lemma RemovalUntouched(blobs: Blobs, flight: Flight, entries: Entries, v: string)
    requires EntriesOK(flight, entries) && v !in flight
    ensures Untouched(blobs, blobs - {Blob(v)}, flight, entries)
  {
    forall x | x in flight ensures flight[x].blobObject != Blob(v) {
      BlobInjective(x, v);
    }
  }

  /** Dropping an in-flight version together with its own object. */
  lemma DiscardKeeps(cfg: Config, w: World, v: string)
    requires Inv(cfg, w) && v in w.inFlight
    ensures Inv(cfg, w.(blobs := w.blobs - {w.inFlight[v].blobObject}, inFlight := w.inFlight - {v}))
  {
    assert w.inFlight[v].blobObject == Blob(v) && ValidRing(w.ring);
    hide HistoriesOK, LifecycleOK, GrantsOK, Lineage, RestoresFaithful, Readable, EntriesOK, Untouched, Aimed,
         CleaningOK;
    FlightShrinks(cfg, w.ring, w.blobs, w.content, w.inFlight, {v}, w.repo.entries, w.repo.versions);
    RemovalUntouched(w.blobs, w.inFlight - {v}, w.repo.entries, v);
    ReadableUntouched(cfg, w.ring, w.ring, w.blobs, w.blobs - {Blob(v)}, w.content, w.inFlight - {v}, w.repo.entries);
  }

  /** Removing a committed version's object costs that version alone. */
  lemma CleanUpKeeps(cfg: Config, w: World, v: string)
    requires Inv(cfg, w)
    ensures Inv(cfg, CleanUpStep(w, v))
  {
    if v in w.cleaning {
      assert ValidRing(w.ring) && v !in w.inFlight;
      assert CleaningOK(w.cleaning - {v}, w.repo.entries);
      hide HistoriesOK, LifecycleOK, GrantsOK, Lineage, RestoresFaithful, Readable, EntriesOK, Untouched, Aimed,
           CleaningOK;
      RemovalUntouched(w.blobs, w.inFlight, w.repo.entries, v);
      ReadableUntouched(cfg, w.ring, w.ring, w.blobs, w.blobs - {Blob(v)}, w.content, w.inFlight, w.repo.entries);
    }
  }

  /** What a commit adds to the entries, v no longer being in flight. */
  lemma EntriesGrow(cfg: Config, ring: Keyring, blobs: Blobs, content: Content, flight: Flight, entries: Entries,
                    versions: Histories, v: string)
    requires EntriesOK(flight, entries) && Readable(cfg, ring, blobs, content, flight, entries)
    requires RestoresFaithful(content, flight, entries) && Aimed(flight, entries, versions)
    requires v in flight && flight[v].uploadID !in entries
    ensures EntriesOK(flight - {v}, entries[flight[v].uploadID := flight[v]])
    ensures Readable(cfg, ring, blobs, content, flight - {v}, entries[flight[v].uploadID := flight[v]])
    ensures RestoresFaithful(content, flight - {v}, entries[flight[v].uploadID := flight[v]])
    ensures Aimed(flight - {v}, entries[flight[v].uploadID := flight[v]], versions)
  {
    hide SameBytes, AimsAt;
    CommittedGrows(flight, entries, v);
    {
      hide EntriesOK, RestoresFaithful, Aimed;
      assert Sound(cfg, ring, blobs, content, flight[v]);
      SoundUnwraps(cfg, ring, blobs, content, flight[v]);
      hide Sound, Unwraps;
      assert Readable(cfg, ring, blobs, content, flight - {v}, entries[flight[v].uploadID := flight[v]]);
    }
    hide Readable, Sound;
    assert flight[v].versionID == v;
    hide EntriesOK, Committed;
  }

  lemma SoundUnwraps(cfg: Config, ring: Keyring, blobs: Blobs, content: Content, m: Metadata)
    requires Sound(cfg, ring, blobs, content, m)
    ensures Unwraps(cfg, ring, m)
  {}

  lemma CommittedGrows(flight: Flight, entries: Entries, v: string)
    requires EntriesOK(flight, entries) && v in flight && flight[v].uploadID !in entries
    ensures EntriesOK(flight - {v}, entries[flight[v].uploadID := flight[v]])
  {
    var entries' := entries[flight[v].uploadID := flight[v]];
    forall s | Committed(entries, s) ensures Committed(entries', s) {
      var t :| t in entries && entries[t].versionID == s;
      assert entries'[t].versionID == s;
    }
  }

  /** Same operations, versions, owners, objects and liveness; entries may be added, alive. */
  ghost predicate Similar(entries: Entries, entries': Entries) {
    && (forall u :: u in entries ==>
          && u in entries'
          && entries'[u].versionID == entries[u].versionID && entries'[u].blobObject == entries[u].blobObject
          && entries'[u].uploadID == entries[u].uploadID && entries'[u].ownerID == entries[u].ownerID
          && (Live(entries'[u]) <==> Live(entries[u])))
    && (forall u :: u in entries' && u !in entries ==> Live(entries'[u]))
  }

  lemma HistorySimilar(f: string, file: File, vs: seq<Version>, entries: Entries, entries': Entries)
    requires History(f, file, vs, entries) && Similar(entries, entries')
    ensures History(f, file, vs, entries')
  {
    hide HasVersion;
  }

  lemma HistoriesSimilar(files: Files, versions: Histories, entries: Entries, entries': Entries)
    requires HistoriesOK(files, versions, entries) && Similar(entries, entries')
    ensures HistoriesOK(files, versions, entries')
  {
    hide History, Similar;
    forall f | f in files ensures History(f, files[f], versions[f], entries') {
      HistorySimilar(f, files[f], versions[f], entries, entries');
    }
  }

  lemma HistoriesUseEntries(files: Files, versions: Histories, entries: Entries)
    requires HistoriesOK(files, versions, entries)
    ensures forall f, i :: f in versions && 0 <= i < |versions[f]| ==> versions[f][i].operationID in entries
  {
    forall f, i | f in versions && 0 <= i < |versions[f]| ensures versions[f][i].operationID in entries {
      assert History(f, files[f], versions[f], entries);
    }
  }

  lemma LifecycleSimilar(files: Files, versions: Histories, entries: Entries, entries': Entries,
                         purges: map<PurgeID, PurgeResult>)
    requires HistoriesOK(files, versions, entries) && LifecycleOK(files, versions, entries, purges)
    requires Similar(entries, entries')
    ensures LifecycleOK(files, versions, entries', purges)
  {
    HistoriesUseEntries(files, versions, entries);
    hide History, HasOperation, HistoriesOK;
  }

  lemma EntriesSimilar(cleaning: set<string>, content: Content, flight: Flight, entries: Entries, entries': Entries,
                       versions: Histories)
    requires EntriesOK(flight, entries) && CleaningOK(cleaning, entries)
    requires RestoresFaithful(content, flight, entries) && Aimed(flight, entries, versions)
    requires Similar(entries, entries') && entries'.Keys == entries.Keys
    ensures EntriesOK(flight, entries') && CleaningOK(cleaning, entries')
    ensures RestoresFaithful(content, flight, entries') && Aimed(flight, entries', versions)
  {
    hide SameBytes, AimsAt;
    StillCommitted(entries, entries');
    hide Committed;
  }

  lemma StillCommitted(entries: Entries, entries': Entries)
    requires forall u :: u in entries ==> u in entries' && entries'[u].versionID == entries[u].versionID
    ensures forall v :: Committed(entries, v) ==> Committed(entries', v)
  {
    forall v | Committed(entries, v) ensures Committed(entries', v) {
      var t :| t in entries && entries[t].versionID == v;
      assert entries'[t].versionID == v;
    }
  }

  /** Everything the invariant says about files survives a change of entries that keeps
      them similar. */
  lemma FilesSimilar(w: World, entries': Entries)
    requires HistoriesOK(w.repo.files, w.repo.versions, w.repo.entries)
    requires LifecycleOK(w.repo.files, w.repo.versions, w.repo.entries, w.repo.purges)
    requires Similar(w.repo.entries, entries')
    ensures HistoriesOK(w.repo.files, w.repo.versions, entries')
    ensures LifecycleOK(w.repo.files, w.repo.versions, entries', w.repo.purges)
  {
    hide HistoriesOK, LifecycleOK, Similar;
    HistoriesSimilar(w.repo.files, w.repo.versions, w.repo.entries, entries');
    LifecycleSimilar(w.repo.files, w.repo.versions, w.repo.entries, entries', w.repo.purges);
  }

  /** The world once v's metadata is in. */
  ghost function Stored(w: World, v: string): World
    requires v in w.inFlight
  {
    w.(inFlight := w.inFlight - {v},
       repo := w.repo.(entries := w.repo.entries[w.inFlight[v].uploadID := w.inFlight[v]]))
  }

  lemma StoredKeeps(cfg: Config, w: World, v: string)
    requires Inv(cfg, w) && v in w.inFlight && w.inFlight[v].uploadID !in w.repo.entries
    ensures Inv(cfg, Stored(w, v)) && Committed(Stored(w, v).repo.entries, v)
  {
    var m := w.inFlight[v];
    assert Sound(cfg, w.ring, w.blobs, w.content, m);
    assert Live(m) && m.versionID == v;
    var entries' := w.repo.entries[m.uploadID := m];
    hide HistoriesOK, LifecycleOK, GrantsOK, Lineage, RestoresFaithful, Readable, EntriesOK, Similar, Sound, Aimed;
    assert entries'[m.uploadID].versionID == v;
    assert Similar(w.repo.entries, entries') by { EntryAdded(w.repo.entries, m); }
    StillCommitted(w.repo.entries, entries');
    EntriesGrow(cfg, w.ring, w.blobs, w.content, w.inFlight, w.repo.entries, w.repo.versions, v);
    FilesSimilar(w, entries');
  }

  lemma EntryAdded(entries: Entries, m: Metadata)
    requires m.uploadID !in entries && Live(m)
    ensures Similar(entries, entries[m.uploadID := m])
  {}

  lemma CommitProtectKeeps(cfg: Config, w: World, v: string)
    requires Inv(cfg, w)
    ensures Inv(cfg, CommitProtectStep(w, v))
    ensures v in w.inFlight ==>
              var m, w' := w.inFlight[v], CommitProtectStep(w, v);
              && v !in w'.inFlight && w'.ring == w.ring && w'.content == w.content
              && (m.uploadID in w.repo.entries ==> w'.repo == w.repo && w'.blobs == w.blobs - {m.blobObject})
              && (m.uploadID !in w.repo.entries ==>
                    w'.repo.entries == w.repo.entries[m.uploadID := m] && w'.blobs == w.blobs)
  {
    if v in w.inFlight {
      hide Inv;
      if w.inFlight[v].uploadID in w.repo.entries {
        DiscardKeeps(cfg, w, v);
      } else {
        StoredKeeps(cfg, w, v);
      }
    }
  }

  /** A commit that took effect and reports an error keeps the invariant too: what it takes
      away later is the object. */
  lemma CommitDoubtedKeeps(cfg: Config, w: World, v: string)
    requires Inv(cfg, w)
    ensures Inv(cfg, CommitDoubtedStep(w, v))
  {
    if v in w.inFlight && w.inFlight[v].uploadID !in w.repo.entries {
      {
        hide Inv;
        StoredKeeps(cfg, w, v);
      }
      hide HistoriesOK, LifecycleOK, GrantsOK, Lineage, RestoresFaithful, Readable, EntriesOK, Aimed, Committed;
    }
  }

  /** What the small steps do besides: a doubtful commit is in the tables, and its object is
      removed once; a crash forgets what was under way; giving up removes one's own object; a
      new key becomes the current one and no version loses its own; and an object goes if no
      live envelope and nothing under way names it. */
  lemma SmallSteps(w: World, v: string, version: string, kek: Key, name: string)
    requires v in w.inFlight ==> w.inFlight[v].versionID == v
    ensures
      var w' := CommitDoubtedStep(w, v);
      v in w.inFlight && w.inFlight[v].uploadID !in w.repo.entries ==>
        && w'.repo.entries == w.repo.entries[w.inFlight[v].uploadID := w.inFlight[v]]
        && v in w'.cleaning && v !in w'.inFlight && w'.blobs == w.blobs
    ensures
      var w' := CleanUpStep(w, v);
      && v !in w'.cleaning
      && w'.blobs == if v in w.cleaning then w.blobs - {v + ".ciphertext"} else w.blobs
    ensures CrashStep(w) == World(w.ring, w.blobs, map[], {}, w.repo, w.content)
    ensures
      var w' := AbortProtectStep(w, v);
      && v !in w'.inFlight && w'.repo == w.repo
      && w'.blobs == if v in w.inFlight then w.blobs - {w.inFlight[v].blobObject} else w.blobs
    ensures
      var w' := RotateStep(w, version, kek);
      if version == "" || (version in w.ring.keys && w.ring.keys[version] != kek) then w' == w
      else w' == w.(ring := w'.ring) && w'.ring.id == w.ring.id && w'.ring.version == version
           && w'.ring.keys == w.ring.keys[version := kek]
    ensures
      var named := (exists u :: u in w.repo.entries && w.repo.entries[u].wrappedDEK.Some? &&
                                w.repo.entries[u].blobObject == name)
                   || exists x :: x in w.inFlight && w.inFlight[x].blobObject == name;
      RemoveObjectStep(w, name) == if named then w else w.(blobs := w.blobs - {name})
  {}

  lemma CrashKeeps(cfg: Config, w: World)
    requires Inv(cfg, w)
    ensures Inv(cfg, CrashStep(w))
  {
    hide HistoriesOK, LifecycleOK, GrantsOK, Lineage, RestoresFaithful, EntriesOK, Readable, Aimed;
    FlightShrinks(cfg, w.ring, w.blobs, w.content, w.inFlight, w.inFlight.Keys, w.repo.entries, w.repo.versions);
    assert w.inFlight - w.inFlight.Keys == map[];
  }

  lemma RotateKeeps(cfg: Config, w: World, version: string, kek: Key)
    requires Inv(cfg, w)
    ensures Inv(cfg, RotateStep(w, version, kek))
  {
    hide HistoriesOK, LifecycleOK, GrantsOK, Lineage, RestoresFaithful, Aimed, Sound, Unwraps, EntriesOK;
    assert Untouched(w.blobs, w.blobs, w.inFlight, w.repo.entries);
    ReadableUntouched(cfg, w.ring, RotateStep(w, version, kek).ring, w.blobs, w.blobs, w.content, w.inFlight,
                      w.repo.entries);
  }

  lemma UntrackedUntouched(w: World, name: string)
    requires !Tracked(w, name)
    ensures Untouched(w.blobs, w.blobs - {name}, w.inFlight, w.repo.entries)
  {}

  lemma RemoveObjectKeeps(cfg: Config, w: World, name: string)
    requires Inv(cfg, w)
    ensures Inv(cfg, RemoveObjectStep(w, name))
  {
    if !Tracked(w, name) {
      assert ValidRing(w.ring);
      hide HistoriesOK, LifecycleOK, GrantsOK, Lineage, RestoresFaithful, EntriesOK, Readable, Aimed, CleaningOK,
           ValidRing, Untouched;
      UntrackedUntouched(w, name);
      ReadableUntouched(cfg, w.ring, w.ring, w.blobs, w.blobs - {name}, w.content, w.inFlight, w.repo.entries);
    }
  }

  // --- Rewrap ----------------------------------------------------------------

  ghost predicate OnlyWrapperDiffers(m: Metadata, m': Metadata) {
    m'.(wrappedDEK := m.wrappedDEK, wrappingKEKID := m.wrappingKEKID, wrappingKEKVersion := m.wrappingKEKVersion) == m
  }

  lemma WrapperSimilar(entries: Entries, u: OperationID, m: Metadata)
    requires u in entries && Live(entries[u]) && Live(m) && OnlyWrapperDiffers(entries[u], m)
    ensures Similar(entries, entries[u := m])
  {
    var e, d := entries[u], m.(wrappedDEK := entries[u].wrappedDEK, wrappingKEKID := entries[u].wrappingKEKID,
                               wrappingKEKVersion := entries[u].wrappingKEKVersion);
    assert d.versionID == m.versionID && d.blobObject == m.blobObject && d.uploadID == m.uploadID &&
           d.ownerID == m.ownerID;
  }

  lemma EntryReplacedReadable(cfg: Config, ring: Keyring, blobs: Blobs, content: Content, flight: Flight,
                              entries: Entries,
                              u: OperationID, m: Metadata)
    requires Readable(cfg, ring, blobs, content, flight, entries) && Unwraps(cfg, ring, m)
    requires m.blobObject in blobs ==> Sound(cfg, ring, blobs, content, m)
    ensures Readable(cfg, ring, blobs, content, flight, entries[u := m])
  {
    hide Sound, Unwraps;
  }

  /** Replacing the wrapper of one live version changes nothing the invariant speaks of but
      that version's own readability. */
  lemma WrapperReplaced(cfg: Config, w: World, u: OperationID, m: Metadata)
    requires Inv(cfg, w) && u in w.repo.entries && Live(w.repo.entries[u]) && Live(m)
    requires Unwraps(cfg, w.ring, m) && OnlyWrapperDiffers(w.repo.entries[u], m)
    requires m.blobObject in w.blobs ==> Sound(cfg, w.ring, w.blobs, w.content, m)
    ensures Inv(cfg, w.(repo := w.repo.(entries := w.repo.entries[u := m])))
  {
    hide HistoriesOK, LifecycleOK, GrantsOK, Lineage, RestoresFaithful, EntriesOK, Similar, Readable, Sound, Unwraps,
         OnlyWrapperDiffers, Aimed, CleaningOK;
    var entries' := w.repo.entries[u := m];
    WrapperSimilar(w.repo.entries, u, m);
    EntryReplacedReadable(cfg, w.ring, w.blobs, w.content, w.inFlight, w.repo.entries, u, m);
    FilesSimilar(w, entries');
    assert entries'.Keys == w.repo.entries.Keys;
    EntriesSimilar(w.cleaning, w.content, w.inFlight, w.repo.entries, entries', w.repo.versions);
  }

  lemma RewrapKeeps(cfg: Config, w: World, candidate: Metadata, nonce: Bytes)
    requires Inv(cfg, w)
    ensures Inv(cfg, RewrapStep(w, candidate, nonce))
  {
    if RewrapStep(w, candidate, nonce) != w {
      var u := candidate.uploadID;
      var m := w.repo.entries[u];
      var (id, version) := WrappingIdentity(candidate);
      var dek := Unwrap(w.ring, candidate.wrappedDEK, id, version).value;
      assert m.wrappedDEK == candidate.wrappedDEK && dek == m.wrappedDEK.value.dek && Live(m);
      var m' := Rewrapped(w.ring, m, dek, nonce);
      RewrapSound(cfg, w, u, nonce);
      hide Inv, Sound, Unwraps, WrappingIdentity, Unwrap;
      WrapperReplaced(cfg, w, u, m');
    }
  }

  lemma RewrapSound(cfg: Config, w: World, u: OperationID, nonce: Bytes)
    requires Inv(cfg, w) && u in w.repo.entries && Live(w.repo.entries[u])
    ensures
      var m' := Rewrapped(w.ring, w.repo.entries[u], w.repo.entries[u].wrappedDEK.value.dek, nonce);
      && Unwraps(cfg, w.ring, m')
      && (m'.blobObject in w.blobs ==> Sound(cfg, w.ring, w.blobs, w.content, m'))
  {
    hide HistoriesOK, LifecycleOK, GrantsOK, Lineage, RestoresFaithful, Aimed, EntriesOK, Intact, Unwraps;
    RewrapKeepsIntact(cfg, w.ring, w.blobs, w.repo.entries[u], nonce);
  }
}
