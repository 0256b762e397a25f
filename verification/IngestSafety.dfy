/** What ingestion keeps, whatever fails and wherever the process stops. */
module IngestSafety {
  import opened Wrappers
  import opened IngestModel

  // --- One upload ------------------------------------------------------------

  /** From here on the upload has been accepted by policy. */
  predicate PastAcceptance(t: Task) {
    || (t.PublishVerdict? && t.verdict == Accepted)
    || t.PersistEncrypting? || t.OpenPlaintext? || t.FindMetadata? || t.WriteObject?
    || t.CommitMetadata? || t.RemoveOwnObject? || t.RegisterFile? || t.MarkStored? || t.PersistStored?
  }

  predicate AcceptedStatus(s: Status) { s == Accepted || s == Encrypting || s == Stored }

  /** Nothing is protected without a persisted acceptance. */
  predicate AcceptedFirst(s: Upload) {
    && (s.row.Some? && AcceptedStatus(s.row.value.status) ==> s.accepted)
    && (s.memory.Some? && AcceptedStatus(s.memory.value.status) ==> s.accepted)
    && (s.task.Some? && PastAcceptance(s.task.value) ==> s.accepted)
    && (s.metadata.Some? ==> s.accepted)
  }

  /** The status readers see while a task is at this point. */
  predicate StatusFits(t: Task, s: Status) {
    match t
    case OpenObject => s == Quarantined
    case Stream => s == Quarantined
    case PersistReceived => s == Quarantined
    case CleanObject => s == Quarantined
    case CleanRow => s == Quarantined
    case CleanMemory => s == Quarantined
    case BeginInspection => s == Quarantined || s == Inspecting
    case PersistInspecting => s == Inspecting
    case Scan => s == Inspecting
    case PersistVerdict(v) => s == Inspecting && (v == Failed || v == Rejected || v == Accepted)
    case PublishVerdict(v) => s == Inspecting && (v == Failed || v == Rejected || v == Accepted)
    case BeginProtection => s == Accepted || s == Encrypting
    case MarkFailed => true
    case PersistFailed => s == Failed
    case RemovePlaintext => Terminal(s)
    case PersistStored => s == Stored
    case _ => s == Encrypting
  }

  /** A row that may be dropped from memory has never left the quarantine; one that has come
      back is what memory shows. */
  predicate Placed(s: Upload) {
    && (s.row.Some? && ((s.task.Some? && Receives(s.task.value)) || Dropped(s)) ==> s.row.value.status == Quarantined)
    && (s.standing.Returned? ==>
          s.task == None && s.row.Some? && s.memory == s.row && s.row.value.status == Quarantined)
    && (s.standing.Unloaded? ==> s.task == None && s.memory == None)
  }

  /** What is not finished has a task that will go on with it, unless it has come back with a
      repeated key. */
  predicate NotStuck(s: Upload) {
    && (s.memory.Some? && !Terminal(s.memory.value.status) ==> s.task.Some? || s.standing.Returned?)
    && (s.task.Some? ==> s.memory.Some? && StatusFits(s.task.value, s.memory.value.status))
    && Placed(s)
  }

  /** What readers see as stored, and what is persisted as stored, has metadata. */
  predicate SaysStored(s: Upload) {
    || (s.row.Some? && s.row.value.status == Stored)
    || (s.memory.Some? && s.memory.value.status == Stored)
    || (s.task.Some? && (s.task.value.MarkStored? || s.task.value.PersistStored?))
  }

  // --- Shared state ----------------------------------------------------------

  /** Version v was written for upload u. */
  predicate WrittenFor(w: World, v: string, u: string) { v in w.written && w.written[v] == u }

  /** Committed metadata names a version written for that very upload, whose object is in
      place unless its commit reported an error after taking effect. */
  ghost predicate ObjectInPlace(w: World, u: string, s: Upload) {
    && (s.metadata.Some? ==>
          WrittenFor(w, s.metadata.value, u) && (s.metadata.value in w.objects || s.metadata.value in w.doubted))
    && (s.task.Some? ==>
          match s.task.value
          case CommitMetadata(v) => WrittenFor(w, v, u) && v in w.objects && s.metadata != Some(v)
          case RemoveOwnObject(v, committed) =>
            && WrittenFor(w, v, u) && (s.metadata == Some(v) ==> v in w.doubted)
            && (committed.Some? ==> s.metadata == committed)
          case RegisterFile(v) => s.metadata == Some(v)
          case _ => true)
  }

  /** In the catalogue under the version that was committed for it. */
  ghost predicate Catalogued(w: World, u: string, s: Upload) {
    s.metadata.Some? && exists f :: f in w.files && w.files[f].upload == u && w.files[f].first == s.metadata.value
  }

  ghost predicate Sound(w: World, u: string, s: Upload) {
    AcceptedFirst(s) && NotStuck(s) && ObjectInPlace(w, u, s) && (SaysStored(s) ==> Catalogued(w, u, s))
  }

  /** The file's first version is what was committed for its upload, and is in its history
      with the one it points at now; all of them were written for that upload. */
  ghost predicate FileOK(w: World, f: CatalogFile) {
    && f.upload in w.uploads && f.ownerID == w.uploads[f.upload].ownerID
    && w.uploads[f.upload].metadata == Some(f.first)
    && f.first in f.versions && f.current in f.versions
    && (forall v :: v in f.versions ==> WrittenFor(w, v, f.upload))
  }

  ghost predicate FilesOK(w: World) {
    && (forall f :: f in w.files ==> FileOK(w, w.files[f]))
    && (forall f, g :: f in w.files && g in w.files && w.files[f].upload == w.files[g].upload ==> f == g)
  }

  ghost predicate VersionsOK(w: World) {
    (forall v :: v in w.objects ==> v in w.written) && (forall v :: v in w.doubted ==> v in w.written)
  }

  ghost predicate Inv(w: World) {
    (forall u :: u in w.uploads ==> Sound(w, u, w.uploads[u])) && FilesOK(w) && VersionsOK(w)
  }

  // --- Effects on one upload only --------------------------------------------

  predicate HandlesVersion(t: Task) { t.CommitMetadata? || t.RemoveOwnObject? || t.RegisterFile? }

  /** A change to one upload that keeps what the others and the catalogue rely on. */
  predicate Keeps(s: Upload, s': Upload) {
    s'.ownerID == s.ownerID && s'.metadata == s.metadata
  }

  /** A change that has nothing to do with versions. */
  predicate Local(s: Upload, s': Upload) {
    && Keeps(s, s') && AcceptedFirst(s') && NotStuck(s')
    && (s'.task.Some? ==> !HandlesVersion(s'.task.value))
    && (SaysStored(s') ==> SaysStored(s))
  }

  lemma PutKeeps(w: World, u: string, s': Upload)
    requires Inv(w) && u in w.uploads && Keeps(w.uploads[u], s') && Sound(w, u, s')
    ensures Inv(Put(w, u, s'))
  {
    var w' := Put(w, u, s');
    hide AcceptedFirst, NotStuck, SaysStored;
    forall x | x in w'.uploads ensures Sound(w', x, w'.uploads[x]) {
      assert Sound(w, x, w'.uploads[x]);
    }
  }

  lemma LocalKeeps(w: World, u: string, s': Upload)
    requires Inv(w) && u in w.uploads && Local(w.uploads[u], s')
    ensures Inv(Put(w, u, s'))
  {
    hide AcceptedFirst, NotStuck, SaysStored, FilesOK, VersionsOK;
    assert Sound(w, u, w.uploads[u]);
    assert Sound(w, u, s');
    hide Sound;
    PutKeeps(w, u, s');
  }

  /** Persisting a row and moving on, whatever the answer. */
  lemma PersistLocal(s: Upload, row: Row, a: Answer, success: Task, failure: Task)
    requires AcceptedFirst(s) && s.memory.Some?
    requires row.status == Stored ==> SaysStored(s)
    requires AcceptedStatus(row.status) && row.status != Accepted ==> s.accepted
    requires PastAcceptance(success) ==> s.accepted || row.status == Accepted
    requires !PastAcceptance(failure) && !HandlesVersion(success) && !success.MarkStored? && !success.PersistStored?
    requires StatusFits(success, s.memory.value.status) && StatusFits(failure, s.memory.value.status)
    requires s.standing.Attended? && !Receives(success)
    requires Receives(failure) ==> row.status == Quarantined && (s.row.Some? ==> s.row.value.status == Quarantined)
    ensures Local(s, PersistThen(s, row, a, success, failure))
  {
    hide StatusFits;
  }

  lemma ReceptionLocal(s: Upload, a: Answer)
    requires AcceptedFirst(s) && NotStuck(s) && s.memory.Some? && s.task.Some? && Receives(s.task.value)
    ensures Local(s, Reception(s, s.task.value, a))
  {
    if s.task.value.PersistReceived? {
      PersistLocal(s, s.memory.value, a, BeginInspection, CleanObject);
      hide Local, PersistThen;
    }
  }

  lemma InspectingLocal(s: Upload, a: Answer)
    requires AcceptedFirst(s) && NotStuck(s) && s.memory.Some? && s.task.Some?
    requires s.task.value.BeginInspection? || s.task.value.PersistInspecting?
    ensures Local(s, Inspection(s, s.task.value, a))
  {
    if s.task.value.PersistInspecting? {
      PersistLocal(s, s.memory.value, a, Scan, MarkFailed);
    }
  }

  lemma VerdictLocal(s: Upload, a: Answer)
    requires AcceptedFirst(s) && NotStuck(s) && s.memory.Some? && s.task.Some? && s.task.value.PersistVerdict?
    ensures Local(s, Inspection(s, s.task.value, a))
  {
    var v := s.task.value.verdict;
    PersistLocal(s, s.memory.value.(status := v), a, PublishVerdict(v), MarkFailed);
  }

  lemma PublishLocal(s: Upload, a: Answer)
    requires AcceptedFirst(s) && NotStuck(s) && s.memory.Some? && s.task.Some?
    requires s.task.value.Scan? || s.task.value.PublishVerdict?
    ensures Local(s, Inspection(s, s.task.value, a))
  {}

  lemma InspectionLocal(s: Upload, a: Answer)
    requires AcceptedFirst(s) && NotStuck(s) && s.memory.Some? && s.task.Some? && Inspects(s.task.value)
    ensures Local(s, Inspection(s, s.task.value, a))
  {
    hide Local, Inspection, AcceptedFirst, NotStuck;
    var t := s.task.value;
    if t.BeginInspection? || t.PersistInspecting? {
      InspectingLocal(s, a);
    } else if t.PersistVerdict? {
      VerdictLocal(s, a);
    } else {
      PublishLocal(s, a);
    }
  }

  lemma FailingLocal(s: Upload, a: Answer)
    requires AcceptedFirst(s) && NotStuck(s) && s.memory.Some? && s.task.Some? && Fails(s.task.value)
    ensures Local(s, Failing(s, s.task.value, a))
  {
    if s.task.value.PersistFailed? {
      PersistLocal(s, s.memory.value, a, RemovePlaintext, RemovePlaintext);
      hide Local, PersistThen;
    }
  }

  lemma RecoveredLocal(s: Upload, a: Answer)
    requires AcceptedFirst(s) && NotStuck(s)
    ensures Recovered(s, a) == s || Local(s, Recovered(s, a))
  {}

  // --- Protection ------------------------------------------------------------

  /** The steps of protection that touch no version. */
  lemma BeginLocal(s: Upload, a: Answer)
    requires AcceptedFirst(s) && NotStuck(s) && s.memory.Some? && s.task == Some(BeginProtection)
    ensures Local(s, Go(SetStatus(s, Encrypting), PersistEncrypting))
  {}

  lemma EncryptingLocal(s: Upload, a: Answer)
    requires AcceptedFirst(s) && NotStuck(s) && s.memory.Some? && s.task == Some(PersistEncrypting)
    ensures Local(s, PersistThen(s, s.memory.value, a, OpenPlaintext, MarkFailed))
  {
    PersistLocal(s, s.memory.value, a, OpenPlaintext, MarkFailed);
  }

  lemma StoredLocal(s: Upload, a: Answer)
    requires AcceptedFirst(s) && NotStuck(s) && s.memory.Some? && s.task == Some(PersistStored)
    ensures Local(s, PersistThen(s, s.memory.value, a, RemovePlaintext, MarkFailed))
  {
    PersistLocal(s, s.memory.value, a, RemovePlaintext, MarkFailed);
  }

  /** Moving to another protection task, with nothing else changed. */
  lemma GoLocal(s: Upload, t: Task)
    requires AcceptedFirst(s) && NotStuck(s) && s.memory.Some? && s.memory.value.status == Encrypting && s.accepted
    requires t == MarkFailed || t == FindMetadata || t == WriteObject
    requires s.task.Some? && !s.task.value.RemovePlaintext?
    ensures Local(s, Go(s, t))
  {}

  lemma MarkLocal(s: Upload)
    requires AcceptedFirst(s) && NotStuck(s) && s.memory.Some? && s.task == Some(MarkStored)
    ensures Local(s, Go(SetStatus(s, Stored), PersistStored))
  {}

  lemma RegisterFromMetadata(w: World, u: string)
    requires Inv(w) && u in w.uploads
    requires w.uploads[u].task == Some(FindMetadata) && w.uploads[u].metadata.Some?
    ensures Inv(Put(w, u, Go(w.uploads[u], RegisterFile(w.uploads[u].metadata.value))))
  {
    assert Sound(w, u, w.uploads[u]);
    hide FilesOK, VersionsOK;
    PutKeeps(w, u, Go(w.uploads[u], RegisterFile(w.uploads[u].metadata.value)));
  }

  /** More objects, versions, doubts and files. */
  predicate Grows(w: World, w': World) {
    && w.objects <= w'.objects && w.doubted <= w'.doubted
    && (forall v :: v in w.written ==> v in w'.written && w'.written[v] == w.written[v])
    && (forall f :: f in w.files ==>
        f in w'.files && w'.files[f].upload == w.files[f].upload && w'.files[f].first == w.files[f].first)
  }

  lemma SoundGrows(w: World, w': World, u: string, s: Upload)
    requires Sound(w, u, s) && Grows(w, w')
    ensures Sound(w', u, s)
  {
    hide AcceptedFirst, NotStuck, SaysStored;
    if Catalogued(w, u, s) {
      var f :| f in w.files && w.files[f].upload == u && w.files[f].first == s.metadata.value;
      assert w'.files[f].upload == u;
    }
  }

  /** A step on upload u over grown shared state. */
  lemma Assemble(w: World, w': World, u: string, s': Upload)
    requires Inv(w) && u in w.uploads && w'.uploads == w.uploads && Grows(w, w')
    requires Sound(w', u, s') && FilesOK(Put(w', u, s')) && VersionsOK(w')
    ensures Inv(Put(w', u, s'))
  {
    hide FilesOK, Grows, Sound;
    SoundElsewhere(w', u, s', u, s');
    forall x | x in w.uploads && x != u ensures Sound(Put(w', u, s'), x, w.uploads[x]) {
      SoundGrows(w, w', x, w.uploads[x]);
      SoundElsewhere(w', u, s', x, w.uploads[x]);
    }
  }

  /** Soundness looks at the shared state and the one upload only. */
  lemma SoundElsewhere(w: World, u: string, s: Upload, x: string, other: Upload)
    requires Sound(w, x, other)
    ensures Sound(Put(w, u, s), x, other)
  {
    hide AcceptedFirst, NotStuck, SaysStored;
  }

  /** Files rely on an upload's owner, metadata and being settled, and on what was written. */
  lemma FilesGrow(w: World, w': World, u: string, s': Upload)
    requires FilesOK(w) && u in w.uploads && w'.uploads == w.uploads && w'.files == w.files && Grows(w, w')
    requires s'.ownerID == w.uploads[u].ownerID &&
             (w.uploads[u].metadata.Some? ==> s'.metadata == w.uploads[u].metadata)
    ensures FilesOK(Put(w', u, s'))
  {}

  lemma VersionTaskLocal(s: Upload, t: Task, metadata: Option<string>)
    requires AcceptedFirst(s) && NotStuck(s) && s.task.Some? && s.memory.Some? && s.memory.value.status == Encrypting &&
             s.accepted
    requires HandlesVersion(t) || t == MarkFailed || t == MarkStored
    ensures AcceptedFirst(Go(s.(metadata := metadata), t)) && NotStuck(Go(s.(metadata := metadata), t))
    ensures t != MarkStored && SaysStored(Go(s.(metadata := metadata), t)) ==> SaysStored(s)
  {}

  /** The ciphertext object is written under a fresh version. */
  lemma WriteKeeps(w: World, u: string, v: string)
    requires Inv(w) && u in w.uploads && w.uploads[u].task == Some(WriteObject) && !VersionUsed(w, v)
    ensures Inv(Put(w.(objects := w.objects + {v}, written := w.written[v := u]), u,
                    Go(w.uploads[u], CommitMetadata(v))))
  {
    var s := w.uploads[u];
    var w' := w.(objects := w.objects + {v}, written := w.written[v := u]);
    assert Sound(w, u, s);
    VersionTaskLocal(s, CommitMetadata(v), s.metadata);
    assert s.(metadata := s.metadata) == s;
    hide AcceptedFirst, NotStuck, SaysStored, FilesOK, Inv;
    SoundGrows(w, w', u, s);
    FilesGrow(w, w', u, Go(s, CommitMetadata(v)));
    Assemble(w, w', u, Go(s, CommitMetadata(v)));
  }

  /** The upload after an effect of its own, over the shared state that effect leaves. */
  ghost predicate AfterEffect(w: World, u: string, a: Answer)
    requires u in w.uploads && w.uploads[u].memory.Some? && w.uploads[u].task.Some?
  {
    var (w', s') := Protection(w, u, w.uploads[u], w.uploads[u].task.value, a);
    Inv(Put(w', u, s'))
  }

  lemma CommitSound(w: World, u: string, s: Upload, v: string, a: Answer)
    requires Sound(w, u, s) && s.task == Some(CommitMetadata(v)) && s.memory.Some?
    ensures var (w', s') := Protection(w, u, s, CommitMetadata(v), a); Sound(w', u, s')
  {
    var (w', s') := Protection(w, u, s, CommitMetadata(v), a);
    VersionTaskLocal(s, s'.task.value, s'.metadata);
    assert s' == Go(s.(metadata := s'.metadata), s'.task.value);
    hide AcceptedFirst, NotStuck, SaysStored;
    SoundGrows(w, w', u, s);
  }

  /** The metadata commit: the first one counts, and one that reports an error leaves the
      version in doubt. */
  lemma CommitKeeps(w: World, u: string, v: string, a: Answer)
    requires Inv(w) && u in w.uploads && w.uploads[u].task == Some(CommitMetadata(v)) && w.uploads[u].memory.Some?
    ensures AfterEffect(w, u, a)
  {
    var s := w.uploads[u];
    var (w', s') := Protection(w, u, s, CommitMetadata(v), a);
    assert Sound(w, u, s);
    InvVersions(w);
    assert Grows(w, w') && VersionsOK(w');
    hide Inv, Sound, FilesOK, VersionsOK, Grows;
    CommitSound(w, u, s, v, a);
    FilesGrow(w, w', u, s');
    Assemble(w, w', u, s');
  }

  lemma RemoveSound(w: World, u: string, s: Upload, v: string, committed: Option<string>, a: Answer)
    requires Sound(w, u, s) && s.task == Some(RemoveOwnObject(v, committed)) && s.memory.Some?
    ensures var (w', s') := Protection(w, u, s, RemoveOwnObject(v, committed), a); Sound(w', u, s')
  {
    var (w', s') := Protection(w, u, s, RemoveOwnObject(v, committed), a);
    VersionTaskLocal(s, s'.task.value, s.metadata);
    assert s.(metadata := s.metadata) == s;
    hide AcceptedFirst, NotStuck, SaysStored;
  }

  lemma RemoveElsewhere(w: World, u: string, v: string, x: string, other: Upload)
    requires Sound(w, x, other) && WrittenFor(w, v, u) && x != u
    ensures Sound(w.(objects := w.objects - {v}), x, other)
  {
    hide AcceptedFirst, NotStuck, SaysStored;
  }

  /** Removing an object that no committed metadata relies on. */
  lemma RemoveKeeps(w: World, u: string, v: string, committed: Option<string>, a: Answer)
    requires Inv(w) && u in w.uploads && w.uploads[u].task == Some(RemoveOwnObject(v, committed)) &&
             w.uploads[u].memory.Some?
    ensures AfterEffect(w, u, a)
  {
    var s := w.uploads[u];
    var (w', s') := Protection(w, u, s, RemoveOwnObject(v, committed), a);
    assert Sound(w, u, s) && WrittenFor(w, v, u);
    hide Sound, FilesOK, WrittenFor;
    RemoveSound(w, u, s, v, committed, a);
    SoundElsewhere(w', u, s', u, s');
    forall x | x in w.uploads && x != u ensures Sound(Put(w', u, s'), x, w.uploads[x]) {
      RemoveElsewhere(w, u, v, x, w.uploads[x]);
      SoundElsewhere(w', u, s', x, w.uploads[x]);
    }
    RemoveFiles(w, w', u, s');
  }

  lemma RemoveFiles(w: World, w': World, u: string, s': Upload)
    requires FilesOK(w) && u in w.uploads && w'.uploads == w.uploads && w'.files == w.files && w'.written == w.written
    requires Keeps(w.uploads[u], s')
    ensures FilesOK(Put(w', u, s'))
  {}

  // --- Registration ----------------------------------------------------------

  /** What is recognised by an upload's version is that upload's own file. */
  lemma RecognisedIsOwn(w: World, u: string, v: string, f: string)
    requires Inv(w) && u in w.uploads && w.uploads[u].metadata == Some(v) && f in w.files && v in w.files[f].versions
    ensures w.files[f].upload == u && w.files[f].first == v
  {
    hide AcceptedFirst, NotStuck, SaysStored, VersionsOK;
    assert Sound(w, u, w.uploads[u]) && FileOK(w, w.files[f]);
  }

  /** An upload's file holds the upload's version, so a second one is never added. */
  lemma RegisterFiles(w: World, u: string, v: string, name: string)
    requires Inv(w) && u in w.uploads && w.uploads[u].metadata == Some(v)
    ensures FilesOK(Register(w, u, w.uploads[u].ownerID, v, name))
  {
    hide Sound, VersionsOK, Recognises;
    var w' := Register(w, u, w.uploads[u].ownerID, v, name);
    if w' != w {
      assert WrittenFor(w, v, u) by { MetadataWritten(w, u); }
      forall f | f in w.files ensures w.files[f].upload != u {
        assert FileOK(w, w.files[f]);
      }
    }
  }

  lemma MetadataWritten(w: World, u: string)
    requires Inv(w) && u in w.uploads && w.uploads[u].metadata.Some?
    ensures WrittenFor(w, w.uploads[u].metadata.value, u)
  {
    assert Sound(w, u, w.uploads[u]);
  }

  /** A registration that reports success leaves the upload catalogued. */
  lemma RegisterCatalogues(w: World, u: string, v: string, name: string)
    requires Inv(w) && u in w.uploads && w.uploads[u].metadata == Some(v)
    requires name !in w.files && Registrable(w, w.uploads[u].ownerID, v)
    ensures Catalogued(Register(w, u, w.uploads[u].ownerID, v, name), u, w.uploads[u])
  {
    hide Inv;
    var owner := w.uploads[u].ownerID;
    if f :| f in w.files && Recognises(w, f, owner, v) {
      CurrentInHistory(w, f);
      RecognisedIsOwn(w, u, v, f);
    } else {
      var w' := Register(w, u, owner, v, name);
      assert w'.files[name].upload == u && w'.files[name].first == v;
    }
  }

  lemma CurrentInHistory(w: World, f: string)
    requires Inv(w) && f in w.files
    ensures w.files[f].current in w.files[f].versions
  {
    assert FileOK(w, w.files[f]);
  }

  lemma RegisterGrows(w: World, u: string, owner: string, v: string, name: string)
    ensures Grows(w, Register(w, u, owner, v, name))
    ensures VersionsOK(w) ==> VersionsOK(Register(w, u, owner, v, name))
    ensures Register(w, u, owner, v, name).uploads == w.uploads
  {
    hide Recognises, InHistory;
  }

  lemma RegisterSound(w: World, u: string, s: Upload, w': World, t: Task)
    requires Sound(w, u, s) && s.task.Some? && s.task.value.RegisterFile? && s.memory.Some? && Grows(w, w')
    requires t == MarkFailed || (t == MarkStored && Catalogued(w', u, s))
    ensures Sound(w', u, Go(s, t))
  {
    VersionTaskLocal(s, t, s.metadata);
    assert s.(metadata := s.metadata) == s;
    SoundGrows(w, w', u, s);
    hide AcceptedFirst, NotStuck, SaysStored, Grows;
  }

  lemma RegisterKeeps(w: World, u: string, v: string, a: Answer)
    requires Inv(w) && u in w.uploads && w.uploads[u].task == Some(RegisterFile(v)) && w.uploads[u].memory.Some?
    ensures AfterEffect(w, u, a)
  {
    var s := w.uploads[u];
    var (w', s') := Protection(w, u, s, RegisterFile(v), a);
    assert Sound(w, u, s) && s.metadata == Some(v);
    hide Sound, FilesOK, Register, Registrable, Grows, VersionsOK, Catalogued;
    RegisterFiles(w, u, v, a.name);
    if a.ok && a.name !in w.files && Registrable(w, s.ownerID, v) { RegisterCatalogues(w, u, v, a.name); }
    RegisterGrows(w, u, s.ownerID, v, a.name);
    GrowsRefl(w);
    GrowsRefl(w');
    InvVersions(w);
    hide Inv;
    RegisterSound(w, u, s, w', s'.task.value);
    FilesGrow(w', w', u, s');
    Assemble(w, w', u, s');
  }

  lemma GrowsRefl(w: World)
    ensures Grows(w, w)
  {}

  lemma InvVersions(w: World)
    requires Inv(w)
    ensures VersionsOK(w) && FilesOK(w)
  {}

  // --- Every step ------------------------------------------------------------

  lemma ProtectionKeeps(w: World, u: string, a: Answer)
    requires Inv(w) && u in w.uploads && w.uploads[u].memory.Some? && w.uploads[u].task.Some?
    requires !Receives(w.uploads[u].task.value) && !Inspects(w.uploads[u].task.value) && !Fails(w.uploads[u].task.value)
    ensures AfterEffect(w, u, a)
  {
    var s := w.uploads[u];
    assert Sound(w, u, s);
    hide Inv, Local, PersistThen, FilesOK, ObjectInPlace, Sound;
    match s.task.value
    case BeginProtection =>
      assert s.memory.value.status == Accepted || s.memory.value.status == Encrypting;
      BeginLocal(s, a);
      LocalKeeps(w, u, Go(SetStatus(s, Encrypting), PersistEncrypting));
    case PersistEncrypting =>
      EncryptingLocal(s, a);
      LocalKeeps(w, u, PersistThen(s, s.memory.value, a, OpenPlaintext, MarkFailed));
    case OpenPlaintext =>
      GoLocal(s, if a.ok && s.quarantined then FindMetadata else MarkFailed);
      LocalKeeps(w, u, Go(s, if a.ok && s.quarantined then FindMetadata else MarkFailed));
    case FindMetadata =>
      if a.ok && s.metadata.Some? {
        RegisterFromMetadata(w, u);
      } else {
        GoLocal(s, if a.ok then WriteObject else MarkFailed);
        LocalKeeps(w, u, Go(s, if a.ok then WriteObject else MarkFailed));
      }
    case WriteObject =>
      if !a.ok || VersionUsed(w, a.name) {
        GoLocal(s, MarkFailed);
        LocalKeeps(w, u, Go(s, MarkFailed));
      } else {
        WriteKeeps(w, u, a.name);
      }
    case CommitMetadata(v) => CommitKeeps(w, u, v, a);
    case RemoveOwnObject(v, committed) => RemoveKeeps(w, u, v, committed, a);
    case RegisterFile(v) => RegisterKeeps(w, u, v, a);
    case MarkStored =>
      MarkLocal(s);
      LocalKeeps(w, u, Go(SetStatus(s, Stored), PersistStored));
    case PersistStored =>
      StoredLocal(s, a);
      LocalKeeps(w, u, PersistThen(s, s.memory.value, a, RemovePlaintext, MarkFailed));
  }

  lemma ActKeeps(w: World, u: string, a: Answer)
    requires Inv(w)
    ensures Inv(Step(w, u, a))
  {
    if u in w.uploads && w.uploads[u].task.Some? && w.uploads[u].memory.Some? {
      var s := w.uploads[u];
      var t := s.task.value;
      assert Sound(w, u, s);
      hide Inv, Local, AcceptedFirst, NotStuck, Reception, Inspection, Failing, Protection;
      if Receives(t) {
        ReceptionLocal(s, a);
        LocalKeeps(w, u, Reception(s, t, a));
      } else if Inspects(t) {
        InspectionLocal(s, a);
        LocalKeeps(w, u, Inspection(s, t, a));
      } else if Fails(t) {
        FailingLocal(s, a);
        LocalKeeps(w, u, Failing(s, t, a));
      } else {
        ProtectionKeeps(w, u, a);
      }
    }
  }

  lemma RecoverKeeps(w: World, u: string, a: Answer)
    requires Inv(w) && u in w.uploads
    ensures Inv(Put(w, u, Recovered(w.uploads[u], a)))
  {
    var s := w.uploads[u];
    assert Sound(w, u, s);
    hide Inv, Local, Recovered;
    RecoveredLocal(s, a);
    if Recovered(s, a) == s {
      assert Put(w, u, s) == w;
    } else {
      LocalKeeps(w, u, Recovered(s, a));
    }
  }

  lemma TakenBackLocal(s: Upload)
    requires AcceptedFirst(s) && NotStuck(s)
    ensures TakenBack(s) == s || Local(s, TakenBack(s))
  {}

  lemma RetryKeeps(w: World, u: string)
    requires Inv(w) && u in w.uploads
    ensures Inv(Put(w, u, TakenBack(w.uploads[u])))
  {
    var s := w.uploads[u];
    assert Sound(w, u, s);
    hide Inv, Local, TakenBack;
    TakenBackLocal(s);
    if TakenBack(s) == s {
      assert Put(w, u, s) == w;
    } else {
      LocalKeeps(w, u, TakenBack(s));
    }
  }

  lemma CrashKeeps(w: World)
    requires Inv(w)
    ensures Inv(Next(w, Crash))
  {
    var w' := Next(w, Crash);
    forall u | u in w.uploads ensures Sound(w', u, w'.uploads[u]) && Keeps(w.uploads[u], w'.uploads[u]) {
      assert Sound(w, u, w.uploads[u]);
      hide Inv;
    }
    hide Sound;
  }

  lemma AdmitKeeps(w: World, u: string, owner: string)
    requires Inv(w) && u !in w.uploads
    ensures Inv(Put(w, u, Admitted(owner)))
  {
    var w' := Put(w, u, Admitted(owner));
    assert Sound(w, u, Admitted(owner));
    hide Sound;
    forall x | x in w'.uploads ensures Sound(w', x, w'.uploads[x]) {
      SoundElsewhere(w, u, Admitted(owner), x, w'.uploads[x]);
    }
  }

  /** Uploads are not touched, and what they rely on is still there. */
  lemma SharedKeeps(w: World, w': World)
    requires Inv(w) && w'.uploads == w.uploads && Grows(w, w') && FilesOK(w') && VersionsOK(w')
    ensures Inv(w')
  {
    hide Sound, Grows, FilesOK, VersionsOK;
    forall x | x in w.uploads ensures Sound(w', x, w.uploads[x]) {
      SoundGrows(w, w', x, w.uploads[x]);
    }
  }

  lemma RestoredFiles(w: World, f: string, v: string)
    requires FilesOK(w)
    ensures FilesOK(RestoreFile(w, f, v))
  {}

  lemma RestoreKeeps(w: World, f: string, v: string)
    requires Inv(w)
    ensures Inv(RestoreFile(w, f, v))
  {
    hide Sound, FilesOK;
    RestoredFiles(w, f, v);
    var w' := RestoreFile(w, f, v);
    assert Grows(w, w') && VersionsOK(w');
    hide Grows, VersionsOK, RestoreFile, Inv;
    SharedKeeps(w, w');
  }

  lemma ListedFiles(w: World, f: string, listed: bool)
    requires FilesOK(w)
    ensures FilesOK(ListFile(w, f, listed))
  {}

  lemma ListKeeps(w: World, f: string, listed: bool)
    requires Inv(w)
    ensures Inv(ListFile(w, f, listed))
  {
    hide Sound, FilesOK;
    ListedFiles(w, f, listed);
    var w' := ListFile(w, f, listed);
    assert Grows(w, w') && VersionsOK(w');
    hide Grows, VersionsOK, ListFile, Inv;
    SharedKeeps(w, w');
  }

  lemma StepKeeps(w: World, e: Event)
    requires Inv(w)
    ensures Inv(Next(w, e))
  {
    hide Inv, Step, Recovered, TakenBack, RestoreFile, ListFile;
    match e
    case Admit(u, owner) => if u !in w.uploads { AdmitKeeps(w, u, owner); }
    case Retry(u) => if u in w.uploads { RetryKeeps(w, u); }
    case Act(u, a) => ActKeeps(w, u, a);
    case Crash => CrashKeeps(w);
    case Recover(u, a) => if u in w.uploads { RecoverKeeps(w, u, a); }
    case RestoreVersion(f, v) => RestoreKeeps(w, f, v);
    case SetListed(f, listed) => ListKeeps(w, f, listed);
  }

  /** Crash-safe ingestion: whatever fails, however often the process stops between two
      effects, and whatever users do with the files meanwhile, the invariant holds after
      every run. */
  lemma {:induction false} RunKeeps(events: seq<Event>)
    ensures Inv(Run(events))
  {
    if events != [] {
      RunKeeps(events[..|events| - 1]);
      hide Inv, Next;
      StepKeeps(Run(events[..|events| - 1]), events[|events| - 1]);
    }
  }
}
