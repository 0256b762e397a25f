/** What a reader gets back: the bytes first uploaded, through every run, unless the one
    thing happened that loses an object. */
module StoreContent {
  import opened Wrappers
  import opened Framing
  import opened Envelope
  import opened StoreModel
  import opened StoreInvariant
  import opened StoreSteps

  // --- The bytes that were uploaded ------------------------------------------

  /** Version v protects operation u, committed or still in flight. */
  ghost predicate Names(w: World, v: string, u: OperationID) {
    || (v in w.inFlight && w.inFlight[v].uploadID == u)
    || (u in w.repo.entries && w.repo.entries[u].versionID == v)
  }

  /** The step that writes version v, and the bytes it was given. */
  ghost function Written(cfg: Config, w: World, e: Event, v: string): Option<Bytes> {
    if e.StartProtect? && e.draw.versionID == v && v !in w.inFlight && v in Next(cfg, w, e).inFlight
    then Some(e.plaintext) else None
  }

  /** The bytes handed to the latest upload step that wrote version v. */
  ghost function Uploaded(cfg: Config, ring: Keyring, events: seq<Event>, v: string): Option<Bytes> {
    if events == [] then None
    else
      var before := events[..|events| - 1];
      var here := Written(cfg, Run(cfg, EmptyWorld(ring), before), events[|events| - 1], v);
      if here.Some? then here else Uploaded(cfg, ring, before, v)
  }

  /** This step leaves version v of operation u what it was. */
  ghost predicate Unchanged(w: World, w': World, v: string, u: OperationID) {
    Names(w, v, u) && (v in w.content ==> v in w'.content && w'.content[v] == w.content[v])
  }

  lemma WriteNames(w: World, q: Request, source: Bytes, d: Draw, v: string, u: OperationID)
    requires ValidRing(w.ring) && FreshVersion(w, d.versionID) && Names(Write(w, q, source, d), v, u)
    ensures v == d.versionID ==>
            u == q.uploadID && v in Write(w, q, source, d).content && Write(w, q, source, d).content[v] == source
    ensures v != d.versionID ==> Unchanged(w, Write(w, q, source, d), v, u)
  {
    hide Blob, Wrap, Lower, Seal;
  }

  lemma StartNames(cfg: Config, w: World, q: Request, source: Bytes, d: Draw, v: string, u: OperationID)
    requires Names(StartProtectStep(cfg, w, q, source, d), v, u)
    ensures
      var w' := StartProtectStep(cfg, w, q, source, d);
      if v == d.versionID && v !in w.inFlight && v in w'.inFlight
      then u == q.uploadID && v in w'.content && w'.content[v] == source
      else Unchanged(w, w', v, u)
  {
    hide CheckRequest, ValidRing, ValidDraw, Write, Names;
    if StartProtectStep(cfg, w, q, source, d) != w {
      WriteNames(w, q, source, d, v, u);
      WriteFlight(w, q, source, d);
    }
    hide FreshVersion;
  }

  lemma WriteFlight(w: World, q: Request, source: Bytes, d: Draw)
    requires ValidRing(w.ring) && FreshVersion(w, d.versionID)
    ensures d.versionID in Write(w, q, source, d).inFlight && d.versionID !in w.inFlight
  {}

  lemma RestoreNames(cfg: Config, w: World, owner: string, f: string, s: string, k: string, m: Metadata, d: Draw,
                     v: string, u: OperationID)
    requires u.Upload? && Names(StartRestoreStep(cfg, w, owner, f, s, k, m, d), v, u)
    ensures Unchanged(w, StartRestoreStep(cfg, w, owner, f, s, k, m, d), v, u)
  {
    hide Names, Finds, Open, StartProtectStep;
    var plain := Open(cfg, w.ring, w.blobs, m);
    if Finds(w.repo, owner, f, s, m) && plain.Success? && ValidIdempotencyKey(k) {
      StartNames(cfg, w, RestoreRequest(owner, f, s, k, m), plain.value, d, v, u);
    }
  }

  /** Events that touch neither an object nor an envelope, only rows, grants and the ring. */
  predicate Bookkeeping(e: Event) {
    || e.Register? || e.CommitRestored? || e.RotateKEK? || e.Trash? || e.Untrash? || e.Retain? || e.Hold? || e.Share? ||
       e.Unshare?
  }

  lemma BookkeepingStays(cfg: Config, w: World, e: Event)
    requires Bookkeeping(e)
    ensures Next(cfg, w, e) == w.(ring := Next(cfg, w, e).ring, repo := Next(cfg, w, e).repo)
    ensures Next(cfg, w, e).repo.entries == w.repo.entries
  {
    hide Recognised, Catalogued, RestoreGuard, HasOperation, HasVersion, TrashGuard, InTrash, MayGrant, GrantSlot,
         RevokeAll, Live, RetentionAccepted, Superseded, RestoredVersion, FirstVersion, NewFile;
  }

  lemma PurgeStays(w: World, op: PurgeID, now: Time, u: OperationID)
    requires u in Purge(w.repo, op, now).entries
    ensures u in w.repo.entries && Purge(w.repo, op, now).entries[u].versionID == w.repo.entries[u].versionID
    ensures Live(Purge(w.repo, op, now).entries[u]) ==> Live(w.repo.entries[u])
  {
    hide PurgeGuard, Erased, ErasedObjects, RevokeAll;
  }

  lemma CommitNames(w: World, e: Event, v: string, u: OperationID, w': World)
    requires EntriesOK(w.inFlight, w.repo.entries)
    requires e.CommitProtect? || e.CommitDoubted? || e.AbortProtect?
    requires w' == if e.CommitProtect? then CommitProtectStep(w, e.versionID) else
                   if e.CommitDoubted? then CommitDoubtedStep(w, e.versionID) else AbortProtectStep(w, e.versionID)
    requires Names(w', v, u)
    ensures Unchanged(w, w', v, u)
  {
    hide Blob, Live, Committed;
  }

  /** Nothing but protection names a version. */
  lemma OthersNameNothing(cfg: Config, w: World, e: Event, v: string, u: OperationID)
    requires EntriesOK(w.inFlight, w.repo.entries) && !e.StartProtect? && !e.StartRestore?
    requires Names(Next(cfg, w, e), v, u)
    ensures Unchanged(w, Next(cfg, w, e), v, u)
  {
    hide EntriesOK;
    if Bookkeeping(e) {
      hide Next;
      BookkeepingStays(cfg, w, e);
    } else if e.Rewrap? {
      hide Names;
      RewrapNames(w, e.candidate, e.nonce, v, u);
    } else if e.PurgeFile? {
      hide Purge;
      if u in Purge(w.repo, e.op, e.now).entries { PurgeStays(w, e.op, e.now, u); }
    } else if e.CommitProtect? || e.CommitDoubted? || e.AbortProtect? {
      hide Names, CommitProtectStep, CommitDoubtedStep, AbortProtectStep;
      CommitNames(w, e, v, u, Next(cfg, w, e));
    } else {
      hide Tracked, Blob;
    }
  }

  lemma RewrapNames(w: World, candidate: Metadata, nonce: Bytes, v: string, u: OperationID)
    requires Names(RewrapStep(w, candidate, nonce), v, u)
    ensures Unchanged(w, RewrapStep(w, candidate, nonce), v, u)
  {
    hide Wrap, WrappingIdentity, ValidRing;
  }

  /** No step changes what an upload's version was sealed from: it was named before with the
      same bytes on record, or this step wrote it from the bytes it was given. */
  lemma StepNames(cfg: Config, w: World, e: Event, v: string, u: OperationID)
    requires EntriesOK(w.inFlight, w.repo.entries) && u.Upload? && Names(Next(cfg, w, e), v, u)
    ensures
      var w' := Next(cfg, w, e);
      if Written(cfg, w, e, v).Some?
      then v in w'.content && w'.content[v] == Written(cfg, w, e, v).value
      else Unchanged(w, w', v, u)
  {
    hide EntriesOK, Names, StartProtectStep, StartRestoreStep;
    if e.StartProtect? {
      if e.request.uploadID.Upload? { StartNames(cfg, w, e.request, e.plaintext, e.draw, v, u); }
    } else if e.StartRestore? {
      RestoreNames(cfg, w, e.owner, e.file, e.source, e.key, e.sourceMetadata, e.draw, v, u);
    } else {
      hide Next;
      OthersNameNothing(cfg, w, e, v, u);
    }
  }

  /** After any run, what an upload's version was sealed from is what its step was given. */
  lemma {:induction false} RecordedIsUploaded(cfg: Config, ring: Keyring, events: seq<Event>, v: string, u: OperationID)
    requires ValidRing(ring) && u.Upload? && Names(Run(cfg, EmptyWorld(ring), events), v, u)
    ensures
      var w := Run(cfg, EmptyWorld(ring), events);
      v in w.content && Uploaded(cfg, ring, events, v) == Some(w.content[v])
  {
    if events != [] {
      hide Next, Written, Names, EntriesOK, CleaningOK, Readable, RestoresFaithful, Lineage, Aimed, HistoriesOK,
           LifecycleOK, GrantsOK;
      var before, e := events[..|events| - 1], events[|events| - 1];
      RunKeeps(cfg, ring, before);
      StepNames(cfg, Run(cfg, EmptyWorld(ring), before), e, v, u);
      if Written(cfg, Run(cfg, EmptyWorld(ring), before), e, v) == None {
        RecordedIsUploaded(cfg, ring, before, v, u);
      }
    }
  }

  // --- The one way to lose an object -----------------------------------------

  /** This step's insert takes effect and is answered with an error. */
  predicate Doubtful(w: World, e: Event, v: string) {
    e == CommitDoubted(v) && v in w.inFlight && w.inFlight[v].uploadID !in w.repo.entries
  }

  /** At position k the commit of v was doubtful, and no crash followed before position n. */
  ghost predicate InDoubt(cfg: Config, ring: Keyring, events: seq<Event>, v: string, k: nat, n: nat) {
    && k < n <= |events| && Doubtful(Run(cfg, EmptyWorld(ring), events[..k]), events[k], v)
    && (forall i :: k < i < n ==> !events[i].Crash?)
  }

  /** A doubtful commit of v, and, before any crash, the removal of its object. */
  ghost predicate LostBy(cfg: Config, ring: Keyring, events: seq<Event>, v: string) {
    exists k: nat, j: nat :: j < |events| && events[j] == CleanUp(v) && InDoubt(cfg, ring, events, v, k, j)
  }

  /** Version v is operation u's and its key exists. */
  ghost predicate Keeps(w: World, v: string, u: OperationID) {
    u in w.repo.entries && Live(w.repo.entries[u]) && w.repo.entries[u].versionID == v
  }

  lemma RemovalMisses(blobs: Blobs, v: string, x: string)
    requires Blob(v) in blobs && x != v
    ensures Blob(v) in blobs - {Blob(x)}
  {
    BlobInjective(v, x);
  }

  lemma FlightHasObject(cfg: Config, w: World, v: string)
    requires Inv(cfg, w) && v in w.inFlight
    ensures Blob(v) in w.blobs && w.inFlight[v].blobObject == Blob(v) && w.inFlight[v].versionID == v
    ensures forall u :: u in w.repo.entries ==> w.repo.entries[u].versionID != v
  {
    hide RestoresFaithful, Lineage, HistoriesOK, LifecycleOK, GrantsOK, Aimed, Committed;
    assert Sound(cfg, w.ring, w.blobs, w.content, w.inFlight[v]);
    hide Blob;
  }

  lemma EntryHasName(cfg: Config, w: World, u: OperationID)
    requires Inv(cfg, w) && u in w.repo.entries
    ensures w.repo.entries[u].blobObject == Blob(w.repo.entries[u].versionID)
  {}

  /** Commits and discards never take a kept version's object away. */
  lemma CommitKeepsObject(cfg: Config, w: World, e: Event, v: string, u: OperationID)
    requires Inv(cfg, w) && (e.CommitProtect? || e.CommitDoubted? || e.AbortProtect?)
    requires Keeps(Next(cfg, w, e), v, u) && Blob(v) !in Next(cfg, w, e).blobs
    ensures Keeps(w, v, u) && Blob(v) !in w.blobs
  {
    var x := e.versionID;
    hide Inv, Blob, Live, CommitProtectStep, CommitDoubtedStep, AbortProtectStep;
    if x in w.inFlight { FlightHasObject(cfg, w, x); }
    FlightEnds(w, e, v, u, Next(cfg, w, e));
  }

  lemma FlightEnds(w: World, e: Event, v: string, u: OperationID, w': World)
    requires e.CommitProtect? || e.CommitDoubted? || e.AbortProtect?
    requires w' == if e.CommitProtect? then CommitProtectStep(w, e.versionID) else
                   if e.CommitDoubted? then CommitDoubtedStep(w, e.versionID) else AbortProtectStep(w, e.versionID)
    requires e.versionID in w.inFlight ==>
               var x := e.versionID;
               && Blob(x) in w.blobs && w.inFlight[x].blobObject == Blob(x) && w.inFlight[x].versionID == x
               && (forall t :: t in w.repo.entries ==> w.repo.entries[t].versionID != x)
    requires Keeps(w', v, u) && Blob(v) !in w'.blobs
    ensures Keeps(w, v, u) && Blob(v) !in w.blobs
  {
    hide Blob, Live;
    if Blob(v) in w.blobs && v != e.versionID { RemovalMisses(w.blobs, v, e.versionID); }
  }

  lemma CleaningKeepsObject(w: World, x: string, v: string)
    requires Blob(v) !in CleanUpStep(w, x).blobs
    ensures Blob(v) !in w.blobs || (x == v && v in w.cleaning)
  {
    hide Blob;
    if Blob(v) in w.blobs && v != x { RemovalMisses(w.blobs, v, x); }
  }

  lemma WritingKeepsObject(cfg: Config, w: World, e: Event, v: string, u: OperationID)
    requires e.StartProtect? || e.StartRestore?
    requires Keeps(Next(cfg, w, e), v, u) && Blob(v) !in Next(cfg, w, e).blobs
    ensures Keeps(w, v, u) && Blob(v) !in w.blobs
  {
    hide CheckRequest, Open, Finds, FreshVersion, ValidRing, Blob, Seal, NewMetadata;
  }

  lemma OthersKeepObject(cfg: Config, w: World, e: Event, v: string, u: OperationID)
    requires Bookkeeping(e) || e.Rewrap? || e.PurgeFile? || e.Crash?
    requires Keeps(Next(cfg, w, e), v, u)
    ensures Keeps(w, v, u) && Next(cfg, w, e).blobs == w.blobs
  {
    if Bookkeeping(e) {
      hide Next;
      BookkeepingStays(cfg, w, e);
    } else if e.Rewrap? {
      hide Wrap, WrappingIdentity, ValidRing;
    } else if e.PurgeFile? {
      hide Purge, Live;
      PurgeStays(w, e.op, e.now, u);
    }
  }

  /** If a kept version has no object after a step, it had none before, or this step is the
      clean-up of a doubtful commit. */
  lemma StepLoses(cfg: Config, w: World, e: Event, v: string, u: OperationID)
    requires Inv(cfg, w) && Keeps(Next(cfg, w, e), v, u) && Blob(v) !in Next(cfg, w, e).blobs
    ensures (Keeps(w, v, u) && Blob(v) !in w.blobs) || (e == CleanUp(v) && v in w.cleaning)
  {
    hide Inv, Blob, Keeps, Next;
    if e.CommitProtect? || e.CommitDoubted? || e.AbortProtect? {
      CommitKeepsObject(cfg, w, e, v, u);
    } else if e.CleanUp? {
      CleanedKeeps(cfg, w, e, v, u);
    } else if e.StartProtect? || e.StartRestore? {
      WritingKeepsObject(cfg, w, e, v, u);
    } else if e.RemoveObject? {
      ReconcilingKeepsObject(cfg, w, e, v, u);
    } else {
      OthersKeepObject(cfg, w, e, v, u);
    }
  }

  lemma CleanedKeeps(cfg: Config, w: World, e: Event, v: string, u: OperationID)
    requires e.CleanUp? && Keeps(Next(cfg, w, e), v, u) && Blob(v) !in Next(cfg, w, e).blobs
    ensures (Keeps(w, v, u) && Blob(v) !in w.blobs) || (e == CleanUp(v) && v in w.cleaning)
  {
    hide Blob, Live;
    CleaningKeepsObject(w, e.versionID, v);
  }

  lemma ReconcilingKeepsObject(cfg: Config, w: World, e: Event, v: string, u: OperationID)
    requires Inv(cfg, w) && e.RemoveObject? && Keeps(Next(cfg, w, e), v, u) && Blob(v) !in Next(cfg, w, e).blobs
    ensures Keeps(w, v, u) && Blob(v) !in w.blobs
  {
    hide Inv, Blob, Live;
    EntryHasName(cfg, w, u);
  }

  /** Whatever is being cleaned up was committed doubtfully, with no crash since. */
  lemma {:induction false} CleaningIsDoubtful(cfg: Config, ring: Keyring, events: seq<Event>, v: string)
    requires v in Run(cfg, EmptyWorld(ring), events).cleaning
    ensures exists k: nat :: InDoubt(cfg, ring, events, v, k, |events|)
  {
    var n := |events| - 1;
    var before, e := events[..n], events[n];
    var w := Run(cfg, EmptyWorld(ring), before);
    CleaningGrows(cfg, w, e, v);
    hide Run, Next, Doubtful;
    if Doubtful(w, e, v) {
      assert InDoubt(cfg, ring, events, v, n, |events|);
    } else {
      CleaningIsDoubtful(cfg, ring, before, v);
      var k: nat :| InDoubt(cfg, ring, before, v, k, n);
      assert before[..k] == events[..k];
      assert InDoubt(cfg, ring, events, v, k, |events|);
    }
  }

  lemma CleaningGrows(cfg: Config, w: World, e: Event, v: string)
    requires v in Next(cfg, w, e).cleaning
    ensures Doubtful(w, e, v) || (v in w.cleaning && !e.Crash?)
  {
    hide CheckRequest, Open, Finds, FreshVersion, Tracked, Wrap, NewMetadata, Live, RewrapMatches, MayGrant, GrantSlot,
         Unwrap, WrappingIdentity, Recognised, Catalogued, RestoreGuard, HasOperation, TrashGuard, PurgeGuard, Erased,
         ErasedObjects, RevokeAll, Destroy;
  }

  lemma LostEarlier(cfg: Config, ring: Keyring, events: seq<Event>, n: nat, v: string)
    requires n <= |events| && LostBy(cfg, ring, events[..n], v)
    ensures LostBy(cfg, ring, events, v)
  {
    hide Run, Doubtful;
    var k: nat, j: nat :| j < n && events[..n][j] == CleanUp(v) && InDoubt(cfg, ring, events[..n], v, k, j);
    assert events[..n][..k] == events[..k];
    assert events[j] == CleanUp(v) && InDoubt(cfg, ring, events, v, k, j);
  }

  lemma {:induction false} MissingIsLost(cfg: Config, ring: Keyring, events: seq<Event>, v: string, u: OperationID)
    requires ValidRing(ring)
    requires Keeps(Run(cfg, EmptyWorld(ring), events), v, u) && Blob(v) !in Run(cfg, EmptyWorld(ring), events).blobs
    ensures LostBy(cfg, ring, events, v)
  {
    var n := |events| - 1;
    var before, e := events[..n], events[n];
    var w := Run(cfg, EmptyWorld(ring), before);
    hide Inv, Next, Keeps, Blob, LostBy, InDoubt;
    RunKeeps(cfg, ring, before);
    StepLoses(cfg, w, e, v, u);
    if Keeps(w, v, u) && Blob(v) !in w.blobs {
      MissingIsLost(cfg, ring, before, v, u);
      LostEarlier(cfg, ring, events, n, v);
    } else {
      CleaningIsDoubtful(cfg, ring, before, v);
      var k: nat :| InDoubt(cfg, ring, before, v, k, n);
      LostNow(cfg, ring, events, v, k);
    }
  }

  lemma LostNow(cfg: Config, ring: Keyring, events: seq<Event>, v: string, k: nat)
    requires events != [] && events[|events| - 1] == CleanUp(v)
    requires InDoubt(cfg, ring, events[..|events| - 1], v, k, |events| - 1)
    ensures LostBy(cfg, ring, events, v)
  {
    hide Run, Doubtful;
    var n := |events| - 1;
    assert events[..n][..k] == events[..k];
    assert InDoubt(cfg, ring, events, v, k, n);
  }

  // --- What is lost stays lost -----------------------------------------------

  /** Committed, and its object gone or about to go. */
  ghost predicate Doomed(w: World, v: string) {
    Committed(w.repo.entries, v) && (v in w.cleaning || Blob(v) !in w.blobs)
  }

  ghost predicate Gone(w: World, v: string) {
    Committed(w.repo.entries, v) && Blob(v) !in w.blobs
  }

  lemma CommittedStays(cfg: Config, w: World, e: Event, v: string)
    requires Committed(w.repo.entries, v)
    ensures Committed(Next(cfg, w, e).repo.entries, v)
  {
    var u :| u in w.repo.entries && w.repo.entries[u].versionID == v;
    EntryStays(cfg, w, e, u);
    hide Next;
    assert Next(cfg, w, e).repo.entries[u].versionID == v;
  }

  lemma PurgedEntry(r: Repo, op: PurgeID, now: Time, u: OperationID)
    requires u in r.entries
    ensures u in Purge(r, op, now).entries && Purge(r, op, now).entries[u].versionID == r.entries[u].versionID
  {
    hide Purges, Erased, ErasedObjects, RevokeAll;
  }

  lemma RewrappedEntry(w: World, candidate: Metadata, nonce: Bytes, u: OperationID)
    requires u in w.repo.entries
    ensures u in RewrapStep(w, candidate, nonce).repo.entries &&
            RewrapStep(w, candidate, nonce).repo.entries[u].versionID == w.repo.entries[u].versionID
  {
    hide Wrap, WrappingIdentity, Unwrap, ValidRing, Live;
  }

  lemma EntryStays(cfg: Config, w: World, e: Event, u: OperationID)
    requires u in w.repo.entries
    ensures u in Next(cfg, w, e).repo.entries &&
            Next(cfg, w, e).repo.entries[u].versionID == w.repo.entries[u].versionID
  {
    if Bookkeeping(e) {
      hide Next;
      BookkeepingStays(cfg, w, e);
    } else if e.PurgeFile? {
      hide Purge;
      PurgedEntry(w.repo, e.op, e.now, u);
    } else if e.Rewrap? {
      hide RewrapStep;
      RewrappedEntry(w, e.candidate, e.nonce, u);
    } else {
      hide CheckRequest, Open, Finds, FreshVersion, Tracked, NewMetadata, Blob, Seal;
    }
  }

  lemma ObjectsOfOthers(cfg: Config, w: World, e: Event, v: string)
    requires Committed(w.repo.entries, v)
    ensures Blob(v) in Next(cfg, w, e).blobs ==> Blob(v) in w.blobs
  {
    if Bookkeeping(e) {
      hide Next;
      BookkeepingStays(cfg, w, e);
    } else {
      hide CheckRequest, Open, Finds, Tracked, Wrap, Live, Unwrap, WrappingIdentity, ValidRing, Lower, PurgeGuard,
           Erased, ErasedObjects, RevokeAll, Blob, Seal, Destroy, RewrapMatches;
      if e.StartProtect? || e.StartRestore? { BlobInjective(v, e.draw.versionID); }
    }
  }

  lemma StepDooms(cfg: Config, w: World, e: Event, v: string)
    requires Doomed(w, v)
    ensures Gone(w, v) ==> Gone(Next(cfg, w, e), v)
    ensures !e.Crash? ==> Doomed(Next(cfg, w, e), v)
    ensures e == CleanUp(v) ==> Gone(Next(cfg, w, e), v)
  {
    hide Committed, Blob, Next;
    CommittedStays(cfg, w, e, v);
    ObjectsOfOthers(cfg, w, e, v);
    CleaningEnds(cfg, w, e, v);
  }

  lemma CleaningEnds(cfg: Config, w: World, e: Event, v: string)
    ensures v in w.cleaning && !e.Crash? && e != CleanUp(v) ==> v in Next(cfg, w, e).cleaning
    ensures v in w.cleaning && e == CleanUp(v) ==> Blob(v) !in Next(cfg, w, e).blobs
  {
    hide CheckRequest, Open, Finds, FreshVersion, Tracked, Wrap, NewMetadata, Live, RewrapMatches, MayGrant, GrantSlot,
         Unwrap, WrappingIdentity, Recognised, Catalogued, RestoreGuard, HasOperation, TrashGuard, PurgeGuard, Erased,
         ErasedObjects, RevokeAll, Destroy, Blob;
  }

  lemma DoubtDooms(cfg: Config, w: World, e: Event, v: string)
    requires Inv(cfg, w) && Doubtful(w, e, v)
    ensures Doomed(Next(cfg, w, e), v)
  {
    var m := w.inFlight[v];
    assert m.versionID == v;
    assert Next(cfg, w, e).repo.entries[m.uploadID].versionID == v;
  }

  lemma {:induction false} DoubtLasts(cfg: Config, ring: Keyring, events: seq<Event>, v: string, k: nat, n: nat)
    requires ValidRing(ring) && InDoubt(cfg, ring, events, v, k, n)
    ensures Doomed(Run(cfg, EmptyWorld(ring), events[..n]), v)
  {
    hide Next, Inv, Doomed, Gone, Doubtful;
    assert events[..n][..n - 1] == events[..n - 1];
    if n == k + 1 {
      RunKeeps(cfg, ring, events[..k]);
      DoubtDooms(cfg, Run(cfg, EmptyWorld(ring), events[..k]), events[k], v);
    } else {
      DoubtLasts(cfg, ring, events, v, k, n - 1);
      StepDooms(cfg, Run(cfg, EmptyWorld(ring), events[..n - 1]), events[n - 1], v);
    }
  }

  lemma {:induction false} LostIsGone(cfg: Config, ring: Keyring, events: seq<Event>, v: string, k: nat, j: nat, n: nat)
    requires ValidRing(ring) && j < n <= |events| && events[j] == CleanUp(v) && InDoubt(cfg, ring, events, v, k, j)
    ensures Gone(Run(cfg, EmptyWorld(ring), events[..n]), v)
  {
    hide Next, Doubtful, Committed, InDoubt;
    assert events[..n][..n - 1] == events[..n - 1];
    if n == j + 1 { DoubtLasts(cfg, ring, events, v, k, j); } else { LostIsGone(cfg, ring, events, v, k, j, n - 1); }
    StepDooms(cfg, Run(cfg, EmptyWorld(ring), events[..n - 1]), events[n - 1], v);
  }

  /** After any run, a version whose key exists has no object exactly when its commit was a
      doubtful one whose object was removed. */
  lemma MissingIffLost(cfg: Config, ring: Keyring, events: seq<Event>, v: string, u: OperationID)
    requires ValidRing(ring) && Keeps(Run(cfg, EmptyWorld(ring), events), v, u)
    ensures Blob(v) !in Run(cfg, EmptyWorld(ring), events).blobs <==> LostBy(cfg, ring, events, v)
  {
    hide Run, Next, Keeps, InDoubt;
    if LostBy(cfg, ring, events, v) {
      var k: nat, j: nat :| j < |events| && events[j] == CleanUp(v) && InDoubt(cfg, ring, events, v, k, j);
      LostIsGone(cfg, ring, events, v, k, j, |events|);
      assert events[..|events|] == events;
    } else if Blob(v) !in Run(cfg, EmptyWorld(ring), events).blobs {
      MissingIsLost(cfg, ring, events, v, u);
    }
  }

  // --- Every version of every file -------------------------------------------

  /** Opening a kept version yields what it was sealed from, as long as its object is there. */
  lemma KeptOpens(cfg: Config, w: World, v: string, u: OperationID)
    requires Inv(cfg, w) && Keeps(w, v, u)
    ensures v in w.content
    ensures Open(cfg, w.ring, w.blobs, w.repo.entries[u]) == if Blob(v) in w.blobs then Success(w.content[v])
            else Failure(Integrity)
  {
    hide CleaningOK, Lineage, Aimed, HistoriesOK, LifecycleOK, GrantsOK, Committed, Intact;
    var m := w.repo.entries[u];
    assert m.blobObject == Blob(v) && Unwraps(cfg, w.ring, m);
    if Blob(v) in w.blobs {
      assert Sound(cfg, w.ring, w.blobs, w.content, m);
      hide Readable, RestoresFaithful, EntriesOK, Blob;
      OpensIffIntact(cfg, w.ring, w.blobs, m);
    }
  }

  lemma KeptOfFile(cfg: Config, w: World, f: string, i: nat)
    requires Inv(cfg, w) && f in w.repo.files && f in w.repo.versions && w.repo.files[f].purgedAt == None &&
             i < |w.repo.versions[f]|
    ensures
      var vs := w.repo.versions[f];
      && Keeps(w, vs[i].versionID, vs[i].operationID)
      && Initial(vs).Upload? && Names(w, FirstVersionID(vs), Initial(vs))
      && SameBytes(w.content, vs[i].versionID, FirstVersionID(vs))
  {
    hide EntriesOK, CleaningOK, Readable, RestoresFaithful, Aimed, GrantsOK, HasOperation, HasVersion;
    var r := w.repo;
    assert History(f, r.files[f], r.versions[f], r.entries);
    assert OneContent(w.content, r.versions[f]);
    assert Live(r.entries[r.versions[f][i].operationID]);
  }

  /** Content preservation. After any run of uploads, restores, rotations, rewraps, crashes,
      removals and lifecycle steps, opening a version of a file that was not purged yields
      exactly the bytes first uploaded for that file, unless that version's commit was a
      doubtful one whose object was removed; then, and only then, it does not open. */
  lemma ContentPreserved(cfg: Config, ring: Keyring, events: seq<Event>, f: string, i: nat)
    requires ValidRing(ring)
    requires
      var r := Run(cfg, EmptyWorld(ring), events).repo;
      f in r.files && f in r.versions && r.files[f].purgedAt == None && i < |r.versions[f]|
    ensures
      var w := Run(cfg, EmptyWorld(ring), events);
      var vs := w.repo.versions[f];
      && vs[i].operationID in w.repo.entries
      && Uploaded(cfg, ring, events, FirstVersionID(vs)).Some?
      && Open(cfg, w.ring, w.blobs, w.repo.entries[vs[i].operationID])
         == if LostBy(cfg, ring, events, vs[i].versionID) then Failure(Integrity)
            else Success(Uploaded(cfg, ring, events, FirstVersionID(vs)).value)
  {
    hide Inv, Next, Written, Names, LostBy, Blob, Uploaded, Open, Run;
    RunKeeps(cfg, ring, events);
    var w := Run(cfg, EmptyWorld(ring), events);
    var v := w.repo.versions[f][i].versionID;
    var u := w.repo.versions[f][i].operationID;
    KeptOfFile(cfg, w, f, i);
    RecordedIsUploaded(cfg, ring, events, FirstVersionID(w.repo.versions[f]), Initial(w.repo.versions[f]));
    KeptOpens(cfg, w, v, u);
    MissingIffLost(cfg, ring, events, v, u);
  }
}
