/** What stays for ever: version histories only grow, purged files stay as they are, and a
    destroyed key never comes back. */
module StoreHistory {
  import opened Wrappers
  import opened Framing
  import opened Envelope
  import opened StoreModel
  import opened StoreInvariant
  import opened StoreSteps
  import opened StoreContent

  // --- Histories -------------------------------------------------------------

  /** The older history is the end of the newer one; only the current mark may differ. */
  ghost predicate Grows(vs: seq<Version>, vs': seq<Version>) {
    && |vs| <= |vs'|
    && (forall i :: 0 <= i < |vs| ==> vs'[|vs'| - |vs| + i].(current := vs[i].current) == vs[i])
  }

  lemma GrowsTransitive(a: seq<Version>, b: seq<Version>, c: seq<Version>)
    requires Grows(a, b) && Grows(b, c)
    ensures Grows(a, c)
  {
    forall i | 0 <= i < |a| ensures c[|c| - |a| + i].(current := a[i].current) == a[i] {
      assert b[|b| - |a| + i].(current := a[i].current) == a[i];
      assert c[|c| - |b| + (|b| - |a| + i)].(current := b[|b| - |a| + i].current) == b[|b| - |a| + i];
    }
  }

  lemma RestoreGrows(vs: seq<Version>, v: Version)
    ensures Grows(vs, [v] + Superseded(vs))
  {}

  /** Events that write a file's row. */
  predicate WritesRows(e: Event) {
    e.Register? || e.CommitRestored? || e.Trash? || e.Untrash? || e.PurgeFile? || e.Retain? || e.Hold?
  }

  lemma RowsOtherwiseStay(cfg: Config, w: World, e: Event)
    requires !WritesRows(e)
    ensures Next(cfg, w, e).repo.files == w.repo.files && Next(cfg, w, e).repo.versions == w.repo.versions
  {
    hide CheckRequest, Open, Finds, FreshVersion, Tracked, Wrap, NewMetadata, Live, RewrapMatches, MayGrant, GrantSlot,
         Unwrap, WrappingIdentity, Blob;
  }

  /** Only registration and committed restores touch a history. */
  lemma HistoriesOtherwiseStay(cfg: Config, w: World, e: Event)
    requires !e.Register? && !e.CommitRestored?
    ensures Next(cfg, w, e).repo.versions == w.repo.versions
    ensures forall f :: f in w.repo.files ==>
              f in Next(cfg, w, e).repo.files && Next(cfg, w, e).repo.files[f].ownerID == w.repo.files[f].ownerID
  {
    if WritesRows(e) {
      hide PurgeGuard, TrashGuard, Erased, ErasedObjects, RevokeAll, Destroy;
    } else {
      hide Next;
      RowsOtherwiseStay(cfg, w, e);
    }
  }

  lemma StepGrows(cfg: Config, w: World, e: Event, f: string)
    requires f in w.repo.files && f in w.repo.versions
    ensures
      var r' := Next(cfg, w, e).repo;
      f in r'.files && f in r'.versions && r'.files[f].ownerID == w.repo.files[f].ownerID &&
      Grows(w.repo.versions[f], r'.versions[f])
  {
    hide Grows, RegisterStep, CommitRestoredStep;
    GrowsRefl(w.repo.versions[f]);
    if e.Register? {
      RegisterOnlyAdds(w, e.owner, e.name, e.uploadID, e.newFile, f);
    } else if e.CommitRestored? {
      RestoreOnlyGrows(w, e.owner, e.file, e.source, e.key, f);
    } else {
      hide Next;
      HistoriesOtherwiseStay(cfg, w, e);
    }
  }

  lemma RegisterOnlyAdds(w: World, owner: string, name: string, u: OperationID, newFile: string, f: string)
    requires f in w.repo.files
    ensures
      var r' := RegisterStep(w, owner, name, u, newFile).repo;
      && f in r'.files && r'.files[f] == w.repo.files[f] && VersionsOf(r', f) == VersionsOf(w.repo, f)
      && (f in w.repo.versions ==> f in r'.versions)
  {
    hide Recognised, Catalogued, NewFile, FirstVersion;
  }

  lemma RestoreOnlyGrows(w: World, owner: string, g: string, source: string, key: string, f: string)
    requires f in w.repo.files && f in w.repo.versions
    ensures
      var r' := CommitRestoredStep(w, owner, g, source, key).repo;
      f in r'.files && f in r'.versions && r'.files[f].ownerID == w.repo.files[f].ownerID &&
      Grows(w.repo.versions[f], r'.versions[f])
  {
    hide RestoreGuard, HasOperation, RestoredVersion, Superseded, Grows;
    GrowsRefl(w.repo.versions[f]);
    var u := Restore(owner, g, source, key);
    if g == f && u in w.repo.entries {
      RestoreGrows(w.repo.versions[f], RestoredVersion(w.repo.versions[f], source, w.repo.entries[u]));
    }
  }

  lemma GrowsRefl(vs: seq<Version>)
    ensures Grows(vs, vs)
  {}

  /** History is append-only: whatever happens later, every record keeps its identity, its
      operation, its source and its number, at its own place. */
  lemma {:induction false} RunGrows(cfg: Config, w: World, events: seq<Event>, f: string)
    requires f in w.repo.files && f in w.repo.versions
    ensures
      var r' := Run(cfg, w, events).repo;
      f in r'.files && f in r'.versions && r'.files[f].ownerID == w.repo.files[f].ownerID &&
      Grows(w.repo.versions[f], r'.versions[f])
  {
    hide Next, Grows;
    if events == [] {
      GrowsRefl(w.repo.versions[f]);
    } else {
      var before := events[..|events| - 1];
      RunGrows(cfg, w, before, f);
      StepGrows(cfg, Run(cfg, w, before), events[|events| - 1], f);
      GrowsTransitive(w.repo.versions[f], Run(cfg, w, before).repo.versions[f], Run(cfg, w, events).repo.versions[f]);
    }
  }

  lemma GrownHas(vs: seq<Version>, vs': seq<Version>, u: OperationID)
    requires Grows(vs, vs') && HasOperation(vs, u)
    ensures HasOperation(vs', u)
  {
    var i :| 0 <= i < |vs| && vs[i].operationID == u;
    assert vs'[|vs'| - |vs| + i].(current := vs[i].current) == vs[i];
    assert vs'[|vs'| - |vs| + i].operationID == u;
  }

  /** The record of an operation, and the version it made, never change; its current mark
      aside. */
  lemma GrownSame(f: string, file: File, vs: seq<Version>, vs': seq<Version>, entries: Entries, i: nat, j: nat)
    requires Grows(vs, vs') && History(f, file, vs', entries) && i < |vs| && j < |vs'|
    requires vs[i].operationID == vs'[j].operationID
    ensures vs'[j].(current := vs[i].current) == vs[i]
  {
    hide HasVersion;
    var k := |vs'| - |vs| + i;
    assert vs'[k].(current := vs[i].current) == vs[i];
    assert vs'[k].operationID == vs'[j].operationID;
  }

  /** Retrying a committed restore, however much later and whatever has happened to the file
      since: nothing changes, and the operation still names the very same version. */
  lemma RestoreRetry(cfg: Config, w: World, events: seq<Event>, owner: string, f: string, source: string, key: string,
                     i: nat)
    requires Inv(cfg, w)
    requires f in w.repo.files && w.repo.files[f].ownerID == owner && f in w.repo.versions
    requires i < |w.repo.versions[f]| && w.repo.versions[f][i].operationID == Restore(owner, f, source, key)
    ensures CommitRestoredStep(Run(cfg, w, events), owner, f, source, key) == Run(cfg, w, events)
    ensures
      var vs' := VersionsOf(Run(cfg, w, events).repo, f);
      && HasOperation(vs', Restore(owner, f, source, key))
      && forall j :: 0 <= j < |vs'| && vs'[j].operationID == Restore(owner, f, source, key) ==>
           vs'[j].(current := w.repo.versions[f][i].current) == w.repo.versions[f][i]
  {
    hide Next, Run, Grows, History, EntriesOK, CleaningOK, Readable, RestoresFaithful, Lineage, Aimed, LifecycleOK,
         GrantsOK, HasVersion;
    var w' := Run(cfg, w, events);
    RunKeepsFrom(cfg, w, events);
    RunGrows(cfg, w, events, f);
    assert History(f, w'.repo.files[f], w'.repo.versions[f], w'.repo.entries);
    assert HasOperation(w.repo.versions[f], Restore(owner, f, source, key));
    GrownHas(w.repo.versions[f], w'.repo.versions[f], Restore(owner, f, source, key));
    forall j | 0 <= j < |w'.repo.versions[f]| && w'.repo.versions[f][j].operationID == Restore(owner, f, source, key)
      ensures w'.repo.versions[f][j].(current := w.repo.versions[f][i].current) == w.repo.versions[f][i]
    {
      GrownSame(f, w'.repo.files[f], w.repo.versions[f], w'.repo.versions[f], w'.repo.entries, i, j);
    }
    hide HasOperation, RestoreGuard;
    var u := Restore(owner, f, source, key);
    if u in w'.repo.entries { EntriesNamed(w'.inFlight, w'.repo.entries, u); }
  }

  lemma EntriesNamed(flight: Flight, entries: Entries, u: OperationID)
    requires EntriesOK(flight, entries) && u in entries
    ensures entries[u].uploadID == u
  {}

  /** The history of every file after every run: numbers run n down to 1, exactly the first
      record is current and is the file's current version, the first version was an
      upload, and every other was restored from an earlier version of the same file. */
  lemma EveryHistory(cfg: Config, ring: Keyring, events: seq<Event>, f: string)
    requires ValidRing(ring)
    requires f in Run(cfg, EmptyWorld(ring), events).repo.files
    ensures f in Run(cfg, EmptyWorld(ring), events).repo.versions
    ensures
      var r := Run(cfg, EmptyWorld(ring), events).repo;
      var vs := r.versions[f];
      && vs != [] && vs[0].versionID == r.files[f].currentVersionID
      && (forall i :: 0 <= i < |vs| ==> vs[i].number == |vs| - i && (vs[i].current <==> i == 0))
      && vs[|vs| - 1].operationID.Upload?
      && (forall i :: 0 <= i < |vs| - 1 ==>
          vs[i].sourceVersionID.Some? && FromEarlier(vs, i, vs[i].sourceVersionID.value))
  {
    hide Next, Run, History, EntriesOK, CleaningOK, Readable, RestoresFaithful, Lineage, Aimed, LifecycleOK, GrantsOK,
         FromEarlier;
    RunKeeps(cfg, ring, events);
    var r := Run(cfg, EmptyWorld(ring), events).repo;
    Numbered(f, r.files[f], r.versions[f], r.entries);
  }

  lemma Numbered(f: string, file: File, vs: seq<Version>, entries: Entries)
    requires History(f, file, vs, entries)
    ensures vs != [] && vs[0].versionID == file.currentVersionID
    ensures forall i :: 0 <= i < |vs| ==> vs[i].number == |vs| - i && (vs[i].current <==> i == 0)
    ensures vs[|vs| - 1].operationID.Upload?
    ensures forall i :: 0 <= i < |vs| - 1 ==>
              vs[i].sourceVersionID.Some? && FromEarlier(vs, i, vs[i].sourceVersionID.value)
  {
    forall i | 0 <= i < |vs| - 1
      ensures vs[i].sourceVersionID.Some? && FromEarlier(vs, i, vs[i].sourceVersionID.value)
    {
      var k :| 0 <= k < |vs[i + 1..]| && vs[i + 1..][k].versionID == vs[i].operationID.source;
      assert vs[i + 1 + k].versionID == vs[i].operationID.source;
    }
  }

  /** The version was restored from one further down, with a smaller number. */
  ghost predicate FromEarlier(vs: seq<Version>, i: nat, source: string)
    requires i < |vs|
  {
    exists j :: i < j < |vs| && vs[j].versionID == source && vs[j].number < vs[i].number
  }

  // --- Destroyed keys --------------------------------------------------------

  /** No single step brings a destroyed key back, not even a rewrap whose candidate was read
      while the key still existed. */
  lemma StepDead(cfg: Config, w: World, e: Event, u: OperationID)
    requires u in w.repo.entries && !Live(w.repo.entries[u])
    ensures u in Next(cfg, w, e).repo.entries && !Live(Next(cfg, w, e).repo.entries[u])
  {
    if Bookkeeping(e) {
      hide Next;
      BookkeepingStays(cfg, w, e);
    } else if e.Rewrap? {
      hide RewrapStep;
      RewrapDead(w, e.candidate, e.nonce, u);
    } else {
      hide PurgeGuard, Erased, ErasedObjects, RevokeAll, CheckRequest, Open, Finds, FreshVersion, Tracked, Wrap,
           NewMetadata, Blob, Seal;
    }
  }

  lemma RewrapDead(w: World, candidate: Metadata, nonce: Bytes, u: OperationID)
    requires u in w.repo.entries && !Live(w.repo.entries[u])
    ensures u in RewrapStep(w, candidate, nonce).repo.entries &&
            RewrapStep(w, candidate, nonce).repo.entries[u] == w.repo.entries[u]
  {}

  lemma {:induction false} DestroyedForEver(cfg: Config, w: World, events: seq<Event>, u: OperationID)
    requires u in w.repo.entries && !Live(w.repo.entries[u])
    ensures u in Run(cfg, w, events).repo.entries && !Live(Run(cfg, w, events).repo.entries[u])
  {
    hide Next;
    if events != [] {
      DestroyedForEver(cfg, w, events[..|events| - 1], u);
      StepDead(cfg, Run(cfg, w, events[..|events| - 1]), events[|events| - 1], u);
    }
  }

  // --- Purged files ----------------------------------------------------------

  lemma RestoreSparesPurged(w: World, owner: string, g: string, source: string, key: string, f: string)
    requires f in w.repo.files && w.repo.files[f].purgedAt.Some?
    ensures
      var r' := CommitRestoredStep(w, owner, g, source, key).repo;
      f in r'.files && r'.files[f] == w.repo.files[f] && VersionsOf(r', f) == VersionsOf(w.repo, f)
  {
    hide HasOperation, HasVersion, RestoredVersion, Superseded;
  }

  lemma StepPurged(cfg: Config, w: World, e: Event, f: string)
    requires f in w.repo.files && w.repo.files[f].purgedAt.Some?
    ensures f in Next(cfg, w, e).repo.files && Next(cfg, w, e).repo.files[f] == w.repo.files[f]
    ensures VersionsOf(Next(cfg, w, e).repo, f) == VersionsOf(w.repo, f)
  {
    hide RegisterStep, CommitRestoredStep;
    if e.Register? {
      RegisterOnlyAdds(w, e.owner, e.name, e.uploadID, e.newFile, f);
    } else if e.CommitRestored? {
      RestoreSparesPurged(w, e.owner, e.file, e.source, e.key, f);
    } else if e.PurgeFile? {
      hide Erased, ErasedObjects, RevokeAll, Destroy;
    } else if WritesRows(e) {
      LifecycleSparesPurged(cfg, w, e, f);
      hide Next;
    } else {
      hide Next;
      RowsOtherwiseStay(cfg, w, e);
    }
  }

  lemma LifecycleSparesPurged(cfg: Config, w: World, e: Event, f: string)
    requires f in w.repo.files && w.repo.files[f].purgedAt.Some? && (e.Trash? || e.Untrash? || e.Retain? || e.Hold?)
    ensures f in Next(cfg, w, e).repo.files && Next(cfg, w, e).repo.files[f] == w.repo.files[f]
    ensures VersionsOf(Next(cfg, w, e).repo, f) == VersionsOf(w.repo, f)
  {
    hide RevokeAll;
  }

  /** Purged is final: the row and the history never change again. */
  lemma {:induction false} PurgedRowStays(cfg: Config, w: World, events: seq<Event>, f: string)
    requires f in w.repo.files && w.repo.files[f].purgedAt.Some?
    ensures f in Run(cfg, w, events).repo.files && Run(cfg, w, events).repo.files[f] == w.repo.files[f]
    ensures VersionsOf(Run(cfg, w, events).repo, f) == VersionsOf(w.repo, f)
  {
    hide Next;
    if events != [] {
      PurgedRowStays(cfg, w, events[..|events| - 1], f);
      StepPurged(cfg, Run(cfg, w, events[..|events| - 1]), events[|events| - 1], f);
    }
  }

  /** After a purge the file's read paths are closed to everyone at any later time: no
      version of it is found, no read of it is authorized, and no envelope in its history
      opens. */
  lemma PurgedUnreadable(cfg: Config, w: World, events: seq<Event>, f: string)
    requires Inv(cfg, w)
    requires f in w.repo.files && w.repo.files[f].purgedAt.Some?
    ensures
      var w' := Run(cfg, w, events);
      && (forall owner, v, m :: !Finds(w'.repo, owner, f, v, m))
      && (forall who, capability, now :: !Authorized(w'.repo, who, f, capability, now))
      && (forall i :: 0 <= i < |VersionsOf(w'.repo, f)| ==>
            && VersionsOf(w'.repo, f)[i].operationID in w'.repo.entries
            && Open(cfg, w'.ring, w'.blobs, w'.repo.entries[VersionsOf(w'.repo, f)[i].operationID]) ==
               Failure(InvalidEnvelope))
  {
    hide Next, Run, EntriesOK, CleaningOK, Readable, RestoresFaithful, Lineage, Aimed, GrantsOK, HasVersion,
         HasOperation, Open;
    PurgedRowStays(cfg, w, events, f);
    RunKeepsFrom(cfg, w, events);
    var w' := Run(cfg, w, events);
    HistoriesUseEntries(w'.repo.files, w'.repo.versions, w'.repo.entries);
    hide HistoriesOK;
    forall i | 0 <= i < |VersionsOf(w'.repo, f)|
      ensures VersionsOf(w'.repo, f)[i].operationID in w'.repo.entries
      ensures Open(cfg, w'.ring, w'.blobs, w'.repo.entries[VersionsOf(w'.repo, f)[i].operationID]) ==
              Failure(InvalidEnvelope)
    {
      DeadDoesNotOpen(cfg, w'.ring, w'.blobs, w'.repo.entries[VersionsOf(w'.repo, f)[i].operationID]);
    }
  }

  lemma DeadDoesNotOpen(cfg: Config, ring: Keyring, blobs: Blobs, m: Metadata)
    requires !Live(m)
    ensures Open(cfg, ring, blobs, m) == Failure(InvalidEnvelope)
  {}

  // --- What a purge leaves behind --------------------------------------------

  /** Operation u is in the file's history, or was started to restore one of its versions. */
  ghost predicate Descends(r: Repo, f: string, u: OperationID) {
    HasOperation(VersionsOf(r, f), u) || (u.Restore? && u.file == f)
  }

  /** Protected, or written and waiting for its metadata to be committed. */
  ghost predicate Underway(w: World, u: OperationID) {
    exists v :: Names(w, v, u)
  }

  lemma {:induction false} RunSplit(cfg: Config, w: World, a: seq<Event>, b: seq<Event>)
    ensures Run(cfg, w, a + b) == Run(cfg, Run(cfg, w, a), b)
  {
    hide Next;
    if b == [] {
      assert a + b == a;
    } else {
      assert (a + b)[..|a + b| - 1] == a + b[..|b| - 1];
      RunSplit(cfg, w, a, b[..|b| - 1]);
    }
  }

  /** No restore of a purged file can start. */
  lemma NoneStarts(cfg: Config, w: World, e: Event, f: string, u: OperationID)
    requires EntriesOK(w.inFlight, w.repo.entries)
    requires f in w.repo.files && w.repo.files[f].purgedAt.Some? && u.Restore? && u.file == f
    requires Underway(Next(cfg, w, e), u)
    ensures Underway(w, u)
  {
    hide EntriesOK, Names, StartProtectStep, Open, Uploaded;
    var v :| Names(Next(cfg, w, e), v, u);
    if e.StartProtect? {
      if e.request.uploadID.Upload? { StartNames(cfg, w, e.request, e.plaintext, e.draw, v, u); }
    } else if e.StartRestore? {
      var plain := Open(cfg, w.ring, w.blobs, e.sourceMetadata);
      if Finds(w.repo, e.owner, e.file, e.source, e.sourceMetadata) && plain.Success? && ValidIdempotencyKey(e.key) {
        StartNames(cfg, w, RestoreRequest(e.owner, e.file, e.source, e.key, e.sourceMetadata), plain.value, e.draw, v,
                   u);
      }
    } else {
      hide Next;
      OthersNameNothing(cfg, w, e, v, u);
    }
  }

  lemma {:induction false} NoneStartsLater(cfg: Config, w: World, events: seq<Event>, f: string, u: OperationID)
    requires Inv(cfg, w) && f in w.repo.files && w.repo.files[f].purgedAt.Some? && u.Restore? && u.file == f
    requires Underway(Run(cfg, w, events), u)
    ensures Underway(w, u)
  {
    hide Next, EntriesOK, CleaningOK, Readable, RestoresFaithful, Lineage, Aimed, HistoriesOK, LifecycleOK, GrantsOK,
         Underway;
    if events != [] {
      var before := events[..|events| - 1];
      PurgedRowStays(cfg, w, before, f);
      RunKeepsFrom(cfg, w, before);
      NoneStarts(cfg, Run(cfg, w, before), events[|events| - 1], f, u);
      NoneStartsLater(cfg, w, before, f, u);
    }
  }

  /** A restore that never entered its file's history keeps its key, and what it was sealed
      from is what the file's first version was. */
  lemma StrayRestore(cfg: Config, w: World, f: string, u: OperationID)
    requires Inv(cfg, w) && f in w.repo.files && f in w.repo.versions && u in w.repo.entries
    requires u.Restore? && u.file == f && !HasOperation(w.repo.versions[f], u)
    ensures Keeps(w, w.repo.entries[u].versionID, u) && |w.repo.versions[f]| > 0
    ensures SameBytes(w.content, w.repo.entries[u].versionID, FirstVersionID(w.repo.versions[f]))
    ensures Initial(w.repo.versions[f]).Upload? &&
            Names(w, FirstVersionID(w.repo.versions[f]), Initial(w.repo.versions[f]))
  {
    hide EntriesOK, CleaningOK, Readable, RestoresFaithful, Lineage, GrantsOK, HasOperation, HasVersion, LifecycleOK;
    var r := w.repo;
    assert History(f, r.files[f], r.versions[f], r.entries) && AimsAt(r.versions, u);
    hide HistoriesOK;
    RestoreUnowned(r.files, r.versions, r.entries, u);
    UnownedIsLive(r.files, r.versions, r.entries, r.purges, u);
    RestoredContent(w, f, u.source, u);
  }

  /** What can still be opened, after any run, of a file that was purged: an envelope in its
      history never; a restore of it that never got there opens to the file's bytes, unless
      its own object was lost. */
  lemma PurgeSpares(cfg: Config, ring: Keyring, events: seq<Event>, f: string, u: OperationID)
    requires ValidRing(ring)
    requires
      var r := Run(cfg, EmptyWorld(ring), events).repo;
      f in r.files && r.files[f].purgedAt.Some? && u in r.entries && Descends(r, f, u)
    ensures
      var w := Run(cfg, EmptyWorld(ring), events);
      var vs := VersionsOf(w.repo, f);
      && vs != [] && Uploaded(cfg, ring, events, FirstVersionID(vs)).Some?
      && Open(cfg, w.ring, w.blobs, w.repo.entries[u])
         == if HasOperation(vs, u) then Failure(InvalidEnvelope)
            else if LostBy(cfg, ring, events, w.repo.entries[u].versionID) then Failure(Integrity)
            else Success(Uploaded(cfg, ring, events, FirstVersionID(vs)).value)
  {
    hide Inv, Next, Run, HasOperation, Open, Uploaded, LostBy, Names, Keeps, Blob, Initial;
    var w := Run(cfg, EmptyWorld(ring), events);
    RunKeeps(cfg, ring, events);
    FirstIsNamed(cfg, w, f);
    RecordedIsUploaded(cfg, ring, events, FirstVersionID(w.repo.versions[f]), Initial(w.repo.versions[f]));
    if HasOperation(w.repo.versions[f], u) {
      PurgedIsDead(cfg, w, f, u);
      DeadDoesNotOpen(cfg, w.ring, w.blobs, w.repo.entries[u]);
    } else {
      StrayRestore(cfg, w, f, u);
      KeptOpens(cfg, w, w.repo.entries[u].versionID, u);
      MissingIffLost(cfg, ring, events, w.repo.entries[u].versionID, u);
    }
  }

  lemma FirstIsNamed(cfg: Config, w: World, f: string)
    requires Inv(cfg, w) && f in w.repo.files
    ensures f in w.repo.versions && |w.repo.versions[f]| > 0 && Initial(w.repo.versions[f]).Upload?
    ensures Names(w, FirstVersionID(w.repo.versions[f]), Initial(w.repo.versions[f]))
  {
    hide EntriesOK, CleaningOK, Readable, RestoresFaithful, Lineage, Aimed, GrantsOK, HasOperation, HasVersion,
         LifecycleOK;
    assert History(f, w.repo.files[f], w.repo.versions[f], w.repo.entries);
  }

  lemma PurgedIsDead(cfg: Config, w: World, f: string, u: OperationID)
    requires Inv(cfg, w) && f in w.repo.files && f in w.repo.versions && w.repo.files[f].purgedAt.Some?
    requires u in w.repo.entries && HasOperation(w.repo.versions[f], u)
    ensures !Live(w.repo.entries[u])
  {
    hide EntriesOK, CleaningOK, Readable, RestoresFaithful, Lineage, Aimed, GrantsOK, HasVersion, HistoriesOK;
    var i :| 0 <= i < |w.repo.versions[f]| && w.repo.versions[f][i].operationID == u;
  }

  /** Those restores were all under way when the file was purged, and what was in its history
      then is what is in it for ever. */
  lemma SparedWereUnderway(cfg: Config, ring: Keyring, before: seq<Event>, op: PurgeID, now: Time, after: seq<Event>,
                           u: OperationID)
    requires ValidRing(ring) && Purges(Run(cfg, EmptyWorld(ring), before).repo, op, now)
    requires
      var r := Run(cfg, EmptyWorld(ring), before + [PurgeFile(op, now)] + after).repo;
      u in r.entries && Descends(r, op.file, u)
    ensures
      var r := Run(cfg, EmptyWorld(ring), before + [PurgeFile(op, now)] + after).repo;
      && op.file in r.files && r.files[op.file].purgedAt == Some(now)
      && VersionsOf(r, op.file) == VersionsOf(Run(cfg, EmptyWorld(ring), before).repo, op.file)
    ensures u.Restore? && u.file == op.file ==> Underway(Run(cfg, EmptyWorld(ring), before), u)
  {
    hide Run, Inv, PurgeGuard, Names, Underway, HasOperation;
    var w0 := Run(cfg, EmptyWorld(ring), before);
    var e := PurgeFile(op, now);
    RunKeeps(cfg, ring, before);
    OneMore(cfg, EmptyWorld(ring), before, e);
    RunSplit(cfg, EmptyWorld(ring), before + [e], after);
    var w1 := Next(cfg, w0, e);
    var w2 := Run(cfg, w1, after);
    PurgeMarks(cfg, w0, op, now);
    StepKeeps(cfg, w0, e);
    hide Next;
    PurgedRowStays(cfg, w1, after, op.file);
    if u.Restore? && u.file == op.file {
      assert Underway(w2, u) by { EntryUnderway(w2, u); }
      NoneStartsLater(cfg, w1, after, op.file, u);
      PurgeStartsNone(cfg, w0, op, now, u);
    }
  }

  lemma EntryUnderway(w: World, u: OperationID)
    requires u in w.repo.entries
    ensures Underway(w, u)
  {
    assert Names(w, w.repo.entries[u].versionID, u);
  }

  lemma PurgeStartsNone(cfg: Config, w: World, op: PurgeID, now: Time, u: OperationID)
    requires Inv(cfg, w) && Underway(Next(cfg, w, PurgeFile(op, now)), u)
    ensures Underway(w, u)
  {
    hide Names, Next, CleaningOK, Readable, RestoresFaithful, Lineage, Aimed, GrantsOK, HistoriesOK, LifecycleOK;
    var v :| Names(Next(cfg, w, PurgeFile(op, now)), v, u);
    OthersNameNothing(cfg, w, PurgeFile(op, now), v, u);
  }

  lemma PurgeMarks(cfg: Config, w: World, op: PurgeID, now: Time)
    requires Purges(w.repo, op, now)
    ensures
      var r' := Next(cfg, w, PurgeFile(op, now)).repo;
      op.file in r'.files && r'.files[op.file].purgedAt == Some(now) && r'.versions == w.repo.versions
  {
    hide Erased, ErasedObjects, RevokeAll, Destroy;
  }

  lemma OneMore(cfg: Config, w: World, events: seq<Event>, e: Event)
    ensures Run(cfg, w, events + [e]) == Next(cfg, Run(cfg, w, events), e)
  {
    hide Next;
    assert (events + [e])[..|events|] == events;
  }
}
