/** When a purge may happen, what exactly it destroys, and what a retry returns. */
module StorePurge {
  import opened Wrappers
  import opened Envelope
  import opened StoreModel
  import opened StoreInvariant
  import opened StoreSteps
  import opened StoreHistory

  // --- What the event log says about one file ---------------------------------

  predicate Registers(w: World, e: Event, f: string) {
    e.Register? && e.newFile == f && f !in w.repo.files &&
    f in RegisterStep(w, e.owner, e.name, e.uploadID, f).repo.files
  }

  /** Who registered the file; since when it has been in the trash, if it is there: its last
      move there, with neither a move back nor a purge since; whether it was purged; every
      retention deadline ever accepted for it; and whether the latest accepted hold instruction
      was to hold. */
  datatype Log = Log(owner: Option<string>, since: Option<Time>, purged: bool, deadlines: set<Time>, held: bool)
  {
    /** No deadline is ahead, and no hold is in force. */
    predicate Unguarded(now: Time) { !held && forall d :: d in deadlines ==> d <= now }
  }

  /** The log after one more event, from the log and the event alone, except that whether a
      registration makes the file is up to the catalogue. A move to the trash counts if the
      owner asks for an unguarded file that is not there already; a move back, if it is there;
      a purge, if it has been there for thirty days, unguarded; a deadline, if none accepted
      before lies after it; and after a purge nothing does. */
  function Logged(w: World, e: Event, f: string, log: Log): Log {
    match e
    case Register(owner, _, _, _) => if Registers(w, e, f) then log.(owner := Some(owner)) else log
    case Trash(owner, file, now) =>
      if file == f && log.owner == Some(owner) && !log.purged && log.since == None && log.Unguarded(now)
      then log.(since := Some(now)) else log
    case Untrash(owner, file, _) =>
      if file == f && log.owner == Some(owner) then log.(since := None) else log
    case PurgeFile(op, now) =>
      if op.file == f && log.owner == Some(op.owner) && Elapsed(log, now) && log.Unguarded(now)
      then log.(since := None, purged := true) else log
    case Retain(file, until) =>
      if file == f && log.owner.Some? && !log.purged && until.Some? && forall d :: d in log.deadlines ==>
          d <= until.value
      then log.(deadlines := log.deadlines + {until.value}) else log
    case Hold(file, enabled, _) =>
      if file == f && log.owner.Some? && !log.purged then log.(held := enabled) else log
    case _ => log
  }

  /** Thirty days, in microseconds, in the trash. */
  predicate Elapsed(log: Log, now: Time) { log.since.Some? && log.since.value + 2_592_000_000_000 <= now }

  ghost function LogOf(cfg: Config, ring: Keyring, events: seq<Event>, f: string): Log {
    if events == [] then Log(None, None, false, {}, false)
    else
      var before := events[..|events| - 1];
      Logged(Run(cfg, EmptyWorld(ring), before), events[|events| - 1], f, LogOf(cfg, ring, before, f))
  }

  /** The row agrees with the log. */
  ghost predicate RowMatches(file: File, log: Log) {
    && log.owner == Some(file.ownerID)
    && (log.since.Some? <==> file.deletedAt.Some? && file.purgedAt == None)
    && (log.since.Some? ==> file.purgeAfter == Some(log.since.value + GRACE))
    && (log.purged <==> file.purgedAt.Some?)
    && (forall d :: d in log.deadlines ==> file.retentionUntil.Some? && d <= file.retentionUntil.value)
    && (file.retentionUntil.Some? ==> file.retentionUntil.value in log.deadlines)
    && file.legalHold == log.held
  }

  ghost predicate FileMatches(r: Repo, f: string, log: Log) {
    && (if f in r.files then RowMatches(r.files[f], log) else log == Log(None, None, false, {}, false))
    && (forall op :: op in r.purges && op.file == f ==> log.purged)
  }

  lemma RegisterMatches(w: World, e: Event, f: string, log: Log)
    requires FileMatches(w.repo, f, log) && e.Register?
    ensures FileMatches(RegisterStep(w, e.owner, e.name, e.uploadID, e.newFile).repo, f, Logged(w, e, f, log))
  {
    hide Recognised, Catalogued, FirstVersion;
  }

  lemma RestoredMatches(w: World, e: Event, f: string, log: Log)
    requires FileMatches(w.repo, f, log) && e.CommitRestored?
    ensures FileMatches(CommitRestoredStep(w, e.owner, e.file, e.source, e.key).repo, f, Logged(w, e, f, log))
  {
    hide HasOperation, HasVersion, Superseded, RestoredVersion;
  }

  lemma TrashMatches(w: World, e: Event, f: string, log: Log)
    requires FileMatches(w.repo, f, log) && e.Trash?
    ensures FileMatches(MoveToTrash(w.repo, e.owner, e.file, e.now, e.now + GRACE), f, Logged(w, e, f, log))
  {
    hide RevokeAll;
  }

  lemma UntrashMatches(w: World, e: Event, f: string, log: Log)
    requires FileMatches(w.repo, f, log) && e.Untrash?
    ensures FileMatches(RestoreFromTrash(w.repo, e.owner, e.file, e.now), f, Logged(w, e, f, log))
  {}

  lemma PurgeMatches(w: World, e: Event, f: string, log: Log)
    requires FileMatches(w.repo, f, log) && e.PurgeFile?
    ensures FileMatches(Purge(w.repo, e.op, e.now), f, Logged(w, e, f, log))
  {
    hide Erased, ErasedObjects, RevokeAll, Destroy;
  }

  lemma RetainMatches(w: World, e: Event, f: string, log: Log)
    requires FileMatches(w.repo, f, log) && e.Retain?
    ensures FileMatches(SetRetention(w.repo, e.file, e.until), f, Logged(w, e, f, log))
  {}

  lemma HoldMatches(w: World, e: Event, f: string, log: Log)
    requires FileMatches(w.repo, f, log) && e.Hold?
    ensures FileMatches(SetLegalHold(w.repo, e.file, e.enabled, e.reason), f, Logged(w, e, f, log))
  {}

  lemma SameRowsMatch(r: Repo, r': Repo, f: string, log: Log)
    requires FileMatches(r, f, log) && r'.files == r.files && r'.purges == r.purges
    ensures FileMatches(r', f, log)
  {}

  lemma StepMatches(cfg: Config, w: World, e: Event, f: string, log: Log)
    requires FileMatches(w.repo, f, log)
    ensures FileMatches(Next(cfg, w, e).repo, f, Logged(w, e, f, log))
  {
    hide FileMatches, RegisterStep, CommitRestoredStep, MoveToTrash, RestoreFromTrash, Purge, SetRetention,
         SetLegalHold, RetentionAccepted, TrashGuard, InTrash, Purges;
    if e.Register? {
      RegisterMatches(w, e, f, log);
    } else if e.CommitRestored? {
      RestoredMatches(w, e, f, log);
    } else if e.Trash? {
      TrashMatches(w, e, f, log);
    } else if e.Untrash? {
      UntrashMatches(w, e, f, log);
    } else if e.PurgeFile? {
      PurgeMatches(w, e, f, log);
    } else if e.Retain? {
      RetainMatches(w, e, f, log);
    } else if e.Hold? {
      HoldMatches(w, e, f, log);
    } else {
      hide Next;
      RowsOtherwiseStay(cfg, w, e);
      SameRowsMatch(w.repo, Next(cfg, w, e).repo, f, log);
    }
  }

  lemma {:induction false} LogMatches(cfg: Config, ring: Keyring, events: seq<Event>, f: string)
    ensures FileMatches(Run(cfg, EmptyWorld(ring), events).repo, f, LogOf(cfg, ring, events, f))
  {
    hide Next, RowMatches, Logged;
    if events != [] {
      var before := events[..|events| - 1];
      hide FileMatches;
      LogMatches(cfg, ring, before, f);
      StepMatches(cfg, Run(cfg, EmptyWorld(ring), before), events[|events| - 1], f, LogOf(cfg, ring, before, f));
    }
  }

  /** What the log says about a purge by this owner at this instant. */
  ghost predicate PurgeDue(cfg: Config, ring: Keyring, events: seq<Event>, owner: string, f: string, now: Time) {
    var log := LogOf(cfg, ring, events, f);
    && log.owner == Some(owner)
    && log.since.Some? && log.since.value + 2_592_000_000_000 <= now
    && (forall d :: d in log.deadlines ==> d <= now)
    && !log.held
  }

  /** A purge is allowed exactly when, by the log, the owner's file is in the trash and has
      been for thirty days, every deadline ever accepted has passed, and no hold is in
      force. */
  lemma PurgeAllowedIff(cfg: Config, ring: Keyring, events: seq<Event>, owner: string, f: string, now: Time)
    ensures PurgeGuard(Run(cfg, EmptyWorld(ring), events).repo, owner, f, now).Success? <==>
            PurgeDue(cfg, ring, events, owner, f, now)
  {
    hide Run, LogOf;
    LogMatches(cfg, ring, events, f);
  }

  /** Only a purge that goes through destroys a key, and only a key of its own file. */
  lemma OnlyPurgeDestroys(cfg: Config, w: World, e: Event, u: OperationID)
    requires Inv(cfg, w) && u in w.repo.entries && Live(w.repo.entries[u])
    requires u !in Next(cfg, w, e).repo.entries || !Live(Next(cfg, w, e).repo.entries[u])
    ensures e.PurgeFile? && Purges(w.repo, e.op, e.now) && HasOperation(VersionsOf(w.repo, e.op.file), u)
  {
    hide EntriesOK, CleaningOK, Readable, RestoresFaithful, Lineage, Aimed, HistoriesOK, LifecycleOK, GrantsOK,
         HasOperation, Erased;
    if e.PurgeFile? {
      if Purges(w.repo, e.op, e.now) {
        hide PurgeGuard;
        InTrashHasRow(w, e.op, e.now);
        RowHasHistory(w.repo, e.op.file);
        ErasedIsOwn(w.inFlight, w.repo, e.op.file, u);
      }
    } else {
      hide Next;
      KeysOtherwiseStay(cfg, w, e, u);
    }
  }

  lemma RowHasHistory(r: Repo, f: string)
    requires HistoriesOK(r.files, r.versions, r.entries) && f in r.files
    ensures f in r.versions
  {}

  lemma InTrashHasRow(w: World, op: PurgeID, now: Time)
    requires Purges(w.repo, op, now)
    ensures op.file in w.repo.files
  {}

  lemma KeysOtherwiseStay(cfg: Config, w: World, e: Event, u: OperationID)
    requires !e.PurgeFile? && u in w.repo.entries && Live(w.repo.entries[u])
    ensures u in Next(cfg, w, e).repo.entries && Live(Next(cfg, w, e).repo.entries[u])
  {
    hide CheckRequest, Open, Finds, FreshVersion, Tracked, Wrap, NewMetadata, MayGrant, GrantSlot, Unwrap,
         WrappingIdentity, Recognised, Catalogued, RestoreGuard, HasOperation, TrashGuard, RevokeAll;
  }

  /** Purge safety. In every run, if a step makes a key disappear then that step is a purge of
      the file the key belongs to, by its owner, at a time at or after its move to the trash
      plus thirty days and every retention deadline ever accepted, with no hold in force. */
  lemma PurgeSafety(cfg: Config, ring: Keyring, events: seq<Event>, e: Event, u: OperationID)
    requires ValidRing(ring)
    requires
      var w := Run(cfg, EmptyWorld(ring), events);
      && u in w.repo.entries && Live(w.repo.entries[u])
      && (u in Next(cfg, w, e).repo.entries ==> !Live(Next(cfg, w, e).repo.entries[u]))
    ensures
      && e.PurgeFile? && HasOperation(VersionsOf(Run(cfg, EmptyWorld(ring), events).repo, e.op.file), u)
      && PurgeDue(cfg, ring, events, e.op.owner, e.op.file, e.now)
  {
    hide Run, Next, Inv, HasOperation, PurgeGuard, PurgeDue;
    RunKeeps(cfg, ring, events);
    OnlyPurgeDestroys(cfg, Run(cfg, EmptyWorld(ring), events), e, u);
    PurgeAllowedIff(cfg, ring, events, e.op.owner, e.op.file, e.now);
  }

  // --- Exactness -------------------------------------------------------------

  function Operations(vs: seq<Version>): set<OperationID> {
    set i | 0 <= i < |vs| :: vs[i].operationID
  }

  function Objects(vs: seq<Version>): set<string> {
    set i | 0 <= i < |vs| :: Blob(vs[i].versionID)
  }

  lemma {:induction false} ImageSize<A(!new), B>(s: seq<A>, image: A -> B, values: set<B>)
    requires forall i, j :: 0 <= i < j < |s| ==> image(s[i]) != image(s[j])
    requires values == set i | 0 <= i < |s| :: image(s[i])
    ensures |values| == |s|
  {
    if s != [] {
      var n := |s| - 1;
      var fewer := set i | 0 <= i < |s[..n]| :: image(s[..n][i]);
      ImageSize(s[..n], image, fewer);
      assert values == fewer + {image(s[n])} by {
        forall b | b in values ensures b in fewer + {image(s[n])} {
          var i :| 0 <= i < |s| && b == image(s[i]);
          if i < n { assert s[..n][i] == s[i]; }
        }
        forall b | b in fewer ensures b in values {
          var i :| 0 <= i < |s[..n]| && b == image(s[..n][i]);
          assert s[..n][i] == s[i];
        }
      }
      forall i | 0 <= i < |s[..n]| ensures image(s[..n][i]) != image(s[n]) {}
    } else {
      assert values == {};
    }
  }

  lemma VersionsApart(f: string, file: File, flight: Flight, vs: seq<Version>, entries: Entries)
    requires History(f, file, vs, entries) && EntriesOK(flight, entries)
    ensures forall i, j :: 0 <= i < j < |vs| ==> Blob(vs[i].versionID) != Blob(vs[j].versionID)
  {
    forall i, j | 0 <= i < j < |vs| ensures Blob(vs[i].versionID) != Blob(vs[j].versionID) {
      BlobInjective(vs[i].versionID, vs[j].versionID);
      assert entries[vs[i].operationID].versionID == vs[i].versionID &&
             entries[vs[j].operationID].versionID == vs[j].versionID;
    }
  }

  lemma ErasedIsAll(cfg: Config, w: World, f: string)
    requires Inv(cfg, w) && f in w.repo.files && f in w.repo.versions && w.repo.files[f].purgedAt == None
    ensures Erased(w.repo, f) == Operations(w.repo.versions[f])
  {
    hide CleaningOK, Readable, RestoresFaithful, Lineage, Aimed, GrantsOK, Erased, EntriesOK, Live;
    var r := w.repo;
    HistoriesUseEntries(r.files, r.versions, r.entries);
    forall u ensures u in Erased(r, f) <==> u in Operations(r.versions[f]) {
      ErasedIsOwn(w.inFlight, r, f, u);
      if HasOperation(r.versions[f], u) {
        var i :| 0 <= i < |r.versions[f]| && r.versions[f][i].operationID == u;
        assert Live(r.entries[u]);
      }
    }
  }

  lemma ErasedObjectsIsAll(cfg: Config, w: World, f: string)
    requires Inv(cfg, w) && f in w.repo.files && f in w.repo.versions &&
             Erased(w.repo, f) == Operations(w.repo.versions[f])
    ensures ErasedObjects(w.repo, f) == Objects(w.repo.versions[f])
  {
    hide CleaningOK, Readable, RestoresFaithful, Lineage, Aimed, GrantsOK, Erased, LifecycleOK, Live, HasVersion,
         HasOperation, Blob, ErasedObjects, Objects;
    var r := w.repo;
    var vs := r.versions[f];
    assert History(f, r.files[f], vs, r.entries);
    forall i | 0 <= i < |vs|
      ensures vs[i].operationID in r.entries && r.entries[vs[i].operationID].blobObject == Blob(vs[i].versionID)
    {}
    hide EntriesOK, HistoriesOK;
    ObjectsOfOperations(r, f, vs);
  }

  lemma ObjectsOfOperations(r: Repo, f: string, vs: seq<Version>)
    requires Erased(r, f) == Operations(vs)
    requires forall i :: 0 <= i < |vs| ==>
               vs[i].operationID in r.entries && r.entries[vs[i].operationID].blobObject == Blob(vs[i].versionID)
    ensures ErasedObjects(r, f) == Objects(vs)
  {
    hide Erased, Blob;
    forall o | o in ErasedObjects(r, f) ensures o in Objects(vs) {
      var u :| u in Erased(r, f) && r.entries[u].blobObject == o;
      var i :| 0 <= i < |vs| && vs[i].operationID == u;
      assert o == Blob(vs[i].versionID);
    }
    forall o | o in Objects(vs) ensures o in ErasedObjects(r, f) {
      var i :| 0 <= i < |vs| && Blob(vs[i].versionID) == o;
      assert vs[i].operationID in Erased(r, f);
    }
  }

  lemma PurgeTouchesOwn(cfg: Config, w: World, op: PurgeID, now: Time)
    requires Inv(cfg, w) && Purges(w.repo, op, now) && op.file in w.repo.versions
    ensures
      var r, r' := w.repo, Purge(w.repo, op, now);
      && r'.entries.Keys == r.entries.Keys
      && (forall u :: u in r.entries ==>
            if Live(r.entries[u]) && HasOperation(r.versions[op.file], u) then !Live(r'.entries[u])
                else r'.entries[u] == r.entries[u])
      && (forall g :: g in r.files && g != op.file ==> g in r'.files && r'.files[g] == r.files[g])
  {
    hide EntriesOK, CleaningOK, Readable, RestoresFaithful, Lineage, Aimed, HistoriesOK, LifecycleOK, GrantsOK,
         HasOperation, Erased, ErasedObjects, RevokeAll, PurgeGuard;
    InTrashHasRow(w, op, now);
    forall u | u in w.repo.entries
      ensures u in Erased(w.repo, op.file) <==> Live(w.repo.entries[u]) && HasOperation(w.repo.versions[op.file], u)
    {
      ErasedIsOwn(w.inFlight, w.repo, op.file, u);
    }
  }

  lemma HistorySizes(cfg: Config, w: World, f: string)
    requires Inv(cfg, w) && f in w.repo.files && f in w.repo.versions
    ensures |Operations(w.repo.versions[f])| == |Objects(w.repo.versions[f])| == |w.repo.versions[f]|
  {
    hide CleaningOK, Readable, RestoresFaithful, Lineage, Aimed, GrantsOK, LifecycleOK, EntriesOK, HasVersion,
         HasOperation, Objects, Blob;
    var r := w.repo;
    var vs := r.versions[f];
    assert History(f, r.files[f], vs, r.entries);
    hide HistoriesOK;
    VersionsApart(f, r.files[f], w.inFlight, vs, r.entries);
    ImageSize(vs, (v: Version) => v.operationID, Operations(vs));
    ObjectsSize(vs);
  }

  /** A purge destroys one key for each version of the file, and lists exactly those
      versions' objects. Every other envelope and file stays as it was. */
  lemma PurgeExact(cfg: Config, w: World, op: PurgeID, now: Time)
    requires Inv(cfg, w) && Purges(w.repo, op, now) && op.file in w.repo.versions
    ensures
      var vs := w.repo.versions[op.file];
      && PurgeOutcome(w.repo, op, now) == Success(PurgeResult(op.file, op, |vs|, now, Objects(vs)))
      && |Objects(vs)| == |vs|
    ensures
      var r, r' := w.repo, Purge(w.repo, op, now);
      && r'.entries.Keys == r.entries.Keys
      && (forall u :: u in r.entries ==>
            if Live(r.entries[u]) && HasOperation(r.versions[op.file], u) then !Live(r'.entries[u])
                else r'.entries[u] == r.entries[u])
      && (forall g :: g in r.files && g != op.file ==> g in r'.files && r'.files[g] == r.files[g])
  {
    hide Inv, Erased, ErasedObjects, Objects, Operations, HasOperation, Live;
    InTrashHasRow(w, op, now);
    assert w.repo.files[op.file].purgedAt == None;
    hide PurgeGuard;
    HistorySizes(cfg, w, op.file);
    ErasedIsAll(cfg, w, op.file);
    ErasedObjectsIsAll(cfg, w, op.file);
    hide Purge;
    PurgeTouchesOwn(cfg, w, op, now);
  }

  lemma ObjectsSize(vs: seq<Version>)
    requires forall i, j :: 0 <= i < j < |vs| ==> Blob(vs[i].versionID) != Blob(vs[j].versionID)
    ensures |Objects(vs)| == |vs|
  {
    ImageSize(vs, (v: Version) => Blob(v.versionID), Objects(vs));
  }

  // --- Retries ---------------------------------------------------------------

  lemma StepRecords(cfg: Config, w: World, e: Event, op: PurgeID)
    requires op in w.repo.purges
    ensures op in Next(cfg, w, e).repo.purges && Next(cfg, w, e).repo.purges[op] == w.repo.purges[op]
  {
    hide CheckRequest, Open, Finds, FreshVersion, Tracked, Wrap, NewMetadata, MayGrant, GrantSlot, Unwrap,
         WrappingIdentity, Live, Recognised, Catalogued, RestoreGuard, HasOperation, TrashGuard, RevokeAll, Erased,
         ErasedObjects, PurgeGuard, Destroy, RewrapMatches;
  }

  lemma {:induction false} RecordsStay(cfg: Config, w: World, events: seq<Event>, op: PurgeID)
    requires op in w.repo.purges
    ensures op in Run(cfg, w, events).repo.purges && Run(cfg, w, events).repo.purges[op] == w.repo.purges[op]
  {
    hide Next;
    if events != [] {
      RecordsStay(cfg, w, events[..|events| - 1], op);
      StepRecords(cfg, Run(cfg, w, events[..|events| - 1]), events[|events| - 1], op);
    }
  }

  /** A retry with the same operation ID, at any later time and after anything else, returns
      the first result and changes nothing. */
  lemma PurgeRetry(cfg: Config, w: World, op: PurgeID, now: Time, events: seq<Event>, later: Time)
    requires PurgeOutcome(w.repo, op, now).Success?
    ensures
      var w' := Run(cfg, w.(repo := Purge(w.repo, op, now)), events);
      && PurgeOutcome(w'.repo, op, later) == PurgeOutcome(w.repo, op, now)
      && Purge(w'.repo, op, later) == w'.repo
  {
    hide Run, Erased, ErasedObjects, RevokeAll, Destroy, PurgeGuard;
    RecordsStay(cfg, w.(repo := Purge(w.repo, op, now)), events, op);
  }

  /** Any other operation ID finds nothing left to purge. */
  lemma PurgedOnce(cfg: Config, w: World, op: PurgeID, now: Time, events: seq<Event>, other: PurgeID, later: Time)
    requires Inv(cfg, w)
    requires Purges(w.repo, op, now) && other.file == op.file && other != op
    ensures
      var w' := Run(cfg, w.(repo := Purge(w.repo, op, now)), events);
      && PurgeOutcome(w'.repo, other, later) == Failure(NotInTrash)
      && Purge(w'.repo, other, later) == w'.repo
  {
    hide Run, Erased, ErasedObjects, RevokeAll, Destroy, EntriesOK, CleaningOK, Readable, RestoresFaithful, Lineage,
         Aimed, HistoriesOK, GrantsOK, HasOperation;
    var w1 := w.(repo := Purge(w.repo, op, now));
    assert other !in w1.repo.purges && w1.repo.files[op.file].purgedAt.Some?;
    hide Inv, Purge, LifecycleOK;
    PurgedRowStays(cfg, w1, events, op.file);
    NoNewRecord(cfg, w1, events, other);
  }

  lemma {:induction false} NoNewRecord(cfg: Config, w: World, events: seq<Event>, op: PurgeID)
    requires op.file in w.repo.files && w.repo.files[op.file].purgedAt.Some? && op !in w.repo.purges
    ensures op !in Run(cfg, w, events).repo.purges
  {
    if events != [] {
      var before := events[..|events| - 1];
      hide Next;
      NoNewRecord(cfg, w, before, op);
      PurgedRowStays(cfg, w, before, op.file);
      StepNoRecord(cfg, Run(cfg, w, before), events[|events| - 1], op);
    }
  }

  lemma StepNoRecord(cfg: Config, w: World, e: Event, op: PurgeID)
    requires op.file in w.repo.files && w.repo.files[op.file].purgedAt.Some? && op !in w.repo.purges
    ensures op !in Next(cfg, w, e).repo.purges
  {
    hide CheckRequest, Open, Finds, FreshVersion, Tracked, Wrap, NewMetadata, MayGrant, GrantSlot, Unwrap,
         WrappingIdentity, Live, Recognised, Catalogued, RestoreGuard, HasOperation, TrashGuard, RevokeAll, Erased,
         ErasedObjects, Destroy, RewrapMatches;
  }
}
