/** Catalogue, lifecycle and grant transitions keep the invariant, and so does every run. */
module StoreSteps {
  import opened Wrappers
  import opened Framing
  import opened Envelope
  import opened StoreModel
  import opened StoreInvariant

  // --- Catalogue -------------------------------------------------------------

  /** A dead key belongs to a purged file, so one that no file owns is alive. */
  lemma UnownedIsLive(files: Files, versions: Histories, entries: Entries, purges: map<PurgeID, PurgeResult>,
                      u: OperationID)
    requires LifecycleOK(files, versions, entries, purges) && u in entries
    requires forall f :: f in versions ==> !HasOperation(versions[f], u)
    ensures Live(entries[u])
  {
    hide HasOperation;
  }

  lemma FirstHistory(f: string, file: File, m: Metadata, entries: Entries)
    requires m.uploadID in entries && entries[m.uploadID] == m && m.uploadID.Upload?
    requires file.ownerID == m.ownerID && file.currentVersionID == m.versionID
    ensures History(f, file, [FirstVersion(m)], entries)
  {}

  lemma InitialBelongs(vs: seq<Version>)
    requires |vs| > 0
    ensures HasOperation(vs, Initial(vs)) && (|vs| == 1 ==> Initial(vs) == vs[0].operationID)
  {}

  lemma RegisteredHistories(files: Files, versions: Histories, entries: Entries, f: string, file: File, v: Version)
    requires HistoriesOK(files, versions, entries) && f !in files && History(f, file, [v], entries)
    requires forall g :: g in versions ==> !HasOperation(versions[g], v.operationID)
    ensures HistoriesOK(files[f := file], versions[f := [v]], entries)
  {
    hide History, HasOperation, Initial;
    forall g | g in versions && |versions[g]| > 0 ensures Initial(versions[g]) != Initial([v]) {
      InitialBelongs(versions[g]);
      InitialBelongs([v]);
    }
  }

  lemma RegisteredLifecycle(files: Files, versions: Histories, entries: Entries, purges: map<PurgeID, PurgeResult>,
                            f: string, file: File, v: Version)
    requires LifecycleOK(files, versions, entries, purges) && f !in files && f !in versions
    requires file.Active() && file.purgeAfter == None && v.operationID in entries && Live(entries[v.operationID])
    ensures LifecycleOK(files[f := file], versions[f := [v]], entries, purges)
  {
    hide HasOperation;
    var versions' := versions[f := [v]];
    forall u | u in entries && !Live(entries[u]) ensures exists g :: g in versions' && HasOperation(versions'[g], u) {
      var g :| g in versions && HasOperation(versions[g], u);
      assert versions'[g] == versions[g];
    }
  }

  lemma RegisteredLineage(content: Content, versions: Histories, f: string, m: Metadata)
    requires Lineage(content, versions) && m.versionID in content
    ensures Lineage(content, versions[f := [FirstVersion(m)]])
  {
    assert OneContent(content, [FirstVersion(m)]);
    hide OneContent;
  }

  /** Whatever some file has, it still has. */
  ghost predicate StillHave(versions: Histories, versions': Histories) {
    forall f, id :: f in versions && HasVersion(versions[f], id) ==> f in versions' && HasVersion(versions'[f], id)
  }

  lemma AimedGrows(flight: Flight, entries: Entries, versions: Histories, versions': Histories)
    requires Aimed(flight, entries, versions) && StillHave(versions, versions')
    ensures Aimed(flight, entries, versions')
  {
    hide HasVersion;
  }

  lemma AddedFile(w: World, f: string, file: File, m: Metadata)
    requires HistoriesOK(w.repo.files, w.repo.versions, w.repo.entries)
    requires LifecycleOK(w.repo.files, w.repo.versions, w.repo.entries, w.repo.purges) &&
             GrantsOK(w.repo.files, w.repo.grants)
    requires m.uploadID.Upload? && f !in w.repo.files && m.uploadID in w.repo.entries && w.repo.entries[m.uploadID] == m
    requires file == NewFile(m.ownerID, file.name, m)
    requires forall g :: g in w.repo.versions ==> !HasOperation(w.repo.versions[g], m.uploadID)
    ensures HistoriesOK(w.repo.files[f := file], w.repo.versions[f := [FirstVersion(m)]], w.repo.entries)
    ensures LifecycleOK(w.repo.files[f := file], w.repo.versions[f := [FirstVersion(m)]], w.repo.entries, w.repo.purges)
    ensures GrantsOK(w.repo.files[f := file], w.repo.grants)
  {
    var r := w.repo;
    assert f !in r.versions;
    hide HistoriesOK, LifecycleOK, GrantsOK, History, HasOperation, HasVersion;
    UnownedIsLive(r.files, r.versions, r.entries, r.purges, m.uploadID);
    FirstHistory(f, file, m, r.entries);
    RegisteredHistories(r.files, r.versions, r.entries, f, file, FirstVersion(m));
    RegisteredLifecycle(r.files, r.versions, r.entries, r.purges, f, file, FirstVersion(m));
    GrantsIgnoreNewRow(r.files, r.grants, f, file);
  }

  lemma AddedStillHave(versions: Histories, f: string, vs: seq<Version>)
    requires f !in versions
    ensures StillHave(versions, versions[f := vs])
  {
    hide HasVersion;
  }

  lemma AddFileKeeps(cfg: Config, w: World, owner: string, name: string, m: Metadata, newFile: string)
    requires Inv(cfg, w) && m.uploadID.Upload? && newFile !in w.repo.files
    requires m.uploadID in w.repo.entries && w.repo.entries[m.uploadID] == m && m.ownerID == owner
    requires forall f :: f in w.repo.versions ==> !HasOperation(w.repo.versions[f], m.uploadID)
    ensures Inv(cfg, w.(repo := AddFile(w.repo, owner, name, m, newFile)))
  {
    assert newFile !in w.repo.versions && m.versionID in w.content;
    hide EntriesOK, CleaningOK, HistoriesOK, Readable, RestoresFaithful, Lineage, LifecycleOK, GrantsOK, Aimed,
         StillHave, HasOperation, FirstVersion;
    AddedFile(w, newFile, NewFile(owner, name, m), m);
    RegisteredLineage(w.content, w.repo.versions, newFile, m);
    AddedStillHave(w.repo.versions, newFile, [FirstVersion(m)]);
    AimedGrows(w.inFlight, w.repo.entries, w.repo.versions, w.repo.versions[newFile := [FirstVersion(m)]]);
  }

  lemma RegisterKeeps(cfg: Config, w: World, owner: string, name: string, u: OperationID, newFile: string)
    requires Inv(cfg, w)
    ensures Inv(cfg, RegisterStep(w, owner, name, u, newFile))
  {
    hide Inv, Recognised, HasOperation, HasVersion, AddFile;
    if RegisterStep(w, owner, name, u, newFile) != w {
      EntryNamed(cfg, w, u);
      AddFileKeeps(cfg, w, owner, name, w.repo.entries[u], newFile);
    }
  }

  lemma HistoryRow(f: string, file: File, file': File, vs: seq<Version>, entries: Entries)
    requires History(f, file, vs, entries)
    requires file'.ownerID == file.ownerID && file'.currentVersionID == file.currentVersionID
    ensures History(f, file', vs, entries)
  {
    hide HasVersion;
  }

  lemma SupersededHas(vs: seq<Version>, i: nat, id: string)
    requires i <= |vs| && HasVersion(vs[i..], id)
    ensures HasVersion(Superseded(vs)[i..], id)
  {
    var k :| 0 <= k < |vs[i..]| && vs[i..][k].versionID == id;
    assert Superseded(vs)[i..][k].versionID == id;
  }

  lemma SourcesKept(f: string, file: File, vs: seq<Version>, entries: Entries, source: string, v: Version)
    requires History(f, file, vs, entries) && HasVersion(vs, source)
    requires v.operationID.Restore? && v.operationID.file == f && v.operationID.source == source &&
             v.sourceVersionID == Some(source)
    ensures
      var vs' := [v] + Superseded(vs);
      forall i :: 0 <= i < |vs'| - 1 ==>
        && vs'[i].operationID.Restore? && vs'[i].operationID.file == f
        && vs'[i].sourceVersionID == Some(vs'[i].operationID.source)
        && HasVersion(vs'[i + 1..], vs'[i].operationID.source)
  {
    hide HasVersion;
    var vs' := [v] + Superseded(vs);
    assert vs[0..] == vs;
    forall i | 0 <= i < |vs'| - 1
      ensures vs'[i].operationID.Restore? && vs'[i].operationID.file == f
      ensures vs'[i].sourceVersionID == Some(vs'[i].operationID.source)
      ensures HasVersion(vs'[i + 1..], vs'[i].operationID.source)
    {
      assert vs'[i + 1..] == Superseded(vs)[i..];
      if i > 0 { assert vs'[i].operationID == vs[i - 1].operationID; }
      SupersededHas(vs, i, vs'[i].operationID.source);
    }
  }

  lemma OperationsStayApart(vs: seq<Version>, v: Version)
    requires !HasOperation(vs, v.operationID)
    requires forall i, j :: 0 <= i < j < |vs| ==> vs[i].operationID != vs[j].operationID
    ensures
      var vs' := [v] + Superseded(vs);
      forall i, j :: 0 <= i < j < |vs'| ==> vs'[i].operationID != vs'[j].operationID
  {
    var vs' := [v] + Superseded(vs);
    forall i, j | 0 <= i < j < |vs'| ensures vs'[i].operationID != vs'[j].operationID {
      if i == 0 { assert vs[j - 1].operationID != v.operationID; }
    }
  }

  lemma RestoredHistory(f: string, file: File, vs: seq<Version>, entries: Entries, source: string, m: Metadata)
    requires History(f, file, vs, entries)
    requires m.uploadID in entries && entries[m.uploadID] == m && m.ownerID == file.ownerID
    requires m.uploadID.Restore? && m.uploadID.file == f && m.uploadID.source == source
    requires HasVersion(vs, source) && !HasOperation(vs, m.uploadID)
    ensures History(f, file.(currentVersionID := m.versionID, updatedAt := m.createdAt),
                    [RestoredVersion(vs, source, m)] + Superseded(vs), entries)
  {
    var vs' := [RestoredVersion(vs, source, m)] + Superseded(vs);
    hide HasVersion;
    SourcesKept(f, file, vs, entries, source, RestoredVersion(vs, source, m));
    OperationsStayApart(vs, RestoredVersion(vs, source, m));
    hide HasOperation;
  }

  /** A restore's version is found in its own file's history or in none. */
  lemma RestoreHome(files: Files, versions: Histories, entries: Entries, u: OperationID, g: string)
    requires HistoriesOK(files, versions, entries) && u.Restore? && g in versions && HasOperation(versions[g], u)
    ensures g == u.file
  {
    assert History(g, files[g], versions[g], entries);
    var i :| 0 <= i < |versions[g]| && versions[g][i].operationID == u;
  }

  /** A restore into a file was sealed from what that file's first version was. */
  lemma RestoredContent(w: World, f: string, source: string, u: OperationID)
    requires RestoresFaithful(w.content, w.inFlight, w.repo.entries) && Lineage(w.content, w.repo.versions)
    requires f in w.repo.versions && u in w.repo.entries && u.Restore? && u.source == source &&
             HasVersion(w.repo.versions[f], source)
    ensures SameBytes(w.content, w.repo.entries[u].versionID, FirstVersionID(w.repo.versions[f]))
  {
    var vs := w.repo.versions[f];
    var k :| 0 <= k < |vs| && vs[k].versionID == source;
    assert OneContent(w.content, vs);
    assert SameBytes(w.content, vs[k].versionID, FirstVersionID(vs));
  }

  lemma RestoredOneContent(content: Content, vs: seq<Version>, v: Version)
    requires OneContent(content, vs) && |vs| > 0 && SameBytes(content, v.versionID, FirstVersionID(vs))
    ensures OneContent(content, [v] + Superseded(vs))
  {
    var vs' := [v] + Superseded(vs);
    assert FirstVersionID(vs') == FirstVersionID(vs);
    forall i | 0 <= i < |vs'| ensures SameBytes(content, vs'[i].versionID, FirstVersionID(vs')) {
      if i > 0 { assert vs'[i].versionID == vs[i - 1].versionID; }
    }
  }

  lemma RestoredLineage(content: Content, versions: Histories, f: string, v: Version)
    requires Lineage(content, versions) && f in versions && |versions[f]| > 0
    requires SameBytes(content, v.versionID, FirstVersionID(versions[f]))
    ensures Lineage(content, versions[f := [v] + Superseded(versions[f])])
  {
    RestoredOneContent(content, versions[f], v);
    hide OneContent, SameBytes;
  }

  lemma RestoredStillHave(versions: Histories, f: string, v: Version)
    requires f in versions
    ensures StillHave(versions, versions[f := [v] + Superseded(versions[f])])
  {
    forall id | HasVersion(versions[f], id) ensures HasVersion([v] + Superseded(versions[f]), id) {
      var k :| 0 <= k < |versions[f]| && versions[f][k].versionID == id;
      assert ([v] + Superseded(versions[f]))[k + 1].versionID == id;
    }
    hide HasVersion;
  }

  lemma RestoredLifecycle(files: Files, versions: Histories, entries: Entries, purges: map<PurgeID, PurgeResult>,
                          f: string, file: File, v: Version)
    requires LifecycleOK(files, versions, entries, purges) && f in files && f in versions
    requires file == files[f].(currentVersionID := file.currentVersionID, updatedAt := file.updatedAt)
    requires files[f].purgedAt == None && v.operationID in entries && Live(entries[v.operationID])
    ensures LifecycleOK(files[f := file], versions[f := [v] + Superseded(versions[f])], entries, purges)
  {
    var versions' := versions[f := [v] + Superseded(versions[f])];
    assert file.deletedAt == files[f].deletedAt && file.purgeAfter == files[f].purgeAfter &&
           file.purgedAt == files[f].purgedAt;
    forall u | u in entries && !Live(entries[u]) ensures exists g :: g in versions' && HasOperation(versions'[g], u) {
      var g :| g in versions && HasOperation(versions[g], u);
      var i :| 0 <= i < |versions[g]| && versions[g][i].operationID == u;
      assert versions'[g][if g == f then i + 1 else i].operationID == u;
      assert HasOperation(versions'[g], u);
    }
    forall g, i | g in versions' && g in files && 0 <= i < |versions'[g]| && versions'[g][i].operationID in entries
      ensures Live(entries[versions'[g][i].operationID]) <==> files[f := file][g].purgedAt == None
    {
      if g == f && i > 0 { assert versions'[f][i].operationID == versions[f][i - 1].operationID; }
    }
    hide HasOperation;
  }

  lemma GrantsIgnoreRow(files: Files, grants: map<string, Grant>, f: string, file: File)
    requires GrantsOK(files, grants) && f in files
    requires file.ownerID == files[f].ownerID && (files[f].Active() ==> file.Active())
    ensures GrantsOK(files[f := file], grants)
  {}

  lemma GrantsIgnoreNewRow(files: Files, grants: map<string, Grant>, f: string, file: File)
    requires GrantsOK(files, grants) && f !in files
    ensures GrantsOK(files[f := file], grants)
  {}

  lemma RestoredHistories(files: Files, versions: Histories, entries: Entries, f: string, file: File, v: Version)
    requires HistoriesOK(files, versions, entries) && f in files
    requires History(f, file, [v] + Superseded(versions[f]), entries)
    ensures HistoriesOK(files[f := file], versions[f := [v] + Superseded(versions[f])], entries)
  {
    hide History, Initial, Superseded;
    HistoriesNonempty(files, versions, entries, f);
    InitialKept(versions[f], v);
    var versions' := versions[f := [v] + Superseded(versions[f])];
    assert Initial(versions'[f]) == Initial(versions[f]);
    forall g, h | g in versions' && h in versions' && g != h && |versions'[g]| > 0 && |versions'[h]| > 0
      ensures Initial(versions'[g]) != Initial(versions'[h])
    {
      HistoriesNonempty(files, versions, entries, g);
      HistoriesNonempty(files, versions, entries, h);
    }
  }

  lemma HistoriesNonempty(files: Files, versions: Histories, entries: Entries, f: string)
    requires HistoriesOK(files, versions, entries) && f in files
    ensures |versions[f]| > 0
  {
    assert History(f, files[f], versions[f], entries);
  }

  lemma InitialKept(vs: seq<Version>, v: Version)
    requires |vs| > 0
    ensures Initial([v] + Superseded(vs)) == Initial(vs)
  {}

  lemma RestoreUnowned(files: Files, versions: Histories, entries: Entries, u: OperationID)
    requires HistoriesOK(files, versions, entries) && u.Restore? && u.file in versions &&
             !HasOperation(versions[u.file], u)
    ensures forall g :: g in versions ==> !HasOperation(versions[g], u)
  {
    hide HistoriesOK, HasOperation;
    forall g | g in versions ensures !HasOperation(versions[g], u) {
      if HasOperation(versions[g], u) { RestoreHome(files, versions, entries, u, g); }
    }
  }

  lemma AddRestoredKeeps(cfg: Config, w: World, f: string, source: string, m: Metadata)
    requires Inv(cfg, w) && f in w.repo.files && w.repo.files[f].purgedAt == None &&
             m.ownerID == w.repo.files[f].ownerID
    requires m.uploadID in w.repo.entries && w.repo.entries[m.uploadID] == m
    requires m.uploadID.Restore? && m.uploadID.file == f && m.uploadID.source == source
    requires HasVersion(VersionsOf(w.repo, f), source) && !HasOperation(VersionsOf(w.repo, f), m.uploadID)
    ensures
      var vs := VersionsOf(w.repo, f);
      Inv(cfg, w.(repo := w.repo.(
        files := w.repo.files[f := w.repo.files[f].(currentVersionID := m.versionID, updatedAt := m.createdAt)],
        versions := w.repo.versions[f := [RestoredVersion(vs, source, m)] + Superseded(vs)])))
  {
    var r := w.repo;
    hide EntriesOK, CleaningOK, Readable, RestoresFaithful, Lineage, LifecycleOK, GrantsOK, Aimed, History,
         HasOperation, HasVersion, Superseded;
    assert f in r.versions && VersionsOf(r, f) == r.versions[f] && History(f, r.files[f], r.versions[f], r.entries);
    var vs := r.versions[f];
    var v := RestoredVersion(vs, source, m);
    var file := r.files[f].(currentVersionID := m.versionID, updatedAt := m.createdAt);
    HistoriesNonempty(r.files, r.versions, r.entries, f);
    hide HistoriesOK;
    RestoredContent(w, f, source, m.uploadID);
    RestoreUnowned(r.files, r.versions, r.entries, m.uploadID);
    UnownedIsLive(r.files, r.versions, r.entries, r.purges, m.uploadID);
    RestoredHistory(f, r.files[f], vs, r.entries, source, m);
    RestoredHistories(r.files, r.versions, r.entries, f, file, v);
    RestoredLineage(w.content, r.versions, f, v);
    RestoredLifecycle(r.files, r.versions, r.entries, r.purges, f, file, v);
    RestoredStillHave(r.versions, f, v);
    AimedGrows(w.inFlight, r.entries, r.versions, r.versions[f := [v] + Superseded(vs)]);
    GrantsIgnoreRow(r.files, r.grants, f, file);
  }

  lemma CommitRestoredKeeps(cfg: Config, w: World, owner: string, f: string, source: string, key: string)
    requires Inv(cfg, w)
    ensures Inv(cfg, CommitRestoredStep(w, owner, f, source, key))
  {
    hide Inv, HasOperation, HasVersion, Superseded, RestoredVersion;
    if CommitRestoredStep(w, owner, f, source, key) != w {
      var u := Restore(owner, f, source, key);
      EntryNamed(cfg, w, u);
      AddRestoredKeeps(cfg, w, f, source, w.repo.entries[u]);
    }
  }

  // --- Lifecycle -------------------------------------------------------------

  lemma RowHistories(files: Files, versions: Histories, entries: Entries, f: string, file: File)
    requires HistoriesOK(files, versions, entries) && f in files
    requires file.ownerID == files[f].ownerID && file.currentVersionID == files[f].currentVersionID
    ensures HistoriesOK(files[f := file], versions, entries)
  {
    HistoryRow(f, files[f], file, versions[f], entries);
    hide History, Initial;
  }

  lemma RowLifecycle(files: Files, versions: Histories, entries: Entries, purges: map<PurgeID, PurgeResult>, f: string,
                     file: File)
    requires LifecycleOK(files, versions, entries, purges) && f in files
    requires file.purgedAt == files[f].purgedAt
    requires (file.deletedAt.Some? <==> file.purgeAfter.Some?) && (file.purgedAt.Some? ==> file.deletedAt.Some?)
    ensures LifecycleOK(files[f := file], versions, entries, purges)
  {
    hide HasOperation;
  }

  /** Any change to one row's lifecycle columns, with grants to match. */
  lemma RowKeeps(cfg: Config, w: World, f: string, file: File, grants: map<string, Grant>)
    requires Inv(cfg, w) && f in w.repo.files
    requires file.ownerID == w.repo.files[f].ownerID && file.currentVersionID == w.repo.files[f].currentVersionID
    requires file.purgedAt == w.repo.files[f].purgedAt
    requires (file.deletedAt.Some? <==> file.purgeAfter.Some?) && (file.purgedAt.Some? ==> file.deletedAt.Some?)
    requires GrantsOK(w.repo.files[f := file], grants)
    ensures Inv(cfg, w.(repo := w.repo.(files := w.repo.files[f := file], grants := grants)))
  {
    hide EntriesOK, CleaningOK, Readable, RestoresFaithful, Lineage, Aimed, HistoriesOK, LifecycleOK, GrantsOK;
    RowHistories(w.repo.files, w.repo.versions, w.repo.entries, f, file);
    RowLifecycle(w.repo.files, w.repo.versions, w.repo.entries, w.repo.purges, f, file);
  }

  lemma GrantsWithdrawn(files: Files, grants: map<string, Grant>, f: string, file: File, now: Time)
    requires GrantsOK(files, grants) && f in files && file.ownerID == files[f].ownerID
    ensures GrantsOK(files[f := file], RevokeAll(grants, f, now))
  {
    var grants' := RevokeAll(grants, f, now);
    assert forall id :: id in grants' <==> id in grants;
    forall id | id in grants
      ensures grants'[id].fileID == grants[id].fileID && grants'[id].recipientID == grants[id].recipientID
      ensures grants'[id].revokedAt == None ==> grants[id].revokedAt == None && grants[id].fileID != f
    {}
  }

  lemma TrashKeeps(cfg: Config, w: World, owner: string, f: string, now: Time, purgeAfter: Time)
    requires Inv(cfg, w)
    ensures Inv(cfg, w.(repo := MoveToTrash(w.repo, owner, f, now, purgeAfter)))
  {
    hide EntriesOK, CleaningOK, Readable, RestoresFaithful, Lineage, Aimed, HistoriesOK, LifecycleOK, GrantsOK,
         RevokeAll;
    var r := w.repo;
    if TrashGuard(r, owner, f, now).Success? && r.files[f].deletedAt == None {
      var file := r.files[f].(deletedAt := Some(now), purgeAfter := Some(purgeAfter), updatedAt := now);
      GrantsWithdrawn(r.files, r.grants, f, file, now);
      RowKeeps(cfg, w, f, file, RevokeAll(r.grants, f, now));
    }
  }

  lemma UntrashKeeps(cfg: Config, w: World, owner: string, f: string, now: Time)
    requires Inv(cfg, w)
    ensures Inv(cfg, w.(repo := RestoreFromTrash(w.repo, owner, f, now)))
  {
    hide EntriesOK, CleaningOK, Readable, RestoresFaithful, Lineage, Aimed, HistoriesOK, LifecycleOK, GrantsOK;
    var r := w.repo;
    if InTrash(r, owner, f) {
      var file := r.files[f].(deletedAt := None, purgeAfter := None, updatedAt := now);
      GrantsIgnoreRow(r.files, r.grants, f, file);
      RowKeeps(cfg, w, f, file, r.grants);
    }
  }

  lemma RetainKeeps(cfg: Config, w: World, f: string, until: Option<Time>)
    requires Inv(cfg, w)
    ensures Inv(cfg, w.(repo := SetRetention(w.repo, f, until)))
  {
    hide EntriesOK, CleaningOK, Readable, RestoresFaithful, Lineage, Aimed, HistoriesOK, GrantsOK, HasOperation;
    if RetentionAccepted(w.repo, f, until) {
      var file := w.repo.files[f].(retentionUntil := until);
      GrantsIgnoreRow(w.repo.files, w.repo.grants, f, file);
      RowKeeps(cfg, w, f, file, w.repo.grants);
    }
  }

  lemma HoldKeeps(cfg: Config, w: World, f: string, enabled: bool, reason: string)
    requires Inv(cfg, w)
    ensures Inv(cfg, w.(repo := SetLegalHold(w.repo, f, enabled, reason)))
  {
    hide EntriesOK, CleaningOK, Readable, RestoresFaithful, Lineage, Aimed, HistoriesOK, GrantsOK, HasOperation;
    if f in w.repo.files && w.repo.files[f].purgedAt == None {
      var file := w.repo.files[f].(legalHold := enabled, holdReason := if enabled then reason else "");
      GrantsIgnoreRow(w.repo.files, w.repo.grants, f, file);
      RowKeeps(cfg, w, f, file, w.repo.grants);
    }
  }

  // --- Purge -----------------------------------------------------------------

  /** No operation is in the history of two files. */
  lemma OperationHome(files: Files, versions: Histories, entries: Entries, f: string, g: string, u: OperationID)
    requires HistoriesOK(files, versions, entries) && f in versions && g in versions
    requires HasOperation(versions[f], u) && HasOperation(versions[g], u)
    ensures f == g
  {
    if u.Restore? {
      RestoreHome(files, versions, entries, u, f);
      RestoreHome(files, versions, entries, u, g);
    } else {
      UploadIsInitial(f, files[f], versions[f], entries, u);
      UploadIsInitial(g, files[g], versions[g], entries, u);
    }
  }

  lemma UploadIsInitial(f: string, file: File, vs: seq<Version>, entries: Entries, u: OperationID)
    requires History(f, file, vs, entries) && HasOperation(vs, u) && u.Upload?
    ensures Initial(vs) == u
  {
    var i :| 0 <= i < |vs| && vs[i].operationID == u;
    hide HasVersion;
  }

  /** What a purge erases is exactly the keys of the file's own versions. */
  lemma ErasedIsOwn(flight: Flight, r: Repo, f: string, u: OperationID)
    requires EntriesOK(flight, r.entries) && HistoriesOK(r.files, r.versions, r.entries) && f in r.files
    ensures u in Erased(r, f) <==> u in r.entries && Live(r.entries[u]) && HasOperation(r.versions[f], u)
  {
    assert History(f, r.files[f], r.versions[f], r.entries);
    hide HistoriesOK, EntriesOK;
    if u in r.entries {
      VersionIsOperation(flight, f, r.files[f], r.versions[f], r.entries, u);
    }
    hide History, HasVersion, HasOperation;
  }

  lemma VersionIsOperation(flight: Flight, f: string, file: File, vs: seq<Version>, entries: Entries, u: OperationID)
    requires EntriesOK(flight, entries) && History(f, file, vs, entries) && u in entries
    ensures HasVersion(vs, entries[u].versionID) <==> HasOperation(vs, u)
  {
    if HasVersion(vs, entries[u].versionID) {
      var i :| 0 <= i < |vs| && vs[i].versionID == entries[u].versionID;
      assert vs[i].operationID == u;
    }
    if HasOperation(vs, u) {
      var i :| 0 <= i < |vs| && vs[i].operationID == u;
      assert vs[i].versionID == entries[u].versionID;
    }
  }

  /** The entries after some keys are gone. */
  ghost predicate Fewer(entries: Entries, entries': Entries) {
    && entries'.Keys == entries.Keys
    && (forall u :: u in entries ==>
          && entries'[u].versionID == entries[u].versionID && entries'[u].blobObject == entries[u].blobObject
          && entries'[u].uploadID == entries[u].uploadID && entries'[u].ownerID == entries[u].ownerID
          && (Live(entries'[u]) ==> entries'[u] == entries[u]))
  }

  lemma FewerEntries(cleaning: set<string>, content: Content, flight: Flight, entries: Entries, entries': Entries,
                     versions: Histories)
    requires EntriesOK(flight, entries) && CleaningOK(cleaning, entries)
    requires RestoresFaithful(content, flight, entries) && Aimed(flight, entries, versions)
    requires Fewer(entries, entries')
    ensures EntriesOK(flight, entries') && CleaningOK(cleaning, entries')
    ensures RestoresFaithful(content, flight, entries') && Aimed(flight, entries', versions)
  {
    StillCommitted(entries, entries');
    hide Committed, Live, Blob, SameBytes, AimsAt;
  }

  lemma FewerReadable(cfg: Config, ring: Keyring, blobs: Blobs, content: Content, flight: Flight, entries: Entries,
                      entries': Entries)
    requires Fewer(entries, entries') && Readable(cfg, ring, blobs, content, flight, entries)
    ensures Readable(cfg, ring, blobs, content, flight, entries')
  {
    hide Sound, Unwraps;
  }

  lemma FewerHistory(f: string, file: File, vs: seq<Version>, entries: Entries, entries': Entries)
    requires History(f, file, vs, entries) && Fewer(entries, entries')
    ensures History(f, file, vs, entries')
  {
    hide HasVersion;
  }

  lemma FewerHistories(files: Files, versions: Histories, entries: Entries, entries': Entries)
    requires HistoriesOK(files, versions, entries) && Fewer(entries, entries')
    ensures HistoriesOK(files, versions, entries')
  {
    hide History, Fewer, Initial;
    forall f | f in files ensures History(f, files[f], versions[f], entries') {
      FewerHistory(f, files[f], versions[f], entries, entries');
    }
  }

  /** After a purge a version's key exists only if it did and its file is another one. */
  lemma PurgedLiveness(r: Repo, entries': Entries, f: string, g: string, i: nat)
    requires HistoriesOK(r.files, r.versions, r.entries) && LifecycleOK(r.files, r.versions, r.entries, r.purges)
    requires f in r.files && g in r.files && i < |r.versions[g]| && entries'.Keys == r.entries.Keys
    requires r.versions[g][i].operationID in r.entries
    requires forall u :: u in entries' ==>
               (Live(entries'[u]) <==> Live(r.entries[u]) && !HasOperation(r.versions[f], u))
    ensures Live(entries'[r.versions[g][i].operationID]) <==> g != f && r.files[g].purgedAt == None
  {
    var u := r.versions[g][i].operationID;
    assert Live(r.entries[u]) <==> r.files[g].purgedAt == None;
    assert HasOperation(r.versions[g], u);
    hide LifecycleOK, HasOperation, Live;
    if HasOperation(r.versions[f], u) { OperationHome(r.files, r.versions, r.entries, f, g, u); }
  }

  lemma PurgedLifecycle(r: Repo, entries': Entries, op: PurgeID, file: File, result: PurgeResult)
    requires HistoriesOK(r.files, r.versions, r.entries) && LifecycleOK(r.files, r.versions, r.entries, r.purges)
    requires op.file in r.files && file.deletedAt.Some? && file.purgeAfter.Some? && file.purgedAt.Some?
    requires result.fileID == op.file && entries'.Keys == r.entries.Keys
    requires forall u :: u in entries' ==>
               (Live(entries'[u]) <==> Live(r.entries[u]) && !HasOperation(r.versions[op.file], u))
    ensures LifecycleOK(r.files[op.file := file], r.versions, entries', r.purges[op := result])
  {
    hide HasOperation, History, Initial;
    var f := op.file;
    forall g, i | g in r.files && g in r.versions && 0 <= i < |r.versions[g]| &&
    r.versions[g][i].operationID in entries'
      ensures Live(entries'[r.versions[g][i].operationID]) <==> r.files[f := file][g].purgedAt == None
    {
      PurgedLiveness(r, entries', f, g, i);
    }
    hide HistoriesOK;
  }

  lemma DestroyedAt(entries: Entries, gone: set<OperationID>, u: OperationID)
    requires u in entries
    ensures Live(Destroy(entries, gone)[u]) <==> Live(entries[u]) && u !in gone
  {}

  lemma DestroyedLiveness(flight: Flight, r: Repo, f: string)
    requires EntriesOK(flight, r.entries) && HistoriesOK(r.files, r.versions, r.entries) && f in r.files
    ensures
      var entries' := Destroy(r.entries, Erased(r, f));
      forall u :: u in entries' ==> (Live(entries'[u]) <==> Live(r.entries[u]) && !HasOperation(r.versions[f], u))
  {
    assert f in r.versions;
    hide EntriesOK, HistoriesOK, HasOperation, Erased, Live, Destroy;
    forall u | u in r.entries
      ensures Live(Destroy(r.entries, Erased(r, f))[u]) <==> Live(r.entries[u]) && !HasOperation(r.versions[f], u)
    {
      ErasedIsOwn(flight, r, f, u);
      DestroyedAt(r.entries, Erased(r, f), u);
    }
  }

  lemma PurgeKeeps(cfg: Config, w: World, op: PurgeID, now: Time)
    requires Inv(cfg, w)
    ensures Inv(cfg, w.(repo := Purge(w.repo, op, now)))
  {
    hide EntriesOK, CleaningOK, Readable, RestoresFaithful, Lineage, Aimed, HistoriesOK, GrantsOK, RevokeAll, Fewer,
         HasOperation, Erased, ErasedObjects;
    var r := w.repo;
    if Purges(r, op, now) {
      var f := op.file;
      var entries' := Destroy(r.entries, Erased(r, f));
      var file := r.files[f].(purgedAt := Some(now), updatedAt := now);
      var result := PurgeResult(f, op, |Erased(r, f)|, now, ErasedObjects(r, f));
      assert file.purgeAfter.Some? && file.deletedAt.Some?;
      hide LifecycleOK, PurgeGuard;
      DestroyedLiveness(w.inFlight, r, f);
      PurgedLifecycle(r, entries', op, file, result);
      DestroyedFewer(r.entries, Erased(r, f));
      FewerEntries(w.cleaning, w.content, w.inFlight, r.entries, entries', r.versions);
      FewerReadable(cfg, w.ring, w.blobs, w.content, w.inFlight, r.entries, entries');
      FewerHistories(r.files, r.versions, r.entries, entries');
      RowHistories(r.files, r.versions, entries', f, file);
      GrantsWithdrawn(r.files, r.grants, f, file, now);
    }
  }

  lemma DestroyedFewer(entries: Entries, gone: set<OperationID>)
    ensures Fewer(entries, Destroy(entries, gone))
  {
    assert Destroy(entries, gone).Keys == entries.Keys;
  }

  // --- Grants ----------------------------------------------------------------

  lemma GrantsKeep(cfg: Config, w: World, grants: map<string, Grant>)
    requires Inv(cfg, w) && GrantsOK(w.repo.files, grants)
    ensures Inv(cfg, w.(repo := w.repo.(grants := grants)))
  {
    hide EntriesOK, CleaningOK, Readable, RestoresFaithful, Lineage, Aimed, HistoriesOK, LifecycleOK, GrantsOK;
  }

  lemma SharedGrants(r: Repo, owner: string, f: string, recipient: string, permission: Permission,
                     expiresAt: Option<Time>, now: Time, slot: string)
    requires GrantsOK(r.files, r.grants) && GrantSlot(r, f, recipient, slot)
    ensures GrantsOK(r.files, CreateGrant(r, owner, f, recipient, permission, expiresAt, now, slot).grants)
  {
    var grants' := CreateGrant(r, owner, f, recipient, permission, expiresAt, now, slot).grants;
    if MayGrant(r, owner, f, recipient) {
      assert grants'[slot].fileID == f && grants'[slot].recipientID == recipient && grants'[slot].revokedAt == None;
      forall a | a in grants' && a != slot && grants'[a].revokedAt == None
        ensures !(grants'[a].fileID == f && grants'[a].recipientID == recipient)
      {
        assert !Unrevoked(r, a, f, recipient) || Unrevoked(r, slot, f, recipient);
      }
    }
  }

  lemma ShareKeeps(cfg: Config, w: World, owner: string, f: string, recipient: string, permission: Permission,
                   expiresAt: Option<Time>, now: Time, slot: string)
    requires Inv(cfg, w) && GrantSlot(w.repo, f, recipient, slot)
    ensures Inv(cfg, w.(repo := CreateGrant(w.repo, owner, f, recipient, permission, expiresAt, now, slot)))
  {
    hide EntriesOK, CleaningOK, Readable, RestoresFaithful, Lineage, Aimed, HistoriesOK, LifecycleOK, GrantsOK,
         GrantSlot;
    SharedGrants(w.repo, owner, f, recipient, permission, expiresAt, now, slot);
    GrantsKeep(cfg, w, CreateGrant(w.repo, owner, f, recipient, permission, expiresAt, now, slot).grants);
  }

  lemma UnshareKeeps(cfg: Config, w: World, owner: string, f: string, id: string, now: Time)
    requires Inv(cfg, w)
    ensures Inv(cfg, w.(repo := RevokeGrant(w.repo, owner, f, id, now)))
  {
    hide EntriesOK, CleaningOK, Readable, RestoresFaithful, Lineage, Aimed, HistoriesOK, LifecycleOK;
    GrantsKeep(cfg, w, RevokeGrant(w.repo, owner, f, id, now).grants);
  }

  // --- Every run -------------------------------------------------------------

  lemma StartProtectKeeps(cfg: Config, w: World, q: Request, source: Bytes, d: Draw)
    requires Inv(cfg, w) && q.uploadID.Upload?
    ensures Inv(cfg, StartProtectStep(cfg, w, q, source, d))
  {
    if StartProtectStep(cfg, w, q, source, d) != w {
      hide Inv, CheckRequest, FreshVersion, Write;
      WriteKeeps(cfg, w, q, source, d);
    }
  }

  lemma AbortProtectKeeps(cfg: Config, w: World, v: string)
    requires Inv(cfg, w)
    ensures Inv(cfg, AbortProtectStep(w, v))
  {
    hide Inv;
    if v in w.inFlight { DiscardKeeps(cfg, w, v); }
  }

  lemma StepKeeps(cfg: Config, w: World, e: Event)
    requires Inv(cfg, w)
    ensures Inv(cfg, Next(cfg, w, e))
  {
    hide Inv, MoveToTrash, RestoreFromTrash, Purge, SetRetention, SetLegalHold, CreateGrant, RevokeGrant,
         StartRestoreStep, CommitProtectStep, CommitDoubtedStep, CleanUpStep, CrashStep, StartProtectStep,
         AbortProtectStep, RegisterStep, CommitRestoredStep, RotateStep, RewrapStep, RemoveObjectStep, GrantSlot;
    match e
    case StartProtect(q, source, d) =>
      if q.uploadID.Upload? { StartProtectKeeps(cfg, w, q, source, d); }
    case StartRestore(o, f, s, k, m, d) => StartRestoreKeeps(cfg, w, o, f, s, k, m, d);
    case CommitProtect(v) => CommitProtectKeeps(cfg, w, v);
    case CommitDoubted(v) => CommitDoubtedKeeps(cfg, w, v);
    case CleanUp(v) => CleanUpKeeps(cfg, w, v);
    case AbortProtect(v) => AbortProtectKeeps(cfg, w, v);
    case Crash => CrashKeeps(cfg, w);
    case Register(o, n, u, f) => RegisterKeeps(cfg, w, o, n, u, f);
    case CommitRestored(o, f, s, k) => CommitRestoredKeeps(cfg, w, o, f, s, k);
    case RotateKEK(v, kek) => RotateKeeps(cfg, w, v, kek);
    case Rewrap(c, n) => RewrapKeeps(cfg, w, c, n);
    case RemoveObject(name) => RemoveObjectKeeps(cfg, w, name);
    case Trash(o, f, now) => TrashKeeps(cfg, w, o, f, now, now + GRACE);
    case Untrash(o, f, now) => UntrashKeeps(cfg, w, o, f, now);
    case PurgeFile(op, now) => PurgeKeeps(cfg, w, op, now);
    case Retain(f, until) => RetainKeeps(cfg, w, f, until);
    case Hold(f, enabled, reason) => HoldKeeps(cfg, w, f, enabled, reason);
    case Share(o, f, rcpt, p, x, now, slot) =>
      if GrantSlot(w.repo, f, rcpt, slot) { ShareKeeps(cfg, w, o, f, rcpt, p, x, now, slot); }
    case Unshare(o, f, id, now) => UnshareKeeps(cfg, w, o, f, id, now);
  }

  lemma {:induction false} RunKeepsFrom(cfg: Config, w: World, events: seq<Event>)
    requires Inv(cfg, w)
    ensures Inv(cfg, Run(cfg, w, events))
  {
    hide Next, Inv;
    if events != [] {
      RunKeepsFrom(cfg, w, events[..|events| - 1]);
      StepKeeps(cfg, Run(cfg, w, events[..|events| - 1]), events[|events| - 1]);
    }
  }

  /** The invariant holds after every run from an empty store, whatever the callers do. */
  lemma RunKeeps(cfg: Config, ring: Keyring, events: seq<Event>)
    requires ValidRing(ring)
    ensures Inv(cfg, Run(cfg, EmptyWorld(ring), events))
  {
    hide Next, Run;
    RunKeepsFrom(cfg, EmptyWorld(ring), events);
  }
}
