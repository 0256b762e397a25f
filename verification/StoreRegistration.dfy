/** Registering one upload twice: what the tables' unique columns make of it, and what the
    in-memory repository, which checks the current version only, does instead. */
module StoreRegistration {
  import opened Wrappers
  import opened Envelope
  import opened StoreModel
  import opened StoreInvariant
  import opened StoreSteps

  /** The answer a registration gets: the recognised file, as long as it can be listed. */
  ghost predicate Accepts(r: Repo, owner: string, m: Metadata) {
    if Recognised(r, owner, m) then exists f :: f in r.files && Recognises(r, f, owner, m) && r.files[f].Active()
    else !Catalogued(r, m)
  }

  /** An upload that some file's history holds is never given a second file. Registering it
      again succeeds exactly while it is that file's current version and the file is active,
      so it fails once a restore has moved the file on. */
  lemma RegisteredOnce(cfg: Config, w: World, owner: string, name: string, u: OperationID, newFile: string, f: string)
    requires Inv(cfg, w) && u.Upload? && u in w.repo.entries && w.repo.entries[u].ownerID == owner
    requires newFile !in w.repo.files && f in w.repo.files && HasOperation(VersionsOf(w.repo, f), u)
    ensures RegisterStep(w, owner, name, u, newFile) == w
    ensures Accepts(w.repo, owner, w.repo.entries[u])
       <==> w.repo.files[f].currentVersionID == w.repo.entries[u].versionID && w.repo.files[f].Active()
  {
    hide Inv, HasOperation, HasVersion, AddFile, Recognises;
    var r := w.repo;
    var m := r.entries[u];
    EntryNamed(cfg, w, u);
    OwnsIt(cfg, w, u, f);
    assert Catalogued(r, m);
    hide Catalogued;
    forall g | g in r.files && Recognises(r, g, owner, m) ensures g == f {
      RecognisedIsHome(cfg, w, owner, u, f, g);
    }
    RecognisesIs(r, f, owner, m);
  }

  /** Any other upload gets a file of its own, active, with one version, and nothing else
      changes. */
  lemma RegisteredNew(w: World, owner: string, name: string, u: OperationID, newFile: string)
    requires u.Upload? && u in w.repo.entries && w.repo.entries[u].ownerID == owner && w.repo.entries[u].uploadID == u
    requires newFile !in w.repo.files
    requires forall f :: f in w.repo.versions ==>
               !HasOperation(w.repo.versions[f], u) && !HasVersion(w.repo.versions[f], w.repo.entries[u].versionID)
    requires forall f :: f in w.repo.files ==> w.repo.files[f].currentVersionID != w.repo.entries[u].versionID
    ensures Accepts(w.repo, owner, w.repo.entries[u])
    ensures
      var m, w' := w.repo.entries[u], RegisterStep(w, owner, name, u, newFile);
      && w' == w.(repo := w'.repo) && w'.repo == w.repo.(files := w'.repo.files, versions := w'.repo.versions)
      && w'.repo.files == w.repo.files[newFile := File(owner, name, m.versionID, m.createdAt, m.createdAt, None, None,
                                                       None, false, "", None)]
      && w'.repo.versions == w.repo.versions[newFile := [Version(m.versionID, None, u, 1, m.plaintextSize, m.mediaType,
                                                                 InitialUpload, true, m.createdAt)]]
  {
    hide HasOperation, HasVersion;
  }

  lemma RecognisesIs(r: Repo, f: string, owner: string, m: Metadata)
    requires f in r.files && r.files[f].ownerID == owner
    ensures Recognises(r, f, owner, m) <==> r.files[f].currentVersionID == m.versionID
  {}

  lemma OwnsIt(cfg: Config, w: World, u: OperationID, f: string)
    requires Inv(cfg, w) && f in w.repo.files && HasOperation(VersionsOf(w.repo, f), u) && u in w.repo.entries
    ensures f in w.repo.versions
    ensures w.repo.files[f].ownerID == w.repo.entries[u].ownerID && VersionsOf(w.repo, f) == w.repo.versions[f]
  {
    hide EntriesOK, CleaningOK, Readable, RestoresFaithful, Lineage, Aimed, LifecycleOK, GrantsOK, HasVersion;
    assert History(f, w.repo.files[f], w.repo.versions[f], w.repo.entries);
  }

  lemma RecognisedIsHome(cfg: Config, w: World, owner: string, u: OperationID, f: string, g: string)
    requires Inv(cfg, w) && u in w.repo.entries && f in w.repo.versions && HasOperation(w.repo.versions[f], u)
    requires g in w.repo.files && Recognises(w.repo, g, owner, w.repo.entries[u])
    ensures g == f
  {
    hide CleaningOK, Readable, RestoresFaithful, Lineage, Aimed, LifecycleOK, GrantsOK, HasVersion;
    var r := w.repo;
    assert History(g, r.files[g], r.versions[g], r.entries);
    assert r.versions[g][0].operationID == u;
    assert HasOperation(r.versions[g], u);
    hide History, EntriesOK, HasOperation;
    OperationHome(r.files, r.versions, r.entries, f, g, u);
  }

  // --- The in-memory form ----------------------------------------------------

  function RegisterInMemory(r: Repo, owner: string, name: string, m: Metadata, newFile: string): Repo {
    if Recognised(r, owner, m) then r else AddFile(r, owner, name, m, newFile)
  }

  /** In memory a second logical file of a catalogued upload is made exactly when a restore
      has moved the first file on to another version. */
  lemma RegisterDuplicatesIff(cfg: Config, w: World, owner: string, name: string, u: OperationID, newFile: string,
                              f: string)
    requires Inv(cfg, w) && u.Upload? && u in w.repo.entries && w.repo.entries[u].ownerID == owner
    requires newFile !in w.repo.files && f in w.repo.files && HasOperation(VersionsOf(w.repo, f), u)
    ensures w.repo.files[f].currentVersionID != w.repo.entries[u].versionID
       <==> newFile in RegisterInMemory(w.repo, owner, name, w.repo.entries[u], newFile).files
    ensures newFile in RegisterInMemory(w.repo, owner, name, w.repo.entries[u], newFile).files ==>
              HasOperation(VersionsOf(RegisterInMemory(w.repo, owner, name, w.repo.entries[u], newFile), newFile), u)
  {
    var r := w.repo;
    var m := r.entries[u];
    EntryNamed(cfg, w, u);
    OwnsIt(cfg, w, u, f);
    hide Inv, HasVersion;
    if Recognised(r, owner, m) {
      var g :| g in r.files && Recognises(r, g, owner, m);
      RecognisedIsHome(cfg, w, owner, u, f, g);
    } else {
      assert !Recognises(r, f, owner, m);
      assert [FirstVersion(m)][0].operationID == u;
    }
  }

  /** A trace that shows it: register, restore, register again. */
  lemma RegisteredTwice(m: Metadata, restored: Metadata)
    requires m.uploadID == Upload("upl_1") && m.versionID == "v1" && m.ownerID == "ann"
    requires restored.uploadID == Restore("ann", "f1", "v1", "retry-key") && restored.versionID == "v2" &&
             restored.ownerID == "ann"
    ensures
      var first := RegisterInMemory(EmptyRepo(), "ann", "report", m, "f1");
      var moved := CommitRestore(first, "ann", "f1", "v1", restored);
      var second := RegisterInMemory(moved, "ann", "report", m, "f2");
      && "f1" in second.files && "f2" in second.files && second.files["f2"].currentVersionID == "v1"
      && HasOperation(second.versions["f1"], m.uploadID) && HasOperation(second.versions["f2"], m.uploadID)
  {
    var first := RegisterInMemory(EmptyRepo(), "ann", "report", m, "f1");
    assert first.versions["f1"] == [FirstVersion(m)] && first.versions["f1"][0].versionID == "v1";
    assert HasVersion(first.versions["f1"], "v1") && !HasOperation(first.versions["f1"], restored.uploadID);
    var moved := CommitRestore(first, "ann", "f1", "v1", restored);
    assert moved.versions["f1"][1].operationID == m.uploadID;
    assert !Recognises(moved, "f1", "ann", m);
    var second := RegisterInMemory(moved, "ann", "report", m, "f2");
    assert second.versions["f2"][0].operationID == m.uploadID;
  }
}
