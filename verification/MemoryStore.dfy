/** The in-memory repository: maps updated in place, each method proved to be the transition
    of the store's state machine that bears its name. */
module MemoryStore {
  import opened Wrappers
  import opened Envelope
  import opened StoreModel
  import opened StoreInvariant
  import opened StoreRewrap
  import opened StoreWorker
  import StoreAccess
  import M = StoreModel

  /** How a requester came to see a file. */
  datatype Access = Owner | Through(permission: Permission)

  datatype Shared = Shared(fileID: string, permission: Permission)

  function ObjectsOf(entries: Entries, gone: set<OperationID>): set<string>
    requires gone <= entries.Keys
  {
    set u | u in gone :: entries[u].blobObject
  }

  lemma ObjectsOfNone(entries: Entries)
    ensures ObjectsOf(entries, {}) == {}
  {}

  lemma ObjectsOfMore(entries: Entries, gone: set<OperationID>, u: OperationID)
    requires gone <= entries.Keys && u in entries
    ensures ObjectsOf(entries, gone + {u}) == ObjectsOf(entries, gone) + {entries[u].blobObject}
  {}

  /** Outside `rest` exactly the doomed keys are gone; inside it nothing has changed. */
  ghost predicate ErasedSoFar(was: Entries, entries: Entries, rest: set<OperationID>, gone: set<OperationID>,
                              doomed: set<OperationID>) {
    && entries.Keys == was.Keys
    && (forall u :: u in rest && u in was ==> entries[u] == was[u])
    && (forall u :: u in was && u !in rest ==>
          && (u in gone <==> u in doomed)
          && entries[u] == if u in doomed then was[u].(wrappedDEK := None) else was[u])
  }

  lemma ErasedNothing(was: Entries, doomed: set<OperationID>)
    ensures ErasedSoFar(was, was, was.Keys, {}, doomed)
  {}

  lemma ErasedUnread(was: Entries, entries: Entries, rest: set<OperationID>, gone: set<OperationID>,
                     doomed: set<OperationID>, u: OperationID)
    requires ErasedSoFar(was, entries, rest, gone, doomed) && u in rest && u in was
    ensures u in entries && entries[u] == was[u]
  {}

  lemma ErasedMore(was: Entries, entries: Entries, rest: set<OperationID>, gone: set<OperationID>,
                   doomed: set<OperationID>, u: OperationID)
    requires ErasedSoFar(was, entries, rest, gone, doomed) && u in rest && u in was && u in doomed
    ensures entries[u] == was[u]
    ensures ErasedSoFar(was, entries[u := was[u].(wrappedDEK := None)], rest - {u}, gone + {u}, doomed)
  {}

  lemma ErasedNoMore(was: Entries, entries: Entries, rest: set<OperationID>, gone: set<OperationID>,
                     doomed: set<OperationID>, u: OperationID)
    requires ErasedSoFar(was, entries, rest, gone, doomed) && u in rest && u in was && u !in doomed && u !in gone
    ensures ErasedSoFar(was, entries, rest - {u}, gone, doomed)
  {}

  lemma ErasedAll(was: Entries, entries: Entries, gone: set<OperationID>, doomed: set<OperationID>)
    requires ErasedSoFar(was, entries, {}, gone, doomed) && gone <= was.Keys && doomed <= was.Keys
    ensures gone == doomed && entries == Destroy(was, doomed)
  {}

  lemma ErasedMembers(r: Repo, f: string)
    ensures Erased(r, f) <= r.entries.Keys
    ensures forall u :: u in r.entries ==>
              (u in Erased(r, f) <==>
               r.entries[u].wrappedDEK.Some? && HasVersion(VersionsOf(r, f), r.entries[u].versionID))
  {}

  lemma ObjectsOfErased(r: Repo, f: string)
    requires Erased(r, f) <= r.entries.Keys
    ensures ErasedObjects(r, f) == ObjectsOf(r.entries, Erased(r, f))
  {}

  /** A listing made from the shared grants, one line each, is what the rule would allow. */
  lemma ListedAgrees(r: Repo, who: string, now: Time, from: seq<string>, listed: seq<Shared>)
    requires GrantsOK(r.files, r.grants) && |from| == |listed|
    requires forall id :: id in StoreAccess.SharedWith(r, who, now) <==> id in from
    requires forall i, j :: 0 <= i < j < |from| ==> from[i] != from[j]
    requires forall i :: 0 <= i < |from| ==>
               from[i] in r.grants && listed[i] == Shared(r.grants[from[i]].fileID, r.grants[from[i]].permission)
    ensures forall f :: (exists i :: 0 <= i < |listed| && listed[i].fileID == f) <==>
              Authorized(r, who, f, Read, now) && r.files[f].ownerID != who
    ensures forall i, j :: 0 <= i < j < |listed| ==> listed[i].fileID != listed[j].fileID
    ensures forall i, id | 0 <= i < |listed| && id in r.grants &&
              Allows(r.grants[id], listed[i].fileID, who, Read, now) ::
              listed[i].permission == r.grants[id].permission
  {
    forall i | 0 <= i < |from| ensures from[i] in StoreAccess.SharedWith(r, who, now) {}
    forall f ensures (exists i :: 0 <= i < |listed| && listed[i].fileID == f) <==>
                       Authorized(r, who, f, Read, now) && r.files[f].ownerID != who
    {
      if Authorized(r, who, f, Read, now) && r.files[f].ownerID != who {
        var id :| id in r.grants && Allows(r.grants[id], f, who, Read, now);
        assert id in StoreAccess.SharedWith(r, who, now);
        var i :| 0 <= i < |from| && from[i] == id;
        assert listed[i].fileID == f;
      }
      if i :| 0 <= i < |listed| && listed[i].fileID == f {
        assert Allows(r.grants[from[i]], f, who, Read, now);
      }
    }
  }

  /** Different rows with deadlines, earliest first. */
  ghost predicate Ordered(files: Files, rows: seq<string>) {
    && (forall i :: 0 <= i < |rows| ==> rows[i] in files && files[rows[i]].purgeAfter.Some?)
    && (forall i, j :: 0 <= i < j < |rows| ==> rows[i] != rows[j] && Earlier(files, rows[i], rows[j]))
  }

  lemma OrderedInsert(files: Files, rows: seq<string>, k: nat, f: string)
    requires Ordered(files, rows) && f in files && files[f].purgeAfter.Some? && f !in rows && k <= |rows|
    requires forall i :: k <= i < |rows| ==> Earlier(files, f, rows[i])
    requires k > 0 ==> Earlier(files, rows[k - 1], f)
    ensures Ordered(files, rows[..k] + [f] + rows[k..])
  {
    var more := rows[..k] + [f] + rows[k..];
    forall i | 0 <= i < |more| ensures more[i] == if i < k then rows[i] else if i == k then f else rows[i - 1] {}
    forall i, j | 0 <= i < j < |more| ensures more[i] != more[j] && Earlier(files, more[i], more[j]) {
      if j == k && i < k - 1 { assert Earlier(files, rows[i], rows[k - 1]); }
    }
  }

  /** One step of the sort: behind everything that is no later. */
  method InsertByDeadline(files: Files, rows: seq<string>, f: string) returns (more: seq<string>)
    requires Ordered(files, rows) && f in files && files[f].purgeAfter.Some? && f !in rows
    ensures Ordered(files, more)
    ensures forall g :: g in more <==> g in rows || g == f
  {
    var k := |rows|;
    while k > 0 && !Earlier(files, rows[k - 1], f)
      invariant 0 <= k <= |rows|
      invariant forall i :: k <= i < |rows| ==> Earlier(files, f, rows[i])
    {
      k := k - 1;
    }
    more := rows[..k] + [f] + rows[k..];
    OrderedInsert(files, rows, k, f);
    hide Ordered, Earlier;
    assert rows == rows[..k] + rows[k..];
  }

  /** Stands for the library sort: the same rows, by deadline; ties in any order. */
  method SortByDeadline(files: Files, rows: seq<string>) returns (sorted: seq<string>)
    requires forall i :: 0 <= i < |rows| ==> rows[i] in files && files[rows[i]].purgeAfter.Some?
    requires forall i, j :: 0 <= i < j < |rows| ==> rows[i] != rows[j]
    ensures forall f :: f in sorted <==> f in rows
    ensures Ordered(files, sorted)
  {
    sorted := [];
    for n := 0 to |rows|
      invariant forall f :: f in sorted <==> f in rows[..n]
      invariant Ordered(files, sorted)
    {
      hide Ordered;
      assert rows[n] !in rows[..n] && rows[..n + 1] == rows[..n] + [rows[n]];
      sorted := InsertByDeadline(files, sorted, rows[n]);
    }
    assert rows[..|rows|] == rows;
  }

  lemma PageOfAll(r: Repo, now: Time, limit: int, all: seq<string>)
    requires forall f :: f in all <==> f in r.files && Due(r.files[f], now)
    requires forall i, j :: 0 <= i < j < |all| ==> all[i] != all[j]
    requires forall i, j :: 0 <= i < j < |all| ==> Earlier(r.files, all[i], all[j])
    ensures IsPage(r, now, limit, if 0 < limit < |all| then all[..limit] else all)
  {
    ElementsSize(all);
    assert Elements(all) == Eligible(r, now);
    hide Due;
  }

  /** Every record of the operation names this source. */
  predicate SourceIs(vs: seq<Version>, u: OperationID, source: string) {
    forall i :: 0 <= i < |vs| && vs[i].operationID == u ==> vs[i].sourceVersionID == Some(source)
  }

  /** The summary of some of the rows. */
  ghost function Counted(files: Files, seen: set<string>, now: Time): Summary {
    var s := SummaryOf(Repo(map[], files, map[], map[], map[]), now);
    Summary(s.active * seen, s.trashed * seen, s.retained * seen, s.held * seen, s.purged * seen, s.eligible * seen)
  }

  ghost function DueAmong(files: Files, seen: set<string>, now: Time): set<string> {
    Eligible(Repo(map[], files, map[], map[], map[]), now) * seen
  }

  lemma CountedNone(files: Files, now: Time)
    ensures Counted(files, {}, now) == Summary({}, {}, {}, {}, {}, {}) && DueAmong(files, {}, now) == {}
  {}

  function With(names: set<string>, f: string, more: bool): set<string> { if more then names + {f} else names }

  lemma OneMore(names: set<string>, f: string, more: bool)
    requires f !in names
    ensures |With(names, f, more)| == |names| + if more then 1 else 0
  {}

  lemma CountedSets(files: Files, seen: set<string>, f: string, now: Time)
    requires f in files && f !in seen
    ensures
      var row, s, s' := files[f], Counted(files, seen, now), Counted(files, seen + {f}, now);
      && f !in s.active && f !in s.trashed && f !in s.retained && f !in s.held && f !in s.purged
      && s'.active == With(s.active, f, row.Active())
      && s'.trashed == With(s.trashed, f, row.purgedAt == None && row.deletedAt.Some?)
      && s'.retained == With(s.retained, f, row.purgedAt == None && After(row.retentionUntil, now))
      && s'.held == With(s.held, f, row.purgedAt == None && row.legalHold)
      && s'.purged == With(s.purged, f, row.purgedAt.Some?)
    ensures f !in DueAmong(files, seen, now)
    ensures DueAmong(files, seen + {f}, now) == With(DueAmong(files, seen, now), f, Due(files[f], now))
  {}

  lemma CountedMore(files: Files, seen: set<string>, f: string, now: Time)
    requires f in files && f !in seen
    ensures
      var row, s, s' := files[f], Counted(files, seen, now), Counted(files, seen + {f}, now);
      && |s'.active| == |s.active| + (if row.Active() then 1 else 0)
      && |s'.trashed| == |s.trashed| + (if row.purgedAt == None && row.deletedAt.Some? then 1 else 0)
      && |s'.retained| == |s.retained| + (if row.purgedAt == None && After(row.retentionUntil, now) then 1 else 0)
      && |s'.held| == |s.held| + (if row.purgedAt == None && row.legalHold then 1 else 0)
      && |s'.purged| == |s.purged| + (if row.purgedAt.Some? then 1 else 0)
    ensures |DueAmong(files, seen + {f}, now)| == |DueAmong(files, seen, now)| + if Due(files[f], now) then 1 else 0
  {
    hide Counted, DueAmong, With, Due, After;
    var row, s := files[f], Counted(files, seen, now);
    CountedSets(files, seen, f, now);
    OneMore(s.active, f, row.Active());
    OneMore(s.trashed, f, row.purgedAt == None && row.deletedAt.Some?);
    OneMore(s.retained, f, row.purgedAt == None && After(row.retentionUntil, now));
    OneMore(s.held, f, row.purgedAt == None && row.legalHold);
    OneMore(s.purged, f, row.purgedAt.Some?);
    OneMore(DueAmong(files, seen, now), f, Due(row, now));
  }

  /** The counts of a summary. */
  datatype Tally = Tally(active: nat, trashed: nat, retained: nat, held: nat, purged: nat, eligible: nat)

  function OneRow(row: File, now: Time): Tally {
    Tally(if row.Active() then 1 else 0,
          if row.purgedAt == None && row.deletedAt.Some? then 1 else 0,
          if row.purgedAt == None && After(row.retentionUntil, now) then 1 else 0,
          if row.purgedAt == None && row.legalHold then 1 else 0,
          if row.purgedAt.Some? then 1 else 0,
          if Due(row, now) then 1 else 0)
  }

  function Plus(a: Tally, b: Tally): Tally {
    Tally(a.active + b.active, a.trashed + b.trashed, a.retained + b.retained, a.held + b.held, a.purged + b.purged,
          a.eligible + b.eligible)
  }

  /** The rows outside `rest` have been counted. */
  ghost predicate Tallied(files: Files, rest: set<string>, now: Time, t: Tally) {
    var seen := files.Keys - rest;
    var s := Counted(files, seen, now);
    && t == Tally(|s.active|, |s.trashed|, |s.retained|, |s.held|, |s.purged|, |DueAmong(files, seen, now)|)
    && t.active + t.trashed + t.purged == |seen|
  }

  lemma TalliedMore(files: Files, rest: set<string>, now: Time, t: Tally, f: string)
    requires Tallied(files, rest, now, t) && f in rest && rest <= files.Keys
    ensures Tallied(files, rest - {f}, now, Plus(t, OneRow(files[f], now)))
  {
    hide Counted, DueAmong, Due, After;
    var seen := files.Keys - rest;
    assert files.Keys - (rest - {f}) == seen + {f} && f !in seen;
    assert |seen + {f}| == |seen| + 1;
    CountedMore(files, seen, f, now);
  }

  lemma TalliedNone(files: Files, now: Time)
    ensures Tallied(files, files.Keys, now, Tally(0, 0, 0, 0, 0, 0))
  {
    CountedNone(files, now);
    assert files.Keys - files.Keys == {};
    hide Counted, DueAmong;
  }

  lemma TalliedAll(r: Repo, now: Time, t: Tally)
    requires Tallied(r.files, {}, now, t)
    ensures
      var s := SummaryOf(r, now);
      t == Tally(|s.active|, |s.trashed|, |s.retained|, |s.held|, |s.purged|, |Eligible(r, now)|)
    ensures t.active + t.trashed + t.purged == |r.files|
  {
    assert r.files.Keys - {} == r.files.Keys;
    CountedAll(r, now);
    hide Counted, DueAmong, SummaryOf, Eligible;
  }

  lemma CountedAll(r: Repo, now: Time)
    ensures Counted(r.files, r.files.Keys, now) == SummaryOf(r, now)
    ensures DueAmong(r.files, r.files.Keys, now) == Eligible(r, now)
  {
    var s := SummaryOf(r, now);
    assert s == SummaryOf(Repo(map[], r.files, map[], map[], map[]), now);
    assert s.active * r.files.Keys == s.active && s.trashed * r.files.Keys == s.trashed;
    assert s.retained * r.files.Keys == s.retained && s.held * r.files.Keys == s.held;
    assert s.purged * r.files.Keys == s.purged && s.eligible * r.files.Keys == s.eligible;
  }

  lemma SummaryCounts(r: Repo, now: Time)
    ensures
      var s := SummaryOf(r, now);
      && s.active == (set f | f in r.files && r.files[f].deletedAt == None && r.files[f].purgedAt == None)
      && s.trashed == (set f | f in r.files && r.files[f].deletedAt.Some? && r.files[f].purgedAt == None)
      && s.purged == (set f | f in r.files && r.files[f].purgedAt.Some?)
      && s.held == (set f | f in r.files && r.files[f].purgedAt == None && r.files[f].legalHold)
      && s.retained == (set f | f in r.files && r.files[f].purgedAt == None && r.files[f].retentionUntil.Some? &&
                                r.files[f].retentionUntil.value > now)
  {}

  class MemoryRepository {
    var entries: map<OperationID, Metadata>
    var files: map<string, File>
    var versions: map<string, seq<Version>>
    var grants: map<string, Grant>
    var purges: map<PurgeID, PurgeResult>

    function State(): Repo
      reads this
    {
      Repo(entries, files, versions, grants, purges)
    }

    /** Envelopes sit under their own operation, and every file has a history. */
    ghost predicate Valid()
      reads this
    {
      && (forall u :: u in entries ==> entries[u].uploadID == u)
      && files.Keys == versions.Keys
      && (forall f :: f in versions ==> versions[f] != [])
    }

    constructor ()
      ensures Valid() && State() == EmptyRepo()
    {
      entries, files, versions, grants, purges := map[], map[], map[], map[], map[];
    }

    /** The first envelope committed for an operation wins. */
    method Create(m: Metadata) returns (stored: Metadata, existing: bool)
      requires Valid()
      modifies this`entries
      ensures Valid() && existing == (m.uploadID in old(entries))
      ensures m.uploadID in entries && stored == entries[m.uploadID]
      ensures entries == if existing then old(entries) else old(entries)[m.uploadID := m]
    {
      if m.uploadID in entries {
        return entries[m.uploadID], true;
      }
      entries := entries[m.uploadID := m];
      return m, false;
    }

    // --- Catalogue -----------------------------------------------------------

    /** Finds the file a retry is recognised by, or adds one. A version or operation that some
        history already holds is refused, as the tables' unique columns refuse it. */
    method RegisterInitial(owner: string, name: string, m: Metadata, newFile: string) returns (r: Outcome<string>)
      requires Valid() && newFile !in files
      modifies this`files, this`versions
      ensures Valid() && State() == M.RegisterInitial(old(State()), owner, name, m, newFile)
      ensures r.Success? ==> r.value in files && Recognises(State(), r.value, owner, m) && files[r.value].Active()
      ensures r.Failure? ==>
                && State() == old(State())
                && (r.error == NotFound ==>
                    exists f :: f in files && Recognises(State(), f, owner, m) && !files[f].Active())
                && (r.error != NotFound ==> !Recognised(State(), owner, m) && Catalogued(State(), m))
      ensures newFile in files <==>
              && (forall f :: f in old(files) ==>
                    old(files)[f].ownerID != owner || old(files)[f].currentVersionID != m.versionID)
              && (forall f, i :: f in old(versions) && 0 <= i < |old(versions)[f]| ==>
                    && old(versions)[f][i].versionID != m.versionID
                    && old(versions)[f][i].operationID != m.uploadID)
      ensures newFile in files ==>
                && r == Success(newFile)
                && files == old(files)[newFile := File(owner, name, m.versionID, m.createdAt, m.createdAt, None, None,
                                                       None, false, "", None)]
                && versions == old(versions)[newFile := [Version(m.versionID, None, m.uploadID, 1, m.plaintextSize,
                                                                 m.mediaType, InitialUpload, true, m.createdAt)]]
      ensures newFile !in files ==> State() == old(State())
    {
      var rest := files.Keys;
      while rest != {}
        invariant rest <= files.Keys
        invariant forall g :: g in files && g !in rest ==> !Recognises(State(), g, owner, m)
        decreases |rest|
      {
        var g :| g in rest;
        if files[g].ownerID == owner && files[g].currentVersionID == m.versionID {
          assert Recognises(State(), g, owner, m);
          return if files[g].Active() then Success(g) else Failure(NotFound);
        }
        rest := rest - {g};
      }
      var known := IsCatalogued(m);
      if known { return Failure(Database); }
      files := files[newFile := NewFile(owner, name, m)];
      versions := versions[newFile := [FirstVersion(m)]];
      return Success(newFile);
    }

    /** The unique columns of the version table. */
    method IsCatalogued(m: Metadata) returns (known: bool)
      ensures known == Catalogued(State(), m)
    {
      var rest := versions.Keys;
      while rest != {}
        invariant rest <= versions.Keys
        invariant forall f :: f in versions && f !in rest ==>
                    !HasVersion(versions[f], m.versionID) && !HasOperation(versions[f], m.uploadID)
        decreases |rest|
      {
        var f :| f in rest;
        for i := 0 to |versions[f]|
          invariant forall k :: 0 <= k < i ==>
                      versions[f][k].versionID != m.versionID && versions[f][k].operationID != m.uploadID
        {
          if versions[f][i].versionID == m.versionID || versions[f][i].operationID == m.uploadID { return true; }
        }
        rest := rest - {f};
      }
      return false;
    }

    /** The first position that satisfies the test, if any. */
    static method Locate(vs: seq<Version>, id: string) returns (found: bool)
      ensures found == HasVersion(vs, id)
    {
      for i := 0 to |vs|
        invariant forall k :: 0 <= k < i ==> vs[k].versionID != id
      {
        if vs[i].versionID == id { return true; }
      }
      return false;
    }

    method FindVersion(owner: string, f: string, versionID: string) returns (r: Outcome<Metadata>)
      requires Valid()
      ensures r.Success? <==> exists m :: Finds(State(), owner, f, versionID, m)
      ensures r.Success? ==> Finds(State(), owner, f, versionID, r.value)
      ensures r.Failure? ==> r.error == NotFound
      ensures r.Success? <==>
              && f in files && files[f].ownerID == owner && files[f].deletedAt == None && files[f].purgedAt == None
              && (exists i :: 0 <= i < |versions[f]| && versions[f][i].versionID == versionID)
              && (exists u :: u in entries && entries[u].versionID == versionID)
      ensures r.Success? ==>
                r.value.uploadID in entries && r.value == entries[r.value.uploadID] && r.value.versionID == versionID
    {
      if f !in files || files[f].ownerID != owner || !files[f].Active() {
        return Failure(NotFound);
      }
      var found := Locate(versions[f], versionID);
      if !found { return Failure(NotFound); }
      var rest := entries.Keys;
      while rest != {}
        invariant rest <= entries.Keys
        invariant forall u :: u in entries && u !in rest ==> entries[u].versionID != versionID
        decreases |rest|
      {
        var u :| u in rest;
        if entries[u].versionID == versionID {
          assert Finds(State(), owner, f, versionID, entries[u]);
          return Success(entries[u]);
        }
        rest := rest - {u};
      }
      return Failure(NotFound);
    }

    /** Makes a restored version the current one, once per operation. */
    method CommitRestore(owner: string, f: string, source: string, m: Metadata) returns (r: Outcome<Version>)
      requires Valid()
      modifies this`files, this`versions
      ensures Valid() && State() == M.CommitRestore(old(State()), owner, f, source, m)
      ensures r.Success? ==>
              f in versions && r.value in versions[f] && r.value.operationID == m.uploadID &&
              r.value.sourceVersionID == Some(source)
      ensures r.Failure? ==> State() == old(State())
      ensures f in old(files) && old(files[f]).ownerID == owner && !HasOperation(old(versions[f]), m.uploadID) ==>
                (r.Success? <==> RestoreGuard(old(State()), owner, f, source).Success?)
      ensures f in old(files) && old(files[f]).ownerID == owner && HasOperation(old(versions[f]), m.uploadID) ==>
                (SourceIs(old(versions[f]), m.uploadID, source) ==> r.Success?)
      ensures State() != old(State()) ==>
                && f in old(files) && old(files)[f].ownerID == owner
                && old(files)[f].deletedAt == None && old(files)[f].purgedAt == None
                && (exists i :: 0 <= i < |old(versions)[f]| && old(versions)[f][i].versionID == source)
                && (forall i :: 0 <= i < |old(versions)[f]| ==> old(versions)[f][i].operationID != m.uploadID)
                && r == Success(Version(m.versionID, Some(source), m.uploadID, |old(versions)[f]| + 1, m.plaintextSize,
                                        m.mediaType, VerifiedRestore, true, m.createdAt))
                && files == old(files)[f := old(files)[f].(currentVersionID := m.versionID, updatedAt := m.createdAt)]
                && |versions[f]| == |old(versions)[f]| + 1 && versions[f][0] == r.value
                && (forall i :: 0 <= i < |old(versions)[f]| ==>
                      versions[f][i + 1] == old(versions)[f][i].(current := false))
                && versions == old(versions)[f := versions[f]]
      ensures r == Failure(IdempotencyConflict) ==>
                f in old(versions) && exists i ::
                  && 0 <= i < |old(versions)[f]| && old(versions)[f][i].operationID == m.uploadID
                  && old(versions)[f][i].sourceVersionID != Some(source)
      ensures r.Failure? ==> r.error == IdempotencyConflict || r.error == NotFound
    {
      if f !in files || files[f].ownerID != owner { return Failure(NotFound); }
      var vs := versions[f];
      for i := 0 to |vs|
        invariant forall k :: 0 <= k < i ==> vs[k].operationID != m.uploadID
      {
        if vs[i].operationID == m.uploadID {
          assert HasOperation(vs, m.uploadID);
          return if vs[i].sourceVersionID != Some(source) then Failure(IdempotencyConflict) else Success(vs[i]);
        }
      }
      assert !HasOperation(vs, m.uploadID);
      if !files[f].Active() { return Failure(NotFound); }
      var found := Locate(vs, source);
      if !found { return Failure(NotFound); }
      var older := vs;
      for i := 0 to |older|
        invariant |older| == |vs| && older[i..] == vs[i..]
        invariant forall k :: 0 <= k < i ==> older[k] == vs[k].(current := false)
      {
        older := older[i := older[i].(current := false)];
      }
      assert older == Superseded(vs);
      var v := RestoredVersion(vs, source, m);
      versions := versions[f := [v] + older];
      files := files[f := files[f].(currentVersionID := m.versionID, updatedAt := m.createdAt)];
      assert versions[f][0] == v;
      return Success(v);
    }

    // --- Grants --------------------------------------------------------------

    method CreateGrant(owner: string, f: string, recipient: string, permission: Permission,
                       expiresAt: Option<Time>, now: Time, newID: string) returns (r: Outcome<string>)
      requires newID !in grants
      modifies this`grants
      ensures r.Success? <==> MayGrant(old(State()), owner, f, recipient)
      ensures r.Success? ==> GrantSlot(old(State()), f, recipient, r.value)
      ensures r.Success? ==>
              State() == M.CreateGrant(old(State()), owner, f, recipient, permission, expiresAt, now, r.value)
      ensures r.Failure? ==> State() == old(State()) && r.error == NotFound
      ensures r.Success? <==>
              && f in files && files[f].ownerID == owner && recipient != owner
              && files[f].deletedAt == None && files[f].purgedAt == None
      ensures r.Success? ==>
                && (r.value in old(grants) ==>
                      && old(grants)[r.value].fileID == f && old(grants)[r.value].recipientID == recipient
                      && old(grants)[r.value].revokedAt == None
                      && grants == old(grants)[r.value := old(grants)[r.value].(
                                      permission := permission, expiresAt := expiresAt, createdAt := now)])
                && (r.value !in old(grants) ==>
                      && (forall id :: id in old(grants) ==>
                            || old(grants)[id].fileID != f || old(grants)[id].recipientID != recipient
                            || old(grants)[id].revokedAt.Some?)
                      && grants == old(grants)[r.value := Grant(f, owner, recipient, permission, expiresAt, now, None)])
    {
      if f !in files || files[f].ownerID != owner || !files[f].Active() || recipient == owner {
        return Failure(NotFound);
      }
      var rest := grants.Keys;
      while rest != {}
        invariant rest <= grants.Keys && grants == old(grants)
        invariant forall id :: id in grants && id !in rest ==> !Unrevoked(State(), id, f, recipient)
        decreases |rest|
      {
        var id :| id in rest;
        if grants[id].fileID == f && grants[id].recipientID == recipient && grants[id].revokedAt == None {
          assert Unrevoked(old(State()), id, f, recipient);
          grants := grants[id := grants[id].(permission := permission, expiresAt := expiresAt, createdAt := now)];
          return Success(id);
        }
        rest := rest - {id};
      }
      grants := grants[newID := Grant(f, owner, recipient, permission, expiresAt, now, None)];
      return Success(newID);
    }

    method RevokeGrant(owner: string, f: string, id: string, now: Time) returns (r: Outcome<()>)
      modifies this`grants
      ensures State() == M.RevokeGrant(old(State()), owner, f, id, now)
      ensures r.Success? <==>
              id in old(grants) && old(grants[id]).ownerID == owner && old(grants[id]).fileID == f &&
              old(grants[id]).revokedAt == None
      ensures grants == if r.Success? then old(grants)[id := old(grants)[id].(revokedAt := Some(now))] else old(grants)
      ensures r.Failure? ==> r.error == NotFound
    {
      if id !in grants || grants[id].ownerID != owner || grants[id].fileID != f || grants[id].revokedAt.Some? {
        return Failure(NotFound);
      }
      grants := grants[id := grants[id].(revokedAt := Some(now))];
      return Success(());
    }

    /** The search behind every shared read. */
    method Authorize(requester: string, f: string, capability: Permission, now: Time) returns (r: Option<Access>)
      ensures r.Some? <==> Authorized(State(), requester, f, capability, now)
      ensures r.Some? <==>
              && f in files && files[f].deletedAt == None && files[f].purgedAt == None
              && (files[f].ownerID == requester ||
                  exists id ::
                    && id in grants && grants[id].fileID == f && grants[id].recipientID == requester
                    && grants[id].revokedAt == None
                    && (grants[id].expiresAt.Some? ==> now < grants[id].expiresAt.value)
                    && (capability == Download ==> grants[id].permission == Download))
      ensures r == Some(Owner) <==> f in files && files[f].Active() && files[f].ownerID == requester
      ensures r.Some? && r.value.Through? ==>
                exists id ::
                  id in grants && Allows(grants[id], f, requester, capability, now) &&
                  grants[id].permission == r.value.permission
    {
      if f !in files || !files[f].Active() { return None; }
      if files[f].ownerID == requester { return Some(Owner); }
      var rest := grants.Keys;
      while rest != {}
        invariant rest <= grants.Keys
        invariant forall id :: id in grants && id !in rest ==> !Allows(grants[id], f, requester, capability, now)
        decreases |rest|
      {
        var id :| id in rest;
        if Allows(grants[id], f, requester, capability, now) { return Some(Through(grants[id].permission)); }
        rest := rest - {id};
      }
      return None;
    }

    /** What is listed, against the authorization rule: the same files, once each, with the
        permission that rule would find. */
    method ListSharedFiles(who: string, now: Time) returns (listed: seq<Shared>)
      requires GrantsOK(files, grants)
      ensures forall f :: (exists i :: 0 <= i < |listed| && listed[i].fileID == f) <==>
                Authorized(State(), who, f, Read, now) && files[f].ownerID != who
      ensures forall i, j :: 0 <= i < j < |listed| ==> listed[i].fileID != listed[j].fileID
      ensures forall i, id | 0 <= i < |listed| && id in grants &&
                Allows(grants[id], listed[i].fileID, who, Read, now) ::
                listed[i].permission == grants[id].permission
    {
      listed := [];
      ghost var from: seq<string> := [];
      var rest := grants.Keys;
      while rest != {}
        invariant rest <= grants.Keys && |from| == |listed|
        invariant forall i :: 0 <= i < |from| ==>
                    from[i] in StoreAccess.SharedWith(State(), who, now) && from[i] !in rest &&
                    listed[i] == Shared(grants[from[i]].fileID, grants[from[i]].permission)
        invariant forall i, j :: 0 <= i < j < |from| ==> from[i] != from[j]
        invariant forall id :: id in StoreAccess.SharedWith(State(), who, now) && id !in rest ==> id in from
        decreases |rest|
      {
        var id :| id in rest;
        var g := grants[id];
        if g.fileID in files && files[g.fileID].Active() && g.recipientID == who && g.revokedAt == None &&
            (g.expiresAt == None || After(g.expiresAt, now)) {
          listed, from := listed + [Shared(g.fileID, g.permission)], from + [id];
        }
        rest := rest - {id};
      }
      assert forall id :: id in StoreAccess.SharedWith(State(), who, now) <==> id in from;
      ListedAgrees(State(), who, now, from, listed);
    }

    // --- Lifecycle -----------------------------------------------------------

    /** Withdraws every grant on the file. */
    method Withdraw(f: string, now: Time)
      modifies this`grants
      ensures grants == RevokeAll(old(grants), f, now)
      ensures grants.Keys == old(grants).Keys
      ensures forall id :: id in grants ==>
                grants[id] == if old(grants)[id].fileID == f && old(grants)[id].revokedAt == None
                              then old(grants)[id].(revokedAt := Some(now)) else old(grants)[id]
    {
      var rest := grants.Keys;
      while rest != {}
        invariant rest <= grants.Keys == old(grants).Keys
        invariant forall id :: id in rest ==> grants[id] == old(grants)[id]
        invariant forall id :: id in grants && id !in rest ==> grants[id] == RevokeAll(old(grants), f, now)[id]
        decreases |rest|
      {
        var id :| id in rest;
        if grants[id].fileID == f && grants[id].revokedAt == None {
          grants := grants[id := grants[id].(revokedAt := Some(now))];
        }
        rest := rest - {id};
      }
    }

    method MoveToTrash(owner: string, f: string, now: Time, purgeAfter: Time) returns (r: Outcome<()>)
      modifies this`files, this`grants
      ensures State() == M.MoveToTrash(old(State()), owner, f, now, purgeAfter)
      ensures r == TrashGuard(old(State()), owner, f, now)
      ensures
        var own := f in old(files) && old(files)[f].ownerID == owner && old(files)[f].purgedAt == None;
        var kept := own && old(files)[f].retentionUntil.Some? && old(files)[f].retentionUntil.value > now;
        r == if !own then Failure(NotFound)
             else if old(files)[f].legalHold then Failure(LegalHold)
             else if kept then Failure(RetentionActive)
             else Success(())
      ensures r.Failure? || old(files)[f].deletedAt.Some? ==> State() == old(State())
      ensures r.Success? && old(files)[f].deletedAt == None ==>
                && files == old(files)[f := old(files)[f].(deletedAt := Some(now), purgeAfter := Some(purgeAfter),
                                                           updatedAt := now)]
                && grants.Keys == old(grants).Keys
                && forall id :: id in grants ==>
                     grants[id] == if old(grants)[id].fileID == f && old(grants)[id].revokedAt == None
                                   then old(grants)[id].(revokedAt := Some(now)) else old(grants)[id]
    {
      if f !in files || files[f].ownerID != owner || files[f].purgedAt.Some? { return Failure(NotFound); }
      if files[f].legalHold { return Failure(LegalHold); }
      if After(files[f].retentionUntil, now) { return Failure(RetentionActive); }
      if files[f].deletedAt.Some? { return Success(()); }
      files := files[f := files[f].(deletedAt := Some(now), purgeAfter := Some(purgeAfter), updatedAt := now)];
      Withdraw(f, now);
      return Success(());
    }

    method RestoreFromTrash(owner: string, f: string, now: Time) returns (r: Outcome<()>)
      modifies this`files
      ensures State() == M.RestoreFromTrash(old(State()), owner, f, now)
      ensures r == if InTrash(old(State()), owner, f) then Success(()) else Failure(NotInTrash)
      ensures r.Success? <==>
              && f in old(files) && old(files)[f].ownerID == owner
              && old(files)[f].deletedAt.Some? && old(files)[f].purgedAt == None
      ensures files == if r.Success?
                       then old(files)[f := old(files)[f].(deletedAt := None, purgeAfter := None, updatedAt := now)]
                       else old(files)
    {
      if f !in files || files[f].ownerID != owner || files[f].deletedAt == None || files[f].purgedAt.Some? {
        return Failure(NotInTrash);
      }
      files := files[f := files[f].(deletedAt := None, purgeAfter := None, updatedAt := now)];
      return Success(());
    }

    method SetRetention(f: string, until: Option<Time>) returns (r: Outcome<()>)
      modifies this`files
      ensures State() == M.SetRetention(old(State()), f, until)
      ensures r.Success? <==> RetentionAccepted(old(State()), f, until)
      ensures r.Failure? ==> r.error == if f in old(files) && old(files[f]).purgedAt == None then RetentionActive
              else NotFound
      ensures r.Success? <==>
              && f in old(files) && old(files)[f].purgedAt == None
              && (old(files)[f].retentionUntil.Some? ==>
                    until.Some? && old(files)[f].retentionUntil.value <= until.value)
      ensures files == if r.Success? then old(files)[f := old(files)[f].(retentionUntil := until)] else old(files)
    {
      if f !in files || files[f].purgedAt.Some? { return Failure(NotFound); }
      if files[f].retentionUntil.Some? && (until == None || until.value < files[f].retentionUntil.value) {
        return Failure(RetentionActive);
      }
      files := files[f := files[f].(retentionUntil := until)];
      return Success(());
    }

    method SetLegalHold(f: string, enabled: bool, reason: string) returns (r: Outcome<()>)
      modifies this`files
      ensures State() == M.SetLegalHold(old(State()), f, enabled, reason)
      ensures r.Success? <==> f in old(files) && old(files[f]).purgedAt == None
      ensures files == if r.Success?
                       then old(files)[f := old(files)[f].(legalHold := enabled,
                                                           holdReason := if enabled then reason else "")]
                       else old(files)
      ensures r.Failure? ==> r.error == NotFound
    {
      if f !in files || files[f].purgedAt.Some? { return Failure(NotFound); }
      files := files[f := files[f].(legalHold := enabled, holdReason := if enabled then reason else "")];
      return Success(());
    }

    /** Destroys the keys of the file's versions, one envelope after another. */
    method Erase(f: string) returns (destroyed: nat, objects: set<string>)
      requires f in versions
      modifies this`entries
      ensures entries == Destroy(old(entries), Erased(old(State()), f))
      ensures destroyed == |Erased(old(State()), f)| && objects == ErasedObjects(old(State()), f)
    {
      ghost var r := State();
      ErasedMembers(r, f);
      hide Erased, HasVersion, ErasedObjects, ObjectsOf, ErasedSoFar, Destroy;
      destroyed, objects := 0, {};
      ghost var gone: set<OperationID> := {};
      ObjectsOfNone(r.entries);
      ErasedNothing(r.entries, Erased(r, f));
      var rest := entries.Keys;
      while rest != {}
        invariant rest <= r.entries.Keys && gone <= r.entries.Keys && gone !! rest
        invariant ErasedSoFar(r.entries, entries, rest, gone, Erased(r, f))
        invariant destroyed == |gone| && objects == ObjectsOf(r.entries, gone)
        decreases |rest|
      {
        var u :| u in rest;
        ErasedUnread(r.entries, entries, rest, gone, Erased(r, f), u);
        var m := entries[u];
        var own := Locate(versions[f], m.versionID);
        if own && m.wrappedDEK.Some? {
          ErasedMore(r.entries, entries, rest, gone, Erased(r, f), u);
          ObjectsOfMore(r.entries, gone, u);
          objects := objects + {m.blobObject};
          entries := entries[u := m.(wrappedDEK := None)];
          destroyed := destroyed + 1;
          gone := gone + {u};
        } else {
          ErasedNoMore(r.entries, entries, rest, gone, Erased(r, f), u);
        }
        rest := rest - {u};
      }
      ErasedAll(r.entries, entries, gone, Erased(r, f));
      ObjectsOfErased(r, f);
    }

    method Purge(op: PurgeID, now: Time) returns (r: Outcome<PurgeResult>)
      requires Valid()
      modifies this
      ensures Valid() && State() == M.Purge(old(State()), op, now)
      ensures r == PurgeOutcome(old(State()), op, now)
      ensures op in old(purges) ==>
                && State() == old(State())
                && r == if old(purges)[op].fileID == op.file then Success(old(purges)[op])
                        else Failure(IdempotencyConflict)
      ensures op !in old(purges) ==>
                var f := op.file;
                var inTrash := f in old(files) && old(files)[f].ownerID == op.owner &&
                               old(files)[f].deletedAt.Some? && old(files)[f].purgedAt == None;
                && (r == Failure(NotInTrash) <==> !inTrash)
                && (r == Failure(LegalHold) <==> inTrash && old(files)[f].legalHold)
                && (r == Failure(RetentionActive) <==>
                    && inTrash && !old(files)[f].legalHold
                    && old(files)[f].retentionUntil.Some? && old(files)[f].retentionUntil.value > now)
                && (r.Success? <==>
                    && inTrash && !old(files)[f].legalHold
                    && (old(files)[f].retentionUntil.Some? ==> old(files)[f].retentionUntil.value <= now)
                    && old(files)[f].purgeAfter.Some? && old(files)[f].purgeAfter.value <= now)
                && (r.Failure? ==> State() == old(State()) && r.error in {NotInTrash, LegalHold, RetentionActive,
                                                                          PurgeTooEarly})
      ensures r.Success? && op !in old(purges) ==>
                var f := op.file;
                && f in old(files) && f in old(versions)
                && files == old(files)[f := old(files)[f].(purgedAt := Some(now), updatedAt := now)]
                && purges == old(purges)[op := r.value] && r.value.fileID == f && r.value.operationID == op
                && r.value.completedAt == now
                && entries.Keys == old(entries).Keys
                && (forall u :: u in entries ==>
                      entries[u] == if old(entries)[u].wrappedDEK.Some? && exists i ::
                                         && 0 <= i < |old(versions)[f]|
                                         && old(versions)[f][i].versionID == old(entries)[u].versionID
                                    then old(entries)[u].(wrappedDEK := None) else old(entries)[u])
                && grants.Keys == old(grants).Keys
                && (forall id :: id in grants ==>
                      grants[id] == if old(grants)[id].fileID == f && old(grants)[id].revokedAt == None
                                    then old(grants)[id].(revokedAt := Some(now)) else old(grants)[id])
    {
      if op in purges {
        return if purges[op].fileID != op.file then Failure(IdempotencyConflict) else Success(purges[op]);
      }
      var f := op.file;
      if f !in files || files[f].ownerID != op.owner || files[f].deletedAt == None || files[f].purgedAt.Some? {
        return Failure(NotInTrash);
      }
      if files[f].legalHold { return Failure(LegalHold); }
      if After(files[f].retentionUntil, now) { return Failure(RetentionActive); }
      if files[f].purgeAfter == None || After(files[f].purgeAfter, now) { return Failure(PurgeTooEarly); }
      ErasedMembers(State(), f);
      var destroyed, objects := Erase(f);
      files := files[f := files[f].(purgedAt := Some(now), updatedAt := now)];
      Withdraw(f, now);
      var result := PurgeResult(f, op, destroyed, now, objects);
      purges := purges[op := result];
      return Success(result);
    }

    /** One pass over the rows; each is active, in the trash or purged. */
    method LifecycleSummary(now: Time) returns (t: Tally)
      ensures
        var s := SummaryOf(State(), now);
        t == Tally(|s.active|, |s.trashed|, |s.retained|, |s.held|, |s.purged|, |Eligible(State(), now)|)
      ensures t.active + t.trashed + t.purged == |files|
      ensures t.active == |set f | f in files && files[f].deletedAt == None && files[f].purgedAt == None|
      ensures t.trashed == |set f | f in files && files[f].deletedAt.Some? && files[f].purgedAt == None|
      ensures t.purged == |set f | f in files && files[f].purgedAt.Some?|
      ensures t.held == |set f | f in files && files[f].purgedAt == None && files[f].legalHold|
      ensures t.retained == |set f | f in files && files[f].purgedAt == None && files[f].retentionUntil.Some? &&
                                     files[f].retentionUntil.value > now|
    {
      SummaryCounts(State(), now);
      hide Tallied, SummaryOf, Eligible, Due, After;
      t := Tally(0, 0, 0, 0, 0, 0);
      TalliedNone(files, now);
      var rest := files.Keys;
      while rest != {}
        invariant rest <= files.Keys && Tallied(files, rest, now, t)
        decreases |rest|
      {
        var f :| f in rest;
        TalliedMore(files, rest, now, t, f);
        var row := files[f];
        if row.purgedAt.Some? {
          t := t.(purged := t.purged + 1);
        } else if row.deletedAt.Some? {
          t := t.(trashed := t.trashed + 1);
        } else {
          t := t.(active := t.active + 1);
        }
        if row.purgedAt == None && After(row.retentionUntil, now) { t := t.(retained := t.retained + 1); }
        if row.purgedAt == None && row.legalHold { t := t.(held := t.held + 1); }
        if Due(row, now) { t := t.(eligible := t.eligible + 1); }
        rest := rest - {f};
      }
      TalliedAll(State(), now, t);
    }

    /** The due files, earliest deadline first, at most `limit` of them when it is positive. */
    method EligibleForPurge(now: Time, limit: int) returns (page: seq<string>)
      ensures IsPage(State(), now, limit, page)
      ensures |page| == if 0 < limit < |Eligible(State(), now)| then limit else |Eligible(State(), now)|
      ensures forall i :: 0 <= i < |page| ==>
                && page[i] in files && files[page[i]].deletedAt.Some? && files[page[i]].purgedAt == None
                && files[page[i]].purgeAfter.Some? && files[page[i]].purgeAfter.value <= now
                && !files[page[i]].legalHold
                && (files[page[i]].retentionUntil.Some? ==> files[page[i]].retentionUntil.value <= now)
      ensures forall i, j :: 0 <= i < j < |page| ==>
                page[i] != page[j] && files[page[i]].purgeAfter.value <= files[page[j]].purgeAfter.value
      ensures forall i, f :: 0 <= i < |page| && f in Eligible(State(), now) && f !in page ==>
                files[page[i]].purgeAfter.value <= files[f].purgeAfter.value
    {
      page := [];
      var rest := files.Keys;
      while rest != {}
        invariant rest <= files.Keys
        invariant forall i :: 0 <= i < |page| ==> page[i] in files && page[i] !in rest && Due(files[page[i]], now)
        invariant forall i, j :: 0 <= i < j < |page| ==> page[i] != page[j]
        invariant forall f :: f in files && Due(files[f], now) && f !in rest ==> f in page
        decreases |rest|
      {
        var f :| f in rest;
        if Due(files[f], now) { page := page + [f]; }
        rest := rest - {f};
      }
      page := SortByDeadline(files, page);
      PageOfAll(State(), now, limit, page);
      if 0 < limit < |page| { page := page[..limit]; }
    }

    method ListDEKRewrapCandidates(ring: Keyring, limit: nat) returns (batch: seq<Metadata>)
      requires Valid() && limit > 0
      ensures IsBatch(ring, entries, limit, batch)
      ensures forall i :: 0 <= i < |batch| ==>
                && batch[i].uploadID in entries && batch[i] == entries[batch[i].uploadID]
                && batch[i].wrappedDEK.Some? && Stale(ring, batch[i])
      ensures |batch| < limit ==> forall u :: u in entries && entries[u].wrappedDEK.Some? && Stale(ring, entries[u]) ==>
                exists i :: 0 <= i < |batch| && batch[i].uploadID == u
    {
      hide Collected, IsBatch, Stale;
      batch := [];
      CollectedNone(ring, entries);
      var rest := entries.Keys;
      while rest != {}
        invariant rest <= entries.Keys && |batch| < limit
        invariant Collected(ring, entries, rest, batch)
        decreases |rest|
      {
        var u :| u in rest;
        CollectedOne(ring, entries, rest, batch, u);
        rest := rest - {u};
        if entries[u].wrappedDEK.Some? && Stale(ring, entries[u]) {
          batch := batch + [entries[u]];
          if |batch| == limit { break; }
        }
      }
      CollectedBatch(ring, entries, rest, batch, limit);
      BatchIs(ring, entries, limit, batch);
    }

    /** Replaces the wrapper only if it is still the one the candidate was read with. */
    method CommitDEKRewrap(candidate: Metadata, replacement: Wrapped, id: string, version: string)
      returns (committed: bool)
      requires Valid()
      modifies this`entries
      ensures Valid() && State() == CommitRewrap(old(State()), candidate, replacement, id, version)
      ensures committed == RewrapMatches(old(State()), candidate)
      ensures committed <==>
              && candidate.uploadID in old(entries)
              && old(entries)[candidate.uploadID].versionID == candidate.versionID
              && old(entries)[candidate.uploadID].wrappedDEK == candidate.wrappedDEK
      ensures entries == if committed
                         then old(entries)[candidate.uploadID := old(entries)[candidate.uploadID].(
                                wrappedDEK := Some(replacement), wrappingKEKID := id, wrappingKEKVersion := version)]
                         else old(entries)
    {
      if candidate.uploadID !in entries { return false; }
      var stored := entries[candidate.uploadID];
      if stored.versionID != candidate.versionID || stored.wrappedDEK != candidate.wrappedDEK { return false; }
      entries := entries[candidate.uploadID := stored.(wrappedDEK := Some(replacement), wrappingKEKID := id,
                                                       wrappingKEKVersion := version)];
      return true;
    }
  }
}
