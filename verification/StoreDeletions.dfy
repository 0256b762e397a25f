/** The purge as the SQL tables record it. A purge that fails leaves an operation row behind,
    and every later purge under the same key stops at that row. */
module StoreDeletions {
  import opened Wrappers
  import opened Envelope
  import opened StoreModel
  import opened StoreInvariant
  import opened StoreSteps
  import opened StoreWorker

  /** `unfinished` holds the operations whose row says that they failed; completed ones are
      the repository's. */
  datatype Sql = Sql(repo: Repo, unfinished: set<PurgeID>)

  /** A retry of a completed operation lists no objects, and an unfinished one answers with an
      empty result and no error. */
  function SqlOutcome(s: Sql, op: PurgeID, now: Time): Outcome<Option<PurgeResult>> {
    if op in s.unfinished then Success(None)
    else match PurgeOutcome(s.repo, op, now)
      case Failure(e) => Failure(e)
      case Success(result) => Success(Some(if op in s.repo.purges then result.(blobObjects := {}) else result))
  }

  function SqlPurge(s: Sql, op: PurgeID, now: Time): Sql {
    if op in s.unfinished then s else s.(repo := Purge(s.repo, op, now))
  }

  /** What the database does in one run: the files whose transaction breaks off, those whose
      transaction commits and is answered with an error, and those for which the failure could
      not be recorded either. */
  datatype Weather = Weather(failing: set<string>, doubtful: set<string>, unrecorded: set<string>)

  const FAIR: Weather := Weather({}, {}, {})

  function Recorded(s: Sql, f: string, op: PurgeID, weather: Weather): Sql {
    if f in weather.unrecorded then s else s.(unfinished := s.unfinished + {op})
  }

  /** There is a commit that may be answered with an error: an operation that has a row, of
      either kind, returns before it. */
  predicate InDoubt(s: Sql, f: string, op: PurgeID, weather: Weather) {
    f in weather.doubtful && op !in s.unfinished && op !in s.repo.purges
  }

  /** One file of the worker's page. The worker records a failure whenever it is told of one. */
  function Attended(s: Sql, f: string, op: PurgeID, now: Time, weather: Weather): Sql {
    if f in weather.failing || SqlOutcome(s, op, now).Failure? then Recorded(s, f, op, weather)
    else if InDoubt(s, f, op, weather) then Recorded(SqlPurge(s, op, now), f, op, weather)
    else SqlPurge(s, op, now)
  }

  predicate CountedCompleted(s: Sql, f: string, op: PurgeID, now: Time, weather: Weather) {
    f !in weather.failing && SqlOutcome(s, op, now).Success? && !InDoubt(s, f, op, weather)
  }

  /** The page from its first file to its last, under the rows that were read. */
  function Worked(s: Sql, page: seq<string>, now: Time, key: KeyFormat, weather: Weather): Sql
    requires HaveRows(s.repo, page)
  {
    if page == [] then s
    else
      var n := |page| - 1;
      Attended(Worked(s, page[..n], now, key, weather), page[n], ScheduledOp(s.repo, page[n], key), now, weather)
  }

  function Completed(s: Sql, page: seq<string>, now: Time, key: KeyFormat, weather: Weather): nat
    requires HaveRows(s.repo, page)
  {
    if page == [] then 0
    else
      var n := |page| - 1;
      var before := Worked(s, page[..n], now, key, weather);
      Completed(s, page[..n], now, key, weather) +
      (if CountedCompleted(before, page[n], ScheduledOp(s.repo, page[n], key), now, weather) then 1 else 0)
  }

  /** An unfinished row stands under the key the worker gives this file. */
  predicate Stuck(s: Sql, f: string, key: KeyFormat) {
    f in s.repo.files && s.repo.files[f].purgeAfter.Some? && ScheduledOp(s.repo, f, key) in s.unfinished
  }

  /** The files of the page that a run under this weather takes off the list. */
  function Taken(s: Sql, page: seq<string>, key: KeyFormat, weather: Weather): set<string> {
    set f | f in page && f !in weather.failing && !Stuck(s, f, key)
  }

  /** A purge of an eligible file answers with success either way, and takes the file off the
      list exactly when no unfinished row stands under its key. */
  lemma SqlPurgesIff(cfg: Config, w: World, unfinished: set<PurgeID>, f: string, key: string, now: Time)
    requires Inv(cfg, w) && f in Eligible(w.repo, now)
    ensures f in w.repo.files
    ensures
      var s := Sql(w.repo, unfinished);
      var op := PurgeID(w.repo.files[f].ownerID, f, key);
      && SqlOutcome(s, op, now).Success?
      && (f !in Eligible(SqlPurge(s, op, now).repo, now) <==> op !in unfinished)
      && Inv(cfg, w.(repo := SqlPurge(s, op, now).repo))
  {
    hide Inv, Purges, Purge, Eligible, PurgeOutcome, Due;
    EligibleHasDeadline(w.repo, now, f);
    var op := PurgeID(w.repo.files[f].ownerID, f, key);
    EligibleIffPurges(cfg, w, f, key, now);
    GoesThroughSucceeds(w.repo, op, now);
    PurgeTakesOne(cfg, w, op, now);
    PurgeKeeps(cfg, w, op, now);
  }

  lemma GoesThroughSucceeds(r: Repo, op: PurgeID, now: Time)
    ensures Purges(r, op, now) ==> PurgeOutcome(r, op, now).Success?
  {
    hide PurgeGuard, Erased, ErasedObjects;
  }

  /** A purge that took effect answers a retry with its first result exactly when no failure was
      recorded for it, that is, unless its commit was answered with an error and that could be
      recorded. */
  lemma RetryForgotten(s: Sql, f: string, op: PurgeID, now: Time, later: Time, weather: Weather)
    requires op.file == f && f !in weather.failing && op !in s.unfinished && Purges(s.repo, op, now)
    ensures
      var s' := Attended(s, f, op, now, weather);
      && op in s'.repo.purges
      && SqlOutcome(s, op, now) == Success(Some(s'.repo.purges[op]))
      && s'.repo.purges[op].blobObjects == ErasedObjects(s.repo, f)
      && SqlOutcome(s', op, later) ==
         if f in weather.doubtful && f !in weather.unrecorded then Success(None)
         else Success(Some(s'.repo.purges[op].(blobObjects := {})))
  {
    GoesThroughSucceeds(s.repo, op, now);
    hide PurgeGuard, Erased, ErasedObjects, RevokeAll, Destroy;
  }

  /** Where a run stands after a part of its page. */
  ghost predicate Midway(cfg: Config, w: World, s: Sql, s': Sql, page: seq<string>, now: Time, key: KeyFormat,
                         weather: Weather) {
    && Inv(cfg, w.(repo := s'.repo))
    && Eligible(s'.repo, now) == Eligible(s.repo, now) - Taken(s, page, key, weather)
    && (forall f :: f in s.repo.files && f !in Taken(s, page, key, weather) ==>
        f in s'.repo.files && s'.repo.files[f] == s.repo.files[f])
    && s'.repo.versions == s.repo.versions && s.unfinished <= s'.unfinished
    && (forall op :: op in s'.unfinished && op !in s.unfinished ==>
        op.file in page && (op.file in weather.failing || op.file in weather.doubtful))
  }

  lemma TakenGrows(s: Sql, page: seq<string>, f: string, key: KeyFormat, weather: Weather)
    ensures Taken(s, page + [f], key, weather)
         == Taken(s, page, key, weather) + (if f !in weather.failing && !Stuck(s, f, key) then {f} else {})
  {
    hide Stuck;
  }

  /** The transaction breaks off. */
  lemma MidwayFails(cfg: Config, w: World, s: Sql, s': Sql, page: seq<string>, f: string, op: PurgeID, now: Time,
                    key: KeyFormat, weather: Weather)
    requires Midway(cfg, w, s, s', page, now, key, weather) && f in weather.failing && op.file == f
    ensures Midway(cfg, w, s, Recorded(s', f, op, weather), page + [f], now, key, weather)
  {
    hide Inv, Eligible, Taken;
    TakenGrows(s, page, f, key, weather);
  }

  /** It stops at the unfinished row. */
  lemma MidwayStops(cfg: Config, w: World, s: Sql, s': Sql, page: seq<string>, f: string, now: Time, key: KeyFormat,
                    weather: Weather)
    requires Midway(cfg, w, s, s', page, now, key, weather) && Stuck(s, f, key)
    ensures Midway(cfg, w, s, s', page + [f], now, key, weather)
  {
    hide Inv, Eligible, Taken, Stuck;
    TakenGrows(s, page, f, key, weather);
  }

  /** It goes through. */
  lemma MidwayPurges(cfg: Config, w: World, s: Sql, s': Sql, page: seq<string>, f: string, op: PurgeID, now: Time,
                     key: KeyFormat, weather: Weather)
    requires Midway(cfg, w, s, s', page, now, key, weather) && f !in weather.failing && !Stuck(s, f, key) &&
             op.file == f
    requires Purges(s'.repo, op, now)
    ensures Midway(cfg, w, s, s'.(repo := Purge(s'.repo, op, now)), page + [f], now, key, weather)
  {
    hide Inv, Eligible, Taken, Stuck, Purge, Purges;
    TakenGrows(s, page, f, key, weather);
    var w' := w.(repo := s'.repo);
    PurgeTakesOne(cfg, w', op, now);
    PurgeKeeps(cfg, w', op, now);
    PurgeKeepsVersions(s'.repo, op, now);
  }

  /** It goes through, and the failure that is reported may be recorded. */
  lemma MidwayDoubts(cfg: Config, w: World, s: Sql, s': Sql, page: seq<string>, f: string, op: PurgeID, now: Time,
                     key: KeyFormat, weather: Weather)
    requires Midway(cfg, w, s, s', page + [f], now, key, weather) && f in weather.doubtful && op.file == f
    ensures Midway(cfg, w, s, Recorded(s', f, op, weather), page + [f], now, key, weather)
  {
    hide Inv, Eligible, Taken;
  }

  lemma PurgeKeepsVersions(r: Repo, op: PurgeID, now: Time)
    ensures Purge(r, op, now).versions == r.versions
  {
    hide PurgeGuard, Erased, ErasedObjects, RevokeAll, Destroy;
  }

  /** Its row is as it was read, and it is still on the list. */
  lemma MidwayReads(cfg: Config, w: World, s: Sql, s': Sql, page: seq<string>, f: string, now: Time, key: KeyFormat,
                    weather: Weather)
    requires w.repo == s.repo && Midway(cfg, w, s, s', page, now, key, weather) && f in Eligible(s.repo, now) &&
             f !in page
    ensures f in s.repo.files && s.repo.files[f].purgeAfter.Some?
    ensures f in Eligible(s'.repo, now) && f in s'.repo.files && s'.repo.files[f] == s.repo.files[f]
    ensures ScheduledOp(s.repo, f, key) in s'.unfinished <==> Stuck(s, f, key)
    ensures Inv(cfg, w.(repo := s'.repo)) && ScheduledOp(s.repo, f, key) !in s'.repo.purges
  {
    EligibleHasDeadline(s.repo, now, f);
    hide Inv, Eligible;
    assert f !in Taken(s, page, key, weather);
    EligibleUnpurged(cfg, w.(repo := s'.repo), f, ScheduledOp(s.repo, f, key), now);
  }

  lemma EligibleUnpurged(cfg: Config, w: World, f: string, op: PurgeID, now: Time)
    requires Inv(cfg, w) && f in Eligible(w.repo, now) && op.file == f
    ensures op !in w.repo.purges
  {
    hide EntriesOK, CleaningOK, Readable, RestoresFaithful, Lineage, Aimed, HistoriesOK, GrantsOK, HasOperation;
  }

  /** The next file of the page. */
  lemma MidwayMoves(cfg: Config, w: World, s: Sql, s': Sql, page: seq<string>, f: string, now: Time, key: KeyFormat,
                    weather: Weather)
    requires w.repo == s.repo && Midway(cfg, w, s, s', page, now, key, weather) && f in Eligible(s.repo, now) &&
             f !in page
    ensures f in s.repo.files && s.repo.files[f].purgeAfter.Some?
    ensures Midway(cfg, w, s, Attended(s', f, ScheduledOp(s.repo, f, key), now, weather), page + [f], now, key, weather)
    ensures CountedCompleted(s', f, ScheduledOp(s.repo, f, key), now, weather) <==>
              f !in weather.failing && (f in weather.doubtful ==> Stuck(s, f, key))
  {
    hide Inv, Eligible, SqlOutcome, Purge, Purges, Midway, Stuck, Recorded;
    MidwayReads(cfg, w, s, s', page, f, now, key, weather);
    var op := ScheduledOp(s.repo, f, key);
    var w' := w.(repo := s'.repo);
    assert s' == Sql(w'.repo, s'.unfinished);
    SqlPurgesIff(cfg, w', s'.unfinished, f, op.key, now);
    if f in weather.failing {
      MidwayFails(cfg, w, s, s', page, f, op, now, key, weather);
    } else if Stuck(s, f, key) {
      MidwayStops(cfg, w, s, s', page, f, now, key, weather);
    } else {
      EligibleIffPurges(cfg, w', f, op.key, now);
      MidwayPurges(cfg, w, s, s', page, f, op, now, key, weather);
      if f in weather.doubtful {
        MidwayDoubts(cfg, w, s, s'.(repo := Purge(s'.repo, op, now)), page, f, op, now, key, weather);
      }
    }
  }

  /** The files of the page for which the worker is told of no error. */
  function Unbroken(s: Sql, page: seq<string>, key: KeyFormat, weather: Weather): set<string> {
    set f | f in page && f !in weather.failing && (f in weather.doubtful ==> Stuck(s, f, key))
  }

  lemma UnbrokenGrows(s: Sql, page: seq<string>, f: string, key: KeyFormat, weather: Weather)
    requires f !in page
    ensures |Unbroken(s, page + [f], key, weather)| == |Unbroken(s, page, key, weather)| +
            if f !in weather.failing && (f in weather.doubtful ==> Stuck(s, f, key)) then 1 else 0
  {
    hide Stuck;
    assert Unbroken(s, page + [f], key, weather) ==
           if f !in weather.failing && (f in weather.doubtful ==> Stuck(s, f, key))
           then Unbroken(s, page, key, weather) + {f} else Unbroken(s, page, key, weather);
  }

  /** One uninterrupted run, whatever the database does: exactly the files whose transaction
      goes through, whatever its answer, and under whose key no unfinished row stands leave the
      list; what is counted as completed is every file with no error told, stuck or purged. */
  lemma {:induction false} SqlRunTakes(cfg: Config, w: World, s: Sql, page: seq<string>, now: Time, key: KeyFormat,
                                       weather: Weather)
    requires Inv(cfg, w) && w.repo == s.repo && HaveRows(s.repo, page)
    requires forall i :: 0 <= i < |page| ==> page[i] in Eligible(s.repo, now)
    requires forall i, j :: 0 <= i < j < |page| ==> page[i] != page[j]
    ensures Midway(cfg, w, s, Worked(s, page, now, key, weather), page, now, key, weather)
    ensures Completed(s, page, now, key, weather) == |Unbroken(s, page, key, weather)|
  {
    hide Inv, Eligible, Attended, CountedCompleted, Stuck, Due;
    if page == [] {
      assert Taken(s, page, key, weather) == {};
    } else {
      var n := |page| - 1;
      SqlRunTakes(cfg, w, s, page[..n], now, key, weather);
      assert page == page[..n] + [page[n]] && page[n] !in page[..n];
      UnbrokenGrows(s, page[..n], page[n], key, weather);
      hide Midway, Taken, Unbroken;
      MidwayMoves(cfg, w, s, Worked(s, page[..n], now, key, weather), page[..n], page[n], now, key, weather);
    }
  }

  /** So with a covering page and no failure the backlog is gone after the run exactly when no
      eligible file is stuck, and otherwise the stuck ones are what is left of it. */
  lemma SqlDrainsIff(cfg: Config, w: World, s: Sql, page: seq<string>, now: Time, limit: int, key: KeyFormat)
    requires Inv(cfg, w) && w.repo == s.repo && IsPage(s.repo, now, limit, page) && |page| == |Eligible(s.repo, now)|
    ensures HaveRows(s.repo, page)
    ensures
      var left := Eligible(Worked(s, page, now, key, FAIR).repo, now);
      && left == (set f | f in Eligible(s.repo, now) && Stuck(s, f, key))
      && (left == {} <==> forall f :: f in Eligible(s.repo, now) ==> !Stuck(s, f, key))
  {
    hide Inv, Stuck, Worked, Completed, Eligible;
    PageHasRows(s.repo, now, limit, page);
    SqlRunTakes(cfg, w, s, page, now, key, FAIR);
    ElementsSize(page);
    AllOf(Elements(page), Eligible(s.repo, now));
    assert forall f :: f in page <==>
             f in Eligible(s.repo, now) by { assert forall f :: f in page <==> f in Elements(page); }
    var left := Eligible(Worked(s, page, now, key, FAIR).repo, now);
    assert left == set f | f in Eligible(s.repo, now) && Stuck(s, f, key);
    if f :| f in Eligible(s.repo, now) && Stuck(s, f, key) { assert f in left; }
  }

  lemma AllOf(a: set<string>, b: set<string>)
    requires a <= b && |a| == |b|
    ensures a == b
  {
    assert b == a + (b - a) && |b| == |a| + |b - a|;
  }

  // --- For ever --------------------------------------------------------------

  datatype Round = Round(now: Time, page: seq<string>, weather: Weather)

  /** Runs of the worker one after another, each with a page of what is eligible then. */
  ghost predicate AreRuns(s: Sql, rounds: seq<Round>, limit: int, key: KeyFormat)
    decreases |rounds|, 0
  {
    rounds != [] ==>
      var n := |rounds| - 1;
      && AreRuns(s, rounds[..n], limit, key)
      && IsPage(AfterRuns(s, rounds[..n], limit, key).repo, rounds[n].now, limit, rounds[n].page)
  }

  ghost function AfterRuns(s: Sql, rounds: seq<Round>, limit: int, key: KeyFormat): Sql
    requires AreRuns(s, rounds, limit, key)
    decreases |rounds|, 1
  {
    if rounds == [] then s
    else
      var n := |rounds| - 1;
      var before := AfterRuns(s, rounds[..n], limit, key);
      PageHasRows(before.repo, rounds[n].now, limit, rounds[n].page);
      Worked(before, rounds[n].page, rounds[n].now, key, rounds[n].weather)
  }

  /** A file that is stuck once is never purged by the worker: however many runs follow, and
      whenever, its row and its history stay as they are, and it stays stuck. */
  lemma {:induction false} StuckForEver(cfg: Config, w: World, s: Sql, rounds: seq<Round>, limit: int, key: KeyFormat,
                                        f: string)
    requires Inv(cfg, w) && w.repo == s.repo && AreRuns(s, rounds, limit, key) && Stuck(s, f, key)
    ensures
      var s' := AfterRuns(s, rounds, limit, key);
      && Inv(cfg, w.(repo := s'.repo)) && Stuck(s', f, key)
      && f in s'.repo.files && s'.repo.files[f] == s.repo.files[f] && VersionsOf(s'.repo, f) == VersionsOf(s.repo, f)
      && (forall now :: f in Eligible(s.repo, now) ==> f in Eligible(s'.repo, now))
  {
    hide Inv, Worked, IsPage, Due;
    if rounds != [] {
      var n := |rounds| - 1;
      StuckForEver(cfg, w, s, rounds[..n], limit, key, f);
      var before := AfterRuns(s, rounds[..n], limit, key);
      hide AreRuns, AfterRuns;
      StuckRun(cfg, w.(repo := before.repo), before, rounds[n].page, rounds[n].now, limit, key, rounds[n].weather, f);
      assert AfterRuns(s, rounds, limit, key) ==
             Worked(before, rounds[n].page, rounds[n].now, key, rounds[n].weather) by {
        RunsUnfold(s, rounds, limit, key);
      }
    }
  }

  lemma RunsUnfold(s: Sql, rounds: seq<Round>, limit: int, key: KeyFormat)
    requires rounds != [] && AreRuns(s, rounds, limit, key)
    ensures
      var n := |rounds| - 1;
      && AreRuns(s, rounds[..n], limit, key)
      && HaveRows(AfterRuns(s, rounds[..n], limit, key).repo, rounds[n].page)
      && AfterRuns(s, rounds, limit, key)
         == Worked(AfterRuns(s, rounds[..n], limit, key), rounds[n].page, rounds[n].now, key, rounds[n].weather)
  {
    hide IsPage, HaveRows, Worked;
    PageHasRows(AfterRuns(s, rounds[..|rounds| - 1], limit, key).repo, rounds[|rounds| - 1].now, limit,
                rounds[|rounds| - 1].page);
  }

  lemma StuckRun(cfg: Config, w: World, s: Sql, page: seq<string>, now: Time, limit: int, key: KeyFormat,
                 weather: Weather, f: string)
    requires Inv(cfg, w) && w.repo == s.repo && IsPage(s.repo, now, limit, page) && Stuck(s, f, key)
    ensures HaveRows(s.repo, page)
    ensures
      var s' := Worked(s, page, now, key, weather);
      && Inv(cfg, w.(repo := s'.repo)) && Stuck(s', f, key)
      && f in s'.repo.files && s'.repo.files[f] == s.repo.files[f] && VersionsOf(s'.repo, f) == VersionsOf(s.repo, f)
  {
    hide Inv, Worked, Eligible, Completed;
    PageHasRows(s.repo, now, limit, page);
    SqlRunTakes(cfg, w, s, page, now, key, weather);
    assert f !in Taken(s, page, key, weather);
  }

  /** So none of its keys is ever destroyed. */
  lemma StuckKeepsKeys(cfg: Config, w: World, s: Sql, rounds: seq<Round>, limit: int, key: KeyFormat, f: string,
                       u: OperationID)
    requires Inv(cfg, w) && w.repo == s.repo && AreRuns(s, rounds, limit, key) && Stuck(s, f, key)
    requires s.repo.files[f].purgedAt == None && HasOperation(VersionsOf(s.repo, f), u)
    ensures
      var s' := AfterRuns(s, rounds, limit, key);
      u in s'.repo.entries && Live(s'.repo.entries[u])
  {
    hide Due, EntriesOK, CleaningOK, Readable, RestoresFaithful, Lineage, Aimed, GrantsOK, AreRuns, AfterRuns, Stuck,
         HasOperation;
    StuckForEver(cfg, w, s, rounds, limit, key, f);
    var r := AfterRuns(s, rounds, limit, key).repo;
    OpenFileHasKeys(r, f, u);
  }

  lemma OpenFileHasKeys(r: Repo, f: string, u: OperationID)
    requires HistoriesOK(r.files, r.versions, r.entries) && LifecycleOK(r.files, r.versions, r.entries, r.purges)
    requires f in r.files && r.files[f].purgedAt == None && HasOperation(VersionsOf(r, f), u)
    ensures u in r.entries && Live(r.entries[u])
  {
    HistoriesUseEntries(r.files, r.versions, r.entries);
    var i :| 0 <= i < |VersionsOf(r, f)| && VersionsOf(r, f)[i].operationID == u;
    assert r.versions[f][i].operationID == u;
    hide History, HasOperation;
  }

  /** A page that holds stuck files only changes nothing, so the next run may meet the same
      page again: they keep every other file from its turn. */
  lemma {:induction false} StuckPageStarves(s: Sql, page: seq<string>, now: Time, key: KeyFormat)
    requires HaveRows(s.repo, page) && forall i :: 0 <= i < |page| ==> Stuck(s, page[i], key)
    ensures Worked(s, page, now, key, FAIR) == s
  {
    if page != [] {
      StuckPageStarves(s, page[..|page| - 1], now, key);
      assert Stuck(s, page[|page| - 1], key);
    }
  }
}
