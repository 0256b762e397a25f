/** The deletion worker: what is due, what one run completes, and how many runs drain the
    backlog. */
module StoreWorker {
  import opened Wrappers
  import opened Envelope
  import opened StoreModel
  import opened StoreInvariant
  import opened StoreSteps
  import opened StorePurge

  /** A row the summary counts and the worker examines. */
  predicate Due(file: File, now: Time) {
    && file.purgedAt == None && file.deletedAt.Some?
    && file.purgeAfter.Some? && !After(file.purgeAfter, now)
    && !file.legalHold && !After(file.retentionUntil, now)
  }

  function Eligible(r: Repo, now: Time): set<string> {
    set f | f in r.files && Due(r.files[f], now)
  }

  /** How the worker names its operations: from the file and its deadline. */
  type KeyFormat = (string, Time) -> string

  function ScheduledOp(r: Repo, f: string, key: KeyFormat): PurgeID
    requires f in r.files && r.files[f].purgeAfter.Some?
  {
    PurgeID(r.files[f].ownerID, f, key(f, r.files[f].purgeAfter.value))
  }

  /** A file is eligible exactly when a purge of it, by its owner and under any key at all,
      would go through at that instant. */
  lemma EligibleIffPurges(cfg: Config, w: World, f: string, key: string, now: Time)
    requires Inv(cfg, w)
    ensures f in Eligible(w.repo, now) <==>
              f in w.repo.files && Purges(w.repo, PurgeID(w.repo.files[f].ownerID, f, key), now)
  {
    hide EntriesOK, CleaningOK, Readable, RestoresFaithful, Lineage, Aimed, HistoriesOK, GrantsOK, HasOperation;
  }

  /** What the database counts as awaiting deletion: it does not ask whether the file is in
      the trash. */
  predicate CountedDue(file: File, now: Time) {
    && file.purgeAfter.Some? && !After(file.purgeAfter, now) && file.purgedAt == None
    && !file.legalHold && !After(file.retentionUntil, now)
  }

  /** The counts of the lifecycle summary, file by file. */
  datatype Summary = Summary(active: set<string>, trashed: set<string>, retained: set<string>, held: set<string>,
                             purged: set<string>, eligible: set<string>)

  function SummaryOf(r: Repo, now: Time): Summary {
    Summary(set f | f in r.files && r.files[f].Active(),
            set f | f in r.files && r.files[f].purgedAt == None && r.files[f].deletedAt.Some?,
            set f | f in r.files && r.files[f].purgedAt == None && After(r.files[f].retentionUntil, now),
            set f | f in r.files && r.files[f].purgedAt == None && r.files[f].legalHold,
            set f | f in r.files && r.files[f].purgedAt.Some?,
            set f | f in r.files && CountedDue(r.files[f], now))
  }

  /** In every reachable state the summary counts exactly the files the worker would examine:
      those in the trash past their deadline that no retention or hold keeps. So it shows none
      waiting exactly when the worker's page, under any limit, is empty. */
  lemma SummaryIsEligible(cfg: Config, w: World, now: Time, limit: int, page: seq<string>)
    requires Inv(cfg, w) && IsPage(w.repo, now, limit, page)
    ensures SummaryOf(w.repo, now).eligible == Eligible(w.repo, now)
    ensures forall f :: f in Eligible(w.repo, now) <==>
              && f in SummaryOf(w.repo, now).trashed && w.repo.files[f].purgeAfter.value <= now
              && f !in SummaryOf(w.repo, now).retained && f !in SummaryOf(w.repo, now).held
    ensures |SummaryOf(w.repo, now).eligible| == 0 <==> page == []
    ensures |page| == PageSize(limit, |SummaryOf(w.repo, now).eligible|)
  {
    hide EntriesOK, CleaningOK, Readable, RestoresFaithful, Lineage, Aimed, HistoriesOK, GrantsOK, HasOperation;
  }

  /** A deadline no later than the other file's. */
  predicate Earlier(files: Files, f: string, g: string) {
    f in files && g in files && files[f].purgeAfter.Some? && files[g].purgeAfter.Some? ==>
      files[f].purgeAfter.value <= files[g].purgeAfter.value
  }

  function PageSize(limit: int, n: nat): nat {
    if 0 < limit < n then limit else n
  }

  /** What `EligibleForPurge` may return: eligible files, once each, earliest deadline first,
      cut off at the limit. Files with equal deadlines may come in any order. */
  ghost predicate IsPage(r: Repo, now: Time, limit: int, page: seq<string>) {
    && (forall i :: 0 <= i < |page| ==> page[i] in Eligible(r, now))
    && (forall i, j :: 0 <= i < j < |page| ==> page[i] != page[j])
    && |page| == PageSize(limit, |Eligible(r, now)|)
    && (forall i, j :: 0 <= i < j < |page| ==> Earlier(r.files, page[i], page[j]))
    && (forall i, f :: 0 <= i < |page| && f in Eligible(r, now) && f !in page ==> Earlier(r.files, page[i], f))
  }

  predicate HaveRows(r: Repo, page: seq<string>) {
    forall i :: 0 <= i < |page| ==> page[i] in r.files && r.files[page[i]].purgeAfter.Some?
  }

  /** The repository after the worker has gone through the page, under the rows it read. */
  function Processed(r: Repo, page: seq<string>, now: Time, key: KeyFormat): Repo
    requires HaveRows(r, page)
  {
    if page == [] then r
    else
      var n := |page| - 1;
      Purge(Processed(r, page[..n], now, key), ScheduledOp(r, page[n], key), now)
  }

  /** Every purge on the page goes through when its turn comes. */
  ghost predicate GoesThrough(r: Repo, page: seq<string>, now: Time, key: KeyFormat)
    requires HaveRows(r, page)
  {
    page != [] ==>
      var n := |page| - 1;
      && GoesThrough(r, page[..n], now, key)
      && Purges(Processed(r, page[..n], now, key), ScheduledOp(r, page[n], key), now)
  }

  function Elements(page: seq<string>): set<string> {
    set i | 0 <= i < |page| :: page[i]
  }

  lemma EligibleHasDeadline(r: Repo, now: Time, f: string)
    requires f in Eligible(r, now)
    ensures f in r.files && r.files[f].purgeAfter.Some? && !After(r.files[f].purgeAfter, now)
  {}

  lemma PageHasRows(r: Repo, now: Time, limit: int, page: seq<string>)
    requires IsPage(r, now, limit, page)
    ensures HaveRows(r, page)
  {
    hide Eligible;
    forall i | 0 <= i < |page| ensures page[i] in r.files && r.files[page[i]].purgeAfter.Some? {
      EligibleHasDeadline(r, now, page[i]);
    }
  }

  /** One purge takes its own file off the list and moves no other. */
  lemma PurgeTakesOne(cfg: Config, w: World, op: PurgeID, now: Time)
    requires Inv(cfg, w) && Purges(w.repo, op, now)
    ensures Eligible(Purge(w.repo, op, now), now) == Eligible(w.repo, now) - {op.file}
    ensures forall f :: f in w.repo.files && f != op.file ==>
              f in Purge(w.repo, op, now).files && Purge(w.repo, op, now).files[f] == w.repo.files[f]
  {
    hide Inv, Erased, ErasedObjects, RevokeAll, Destroy;
  }

  /** The worker's own order: after each purge the next file is still eligible, under the row
      that was read, so its purge goes through too. */
  lemma {:induction false} PageProgress(cfg: Config, w: World, now: Time, page: seq<string>, key: KeyFormat)
    requires Inv(cfg, w)
    requires HaveRows(w.repo, page)
    requires forall i :: 0 <= i < |page| ==> page[i] in Eligible(w.repo, now)
    requires forall i, j :: 0 <= i < j < |page| ==> page[i] != page[j]
    ensures GoesThrough(w.repo, page, now, key)
    ensures Inv(cfg, w.(repo := Processed(w.repo, page, now, key)))
    ensures Eligible(Processed(w.repo, page, now, key), now) == Eligible(w.repo, now) - Elements(page)
    ensures forall f :: f in w.repo.files && f !in page ==>
              f in Processed(w.repo, page, now, key).files &&
              Processed(w.repo, page, now, key).files[f] == w.repo.files[f]
  {
    hide Inv, Purge, Purges;
    if page == [] {
      assert Elements(page) == {};
    } else {
      var n := |page| - 1;
      var f := page[n];
      var w' := w.(repo := Processed(w.repo, page[..n], now, key));
      PageProgress(cfg, w, now, page[..n], key);
      assert f !in page[..n] && f !in Elements(page[..n]);
      assert w'.repo.files[f] == w.repo.files[f];
      var op := ScheduledOp(w.repo, f, key);
      EligibleIffPurges(cfg, w', f, op.key, now);
      PurgeTakesOne(cfg, w', op, now);
      PurgeKeeps(cfg, w', op, now);
      assert page == page[..n] + [f];
      assert Elements(page) == Elements(page[..n]) + {f};
    }
  }

  lemma ElementsSize(page: seq<string>)
    requires forall i, j :: 0 <= i < j < |page| ==> page[i] != page[j]
    ensures |Elements(page)| == |page|
  {
    ImageSize(page, (f: string) => f, Elements(page));
  }

  /** One uninterrupted run: every file examined is purged when its turn comes, none fails,
      and exactly those files leave the list. */
  lemma RunCompletes(cfg: Config, w: World, now: Time, limit: int, page: seq<string>, key: KeyFormat)
    requires Inv(cfg, w) && IsPage(w.repo, now, limit, page)
    ensures HaveRows(w.repo, page) && GoesThrough(w.repo, page, now, key)
    ensures Inv(cfg, w.(repo := Processed(w.repo, page, now, key)))
    ensures Eligible(Processed(w.repo, page, now, key), now) == Eligible(w.repo, now) - Elements(page)
    ensures |Eligible(Processed(w.repo, page, now, key), now)| == |Eligible(w.repo, now)| - |page|
  {
    hide Inv, Purges, Processed, Due, Eligible, GoesThrough;
    PageHasRows(w.repo, now, limit, page);
    PageProgress(cfg, w, now, page, key);
    ElementsSize(page);
    assert Elements(page) <= Eligible(w.repo, now);
  }

  // --- Runs at one instant after another --------------------------------------

  /** One run of the worker: when, and what it took up. */
  datatype Visit = Visit(now: Time, page: seq<string>)

  /** Runs of the worker, one after another. */
  ghost predicate AreVisits(r: Repo, visits: seq<Visit>, limit: int, key: KeyFormat)
    decreases |visits|, 0
  {
    visits != [] ==>
      var n := |visits| - 1;
      && AreVisits(r, visits[..n], limit, key)
      && (n > 0 ==> visits[n - 1].now <= visits[n].now)
      && IsPage(AfterVisits(r, visits[..n], limit, key), visits[n].now, limit, visits[n].page)
  }

  ghost function AfterVisits(r: Repo, visits: seq<Visit>, limit: int, key: KeyFormat): Repo
    requires AreVisits(r, visits, limit, key)
    decreases |visits|, 1
  {
    if visits == [] then r
    else
      var n := |visits| - 1;
      var before := AfterVisits(r, visits[..n], limit, key);
      PageHasRows(before, visits[n].now, limit, visits[n].page);
      Processed(before, visits[n].page, visits[n].now, key)
  }

  /** The files that are due by the last of these runs, as they were before the first. */
  ghost function DueBy(r: Repo, visits: seq<Visit>): set<string> {
    if visits == [] then {} else Eligible(r, visits[|visits| - 1].now)
  }

  /** The queue of files waiting: those that fall due join it, and each run takes its limit. */
  ghost function Queue(r: Repo, visits: seq<Visit>, limit: int): nat {
    if visits == [] then 0
    else
      var before := visits[..|visits| - 1];
      var waiting := Queue(r, before, limit) + |DueBy(r, visits) - DueBy(r, before)|;
      if 0 < limit < waiting then waiting - limit else 0
  }

  /** Of the files there were each is as it was, or was due and has been purged. */
  ghost predicate Settled(r: Repo, r': Repo, due: set<string>) {
    && r'.files.Keys == r.files.Keys
    && forall f :: f in r.files ==> r'.files[f] == r.files[f] || (r'.files[f].purgedAt.Some? && f in due)
  }

  lemma PurgeSettles(r: Repo, op: PurgeID, now: Time)
    ensures Settled(r, Purge(r, op, now), {op.file})
  {
    hide Erased, ErasedObjects, RevokeAll, Destroy;
  }

  lemma SettlesTwice(r: Repo, r': Repo, r'': Repo, due: set<string>, more: set<string>)
    requires Settled(r, r', due) && Settled(r', r'', more)
    ensures Settled(r, r'', due + more)
  {}

  lemma {:induction false} PageSettles(r: Repo, page: seq<string>, now: Time, key: KeyFormat)
    requires HaveRows(r, page)
    ensures Settled(r, Processed(r, page, now, key), Elements(page))
  {
    if page != [] {
      hide Purge;
      var n := |page| - 1;
      PageSettles(r, page[..n], now, key);
      PurgeSettles(Processed(r, page[..n], now, key), ScheduledOp(r, page[n], key), now);
      assert Elements(page) == Elements(page[..n]) + {page[n]};
      SettlesTwice(r, Processed(r, page[..n], now, key), Processed(r, page, now, key), Elements(page[..n]), {page[n]});
      hide Settled, Elements, Processed;
    }
  }

  /** What is due stays due until it is purged, and what falls due later joins it. */
  lemma FallsDue(r: Repo, r': Repo, visits: seq<Visit>, now: Time)
    requires Settled(r, r', DueBy(r, visits))
    requires visits != [] ==> visits[|visits| - 1].now <= now
    ensures
      var waiting := if visits == [] then {} else Eligible(r', visits[|visits| - 1].now);
      && DueBy(r, visits) <= Eligible(r, now)
      && Eligible(r', now) == waiting + (Eligible(r, now) - DueBy(r, visits))
      && waiting !! (Eligible(r, now) - DueBy(r, visits)) && Eligible(r', now) <= Eligible(r, now)
  {}

  /** However the runs are spaced, the backlog after each is the queue. */
  lemma {:induction false} BacklogIsQueue(cfg: Config, w: World, visits: seq<Visit>, limit: int, key: KeyFormat)
    requires Inv(cfg, w) && AreVisits(w.repo, visits, limit, key)
    ensures
      var r := AfterVisits(w.repo, visits, limit, key);
      && Inv(cfg, w.(repo := r)) && Settled(w.repo, r, DueBy(w.repo, visits))
      && (visits != [] ==> |Eligible(r, visits[|visits| - 1].now)| == Queue(w.repo, visits, limit))
  {
    hide Inv, Processed, Eligible;
    if visits != [] {
      var n := |visits| - 1;
      BacklogIsQueue(cfg, w, visits[..n], limit, key);
      var r := AfterVisits(w.repo, visits[..n], limit, key);
      FallsDue(w.repo, r, visits[..n], visits[n].now);
      RunCompletes(cfg, w.(repo := r), visits[n].now, limit, visits[n].page, key);
      PageSettles(r, visits[n].page, visits[n].now, key);
      PageIsDue(r, visits[n], limit);
      hide IsPage, GoesThrough;
      SettledAfter(w.repo, r, AfterVisits(w.repo, visits, limit, key), DueBy(w.repo, visits[..n]),
                   Elements(visits[n].page), DueBy(w.repo, visits));
    }
  }

  lemma PageIsDue(r: Repo, visit: Visit, limit: int)
    requires IsPage(r, visit.now, limit, visit.page)
    ensures Elements(visit.page) <= Eligible(r, visit.now)
    ensures |visit.page| == PageSize(limit, |Eligible(r, visit.now)|)
  {
    hide Eligible;
  }

  lemma SettledAfter(r: Repo, r': Repo, r'': Repo, due: set<string>, more: set<string>, all: set<string>)
    requires Settled(r, r', due) && Settled(r', r'', more) && due <= all && more <= all
    ensures Settled(r, r'', all)
  {}

  lemma DueGrows(r: Repo, visits: seq<Visit>, limit: int, key: KeyFormat)
    requires visits != [] && AreVisits(r, visits, limit, key)
    ensures
      var before := visits[..|visits| - 1];
      && DueBy(r, before) <= DueBy(r, visits)
      && |DueBy(r, visits) - DueBy(r, before)| == |DueBy(r, visits)| - |DueBy(r, before)|
  {
    hide AfterVisits, IsPage;
    var before := visits[..|visits| - 1];
    assert DueBy(r, before) <= DueBy(r, visits);
    hide DueBy;
    assert DueBy(r, visits) == DueBy(r, before) + (DueBy(r, visits) - DueBy(r, before));
  }

  /** What fell due after the first j runs is no more than the runs after them take, and x. */
  ghost predicate Fits(r: Repo, visits: seq<Visit>, limit: nat, x: nat, j: nat)
    requires j <= |visits|
  {
    |DueBy(r, visits)| - |DueBy(r, visits[..j])| <= (|visits| - j) * limit + x
  }

  lemma QueueSteps(r: Repo, visits: seq<Visit>, limit: nat, key: KeyFormat, x: nat)
    requires limit > 0 && visits != [] && AreVisits(r, visits, limit, key)
    ensures
      var before := visits[..|visits| - 1];
      var arrived := |DueBy(r, visits)| - |DueBy(r, before)|;
      && AreVisits(r, before, limit, key)
      && (Queue(r, visits, limit) <= x <==> Queue(r, before, limit) + arrived <= limit + x)
      && (Fits(r, visits, limit, x, |visits| - 1) <==> arrived <= limit + x)
  {
    DueGrows(r, visits, limit, key);
    hide DueBy, AfterVisits, IsPage;
  }

  lemma FitsShifts(r: Repo, visits: seq<Visit>, limit: nat, x: nat, y: nat, j: nat)
    requires j < |visits| - 1 && y == limit + x - (|DueBy(r, visits)| - |DueBy(r, visits[..|visits| - 1])|)
    ensures Fits(r, visits, limit, x, j) <==> Fits(r, visits[..|visits| - 1], limit, y, j)
  {
    var n := |visits| - 1;
    assert visits[..n][..j] == visits[..j];
    assert (n + 1 - j) * limit == (n - j) * limit + limit;
    hide DueBy;
  }

  ghost predicate AllFit(r: Repo, visits: seq<Visit>, limit: nat, x: nat) {
    forall j :: 0 <= j < |visits| ==> Fits(r, visits, limit, x, j)
  }

  lemma AllFitLess(r: Repo, visits: seq<Visit>, limit: nat, x: nat, y: nat)
    requires visits != [] && y == limit + x - (|DueBy(r, visits)| - |DueBy(r, visits[..|visits| - 1])|)
    ensures AllFit(r, visits, limit, x) <==>
            Fits(r, visits, limit, x, |visits| - 1) && AllFit(r, visits[..|visits| - 1], limit, y)
  {
    var before := visits[..|visits| - 1];
    forall j | 0 <= j < |before| ensures Fits(r, visits, limit, x, j) <==> Fits(r, before, limit, y, j) {
      FitsShifts(r, visits, limit, x, y, j);
    }
    hide Fits, DueBy;
  }

  /** No more than x wait exactly when that holds for every stretch of runs up to the last. */
  lemma {:induction false} QueueAtMost(r: Repo, visits: seq<Visit>, limit: nat, key: KeyFormat, x: nat)
    requires limit > 0 && AreVisits(r, visits, limit, key)
    ensures Queue(r, visits, limit) <= x <==> AllFit(r, visits, limit, x)
  {
    if visits != [] {
      hide Fits, DueBy, AreVisits, Queue;
      var n := |visits| - 1;
      var arrived := |DueBy(r, visits)| - |DueBy(r, visits[..n])|;
      QueueSteps(r, visits, limit, key, x);
      if arrived <= limit + x {
        var y := limit + x - arrived;
        AllFitLess(r, visits, limit, x, y);
        hide AllFit;
        QueueAtMost(r, visits[..n], limit, key, y);
      }
    }
  }

  /** So nothing waits after the last run exactly when each stretch of runs could take what fell
      due since the run before it. */
  lemma VisitsDrainIff(cfg: Config, w: World, visits: seq<Visit>, limit: nat, key: KeyFormat)
    requires Inv(cfg, w) && limit > 0 && visits != [] && AreVisits(w.repo, visits, limit, key)
    ensures Eligible(AfterVisits(w.repo, visits, limit, key), visits[|visits| - 1].now) == {} <==>
            AllFit(w.repo, visits, limit, 0)
  {
    hide Inv, AreVisits, AfterVisits, Eligible, Fits;
    BacklogIsQueue(cfg, w, visits, limit, key);
    QueueAtMost(w.repo, visits, limit, key, 0);
  }

  /** All at one instant, so that nothing falls due in between. */
  predicate AtOnce(visits: seq<Visit>, now: Time) { forall i :: 0 <= i < |visits| ==> visits[i].now == now }

  lemma AtOnceFits(r: Repo, visits: seq<Visit>, now: Time, limit: nat, x: nat)
    requires visits != [] && AtOnce(visits, now)
    ensures AllFit(r, visits, limit, x) <==> |Eligible(r, now)| <= |visits| * limit + x
  {
    hide Eligible;
    assert visits[..0] == [];
    assert Fits(r, visits, limit, x, 0) <==> |Eligible(r, now)| <= |visits| * limit + x;
    forall j | 0 < j < |visits| ensures Fits(r, visits, limit, x, j) {
      assert visits[..j] != [] && visits[..j][j - 1] == visits[j - 1];
    }
  }

  lemma QueueLeft(r: Repo, visits: seq<Visit>, limit: nat, key: KeyFormat, now: Time, taken: nat)
    requires visits != [] && limit > 0 && AreVisits(r, visits, limit, key) && AtOnce(visits, now)
    requires taken == |visits| * limit
    ensures
      var n := |Eligible(r, now)|;
      Queue(r, visits, limit) == if taken < n then n - taken else 0
  {
    hide AreVisits, Eligible, Fits, AllFit, Queue, AtOnce;
    var n := |Eligible(r, now)|;
    var left := if taken < n then n - taken else 0;
    QueueAtMost(r, visits, limit, key, left);
    AtOnceFits(r, visits, now, limit, left);
    if left > 0 {
      QueueAtMost(r, visits, limit, key, left - 1);
      AtOnceFits(r, visits, now, limit, left - 1);
    }
  }

  /** With limit L, k runs at one instant leave max(0, n - kL) of n eligible files. */
  lemma RoundsLeft(cfg: Config, w: World, visits: seq<Visit>, now: Time, limit: nat, key: KeyFormat)
    requires Inv(cfg, w) && limit > 0 && AreVisits(w.repo, visits, limit, key) && AtOnce(visits, now)
    ensures
      var n := |Eligible(w.repo, now)|;
      |Eligible(AfterVisits(w.repo, visits, limit, key), now)| == if |visits| * limit < n then n - |visits| * limit
          else 0
  {
    hide Inv, AreVisits, Eligible, Queue, Settled;
    var taken := |visits| * limit;
    if visits == [] {
      assert taken == 0;
    } else {
      assert visits[|visits| - 1].now == now;
      hide AfterVisits, AtOnce, DueBy;
      BacklogIsQueue(cfg, w, visits, limit, key);
      QueueLeft(w.repo, visits, limit, key, now, taken);
    }
  }

  /** Rounding up: how many runs of this size cover n files. */
  function Ceiling(n: nat, limit: nat): nat
    requires limit > 0
  {
    (n + limit - 1) / limit
  }

  /** So they are gone after ceil(n / L) such runs and not before. */
  lemma RoundsDrain(cfg: Config, w: World, visits: seq<Visit>, now: Time, limit: nat, key: KeyFormat)
    requires Inv(cfg, w) && limit > 0 && AreVisits(w.repo, visits, limit, key) && AtOnce(visits, now)
    ensures Eligible(AfterVisits(w.repo, visits, limit, key), now) == {}
       <==> |visits| >= Ceiling(|Eligible(w.repo, now)|, limit)
  {
    hide Inv, AreVisits, AfterVisits, Eligible;
    RoundsLeft(cfg, w, visits, now, limit, key);
    CeilingCovers(|Eligible(w.repo, now)|, limit, |visits|);
  }

  lemma CeilingCovers(n: nat, limit: nat, k: nat)
    requires limit > 0
    ensures k >= Ceiling(n, limit) <==> k * limit >= n
  {
    var c := Ceiling(n, limit);
    assert c * limit >= n && c * limit < n + limit;
    if k >= c { Scales(c, k, limit); } else { Scales(k, c - 1, limit); assert (c - 1) * limit == c * limit - limit; }
  }

  lemma Scales(a: nat, b: nat, m: nat)
    requires a <= b
    ensures a * m <= b * m
  {}
}
