/** The batch loops of the protected-store service: rewrapping data keys and processing due
    purges, each run to its end without interference. */
module StoreService {
  import opened Wrappers
  import opened Framing
  import opened Envelope
  import opened StoreModel
  import opened StoreInvariant
  import opened StoreRewrap
  import opened StoreWorker
  import opened MemoryStore

  datatype RewrapResult = RewrapResult(requested: int, completed: int, skipped: int, failed: int, remaining: int)

  const MAX_REWRAP_BATCH: nat := 100

  /** Rewraps a batch of at most a hundred. Nothing fails and nothing is skipped; exactly the
      batch leaves the pending set; and no envelope changes but in its wrapper. */
  method RewrapDEKs(ghost cfg: Config, ghost w: World, repo: MemoryRepository, ring: Keyring, limit: int,
                    nonces: seq<Bytes>)
    returns (r: Option<RewrapResult>, ghost batch: seq<Metadata>)
    requires Inv(cfg, w) && w.repo == repo.State() && w.ring == ring && repo.Valid()
    requires limit <= |nonces|
    modifies repo
    ensures r.Some? <==> 1 <= limit <= 100
    ensures r == None ==> batch == [] && repo.State() == old(repo.State())
    ensures r.Some? ==>
              && IsBatch(ring, old(repo.entries), limit, batch)
              && r.value.requested == r.value.completed == |batch| && r.value.skipped == 0 && r.value.failed == 0
              && r.value.remaining == |set u | u in repo.entries && Stale(ring, repo.entries[u])|
    ensures Pending(ring, repo.entries) == Pending(ring, old(repo.entries)) - BatchIDs(batch)
    ensures Inv(cfg, w.(repo := repo.State())) && repo.Valid()
    ensures repo.State() == old(repo.State()).(entries := repo.entries) && repo.entries.Keys == old(repo.entries).Keys
    ensures forall u :: u in repo.entries ==> OnlyWrapperDiffers(old(repo.entries)[u], repo.entries[u])
  {
    hide Inv, IsBatch, OnlyWrapperDiffers, Pending, Unwrap, WrappingIdentity, Underway, Wrap, RewrapMatches, BatchIDs,
         Stale;
    batch := [];
    if limit <= 0 || limit > MAX_REWRAP_BATCH {
      NoBatch(cfg, w);
      return None, batch;
    }
    var candidates := repo.ListDEKRewrapCandidates(ring, limit);
    batch := candidates;
    BatchBegins(cfg, w, limit, candidates);
    var tally := RewrapResult(|candidates|, 0, 0, 0, 0);
    for i := 0 to |candidates|
      invariant tally.requested == |candidates| && tally.completed == i && tally.skipped == 0 && tally.failed == 0
      invariant repo.Valid() && repo.State() == w.repo.(entries := repo.entries)
      invariant Underway(cfg, w, candidates, i, repo.entries)
    {
      var candidate := candidates[i];
      BatchMoves(cfg, w, candidates, i, repo.entries, nonces[i]);
      var (id, version) := WrappingIdentity(candidate);
      match Unwrap(ring, candidate.wrappedDEK, id, version)
      case None => tally := tally.(failed := tally.failed + 1);
      case Some(dek) =>
        var committed := repo.CommitDEKRewrap(candidate, Wrap(ring, dek, nonces[i]), ring.id, ring.version);
        tally := if committed then tally.(completed := tally.completed + 1) else tally.(skipped := tally.skipped + 1);
    }
    BatchEnds(cfg, w, candidates, repo.entries);
    r := Some(tally.(remaining := |set u | u in repo.entries && Stale(ring, repo.entries[u])|));
  }

  lemma NoBatch(cfg: Config, w: World)
    ensures Pending(w.ring, w.repo.entries) == Pending(w.ring, w.repo.entries) - BatchIDs([])
    ensures w == w.(repo := w.repo)
    ensures forall u :: u in w.repo.entries ==> OnlyWrapperDiffers(w.repo.entries[u], w.repo.entries[u])
  {
    assert BatchIDs([]) == {};
    WrappersSame(w.repo.entries);
  }

  datatype WorkerResult = WorkerResult(examined: int, completed: int, failed: int)

  /** Whether the key the worker makes for this file is one that `Purge` accepts. */
  predicate Keyed(r: Repo, f: string, key: KeyFormat) {
    f in r.files && r.files[f].purgeAfter.Some? && ValidIdempotencyKey(key(f, r.files[f].purgeAfter.value))
  }

  /** The files of the page that have such a key, in its order. */
  function KeyedPage(r: Repo, page: seq<string>, key: KeyFormat): (kept: seq<string>)
    ensures forall f :: f in kept <==> f in page && Keyed(r, f, key)
  {
    if page == [] then []
    else
      var n := |page| - 1;
      assert page == page[..n] + [page[n]];
      if Keyed(r, page[n], key) then KeyedPage(r, page[..n], key) + [page[n]] else KeyedPage(r, page[..n], key)
  }

  lemma {:induction false} KeyedApart(r: Repo, page: seq<string>, key: KeyFormat)
    requires forall i, j :: 0 <= i < j < |page| ==> page[i] != page[j]
    ensures forall i, j :: 0 <= i < j < |KeyedPage(r, page, key)| ==>
              KeyedPage(r, page, key)[i] != KeyedPage(r, page, key)[j]
  {
    hide Keyed;
    if page != [] {
      KeyedApart(r, page[..|page| - 1], key);
    }
  }

  lemma KeyedHasRows(r: Repo, page: seq<string>, key: KeyFormat)
    ensures HaveRows(r, KeyedPage(r, page, key))
  {
    forall i | 0 <= i < |KeyedPage(r, page, key)| ensures Keyed(r, KeyedPage(r, page, key)[i], key) {
      assert KeyedPage(r, page, key)[i] in KeyedPage(r, page, key);
    }
  }

  /** Goes once through the due files. Every one it examines is purged if the key made for it
      is acceptable, and otherwise counted as failed. */
  method ProcessDuePurges(ghost cfg: Config, ghost w: World, repo: MemoryRepository, limit: int, now: Time,
                          key: KeyFormat)
    returns (r: WorkerResult, ghost page: seq<string>)
    requires Inv(cfg, w) && w.repo == repo.State() && repo.Valid()
    modifies repo
    ensures IsPage(old(repo.State()), now, limit, page) &&
            HaveRows(old(repo.State()), KeyedPage(old(repo.State()), page, key))
    ensures repo.State() == Processed(old(repo.State()), KeyedPage(old(repo.State()), page, key), now, key)
    ensures r.examined == PageSize(limit, |Eligible(old(repo.State()), now)|)
    ensures r.completed == |KeyedPage(old(repo.State()), page, key)| && r.completed + r.failed == r.examined
    ensures Inv(cfg, w.(repo := repo.State())) && repo.Valid()
    ensures PurgedIfKeyed(old(repo.files), repo.files, page, key)
  {
    hide Inv, Purges, Purge, PurgeGuard, Eligible, Due, KeyedPage, PurgedIfKeyed;
    var due := repo.EligibleForPurge(now, limit);
    page := due;
    var rows := repo.files;
    PageHasRows(w.repo, now, limit, due);
    KeyedHasRows(w.repo, due[..0], key);
    KeyedNone(w.repo, key);
    r := WorkerResult(|due|, 0, 0);
    for i := 0 to |due|
      invariant repo.Valid() &&
                r == WorkerResult(|due|, |KeyedPage(w.repo, due[..i], key)|, i - |KeyedPage(w.repo, due[..i], key)|)
      invariant HaveRows(w.repo, KeyedPage(w.repo, due[..i], key))
      invariant repo.State() == Processed(w.repo, KeyedPage(w.repo, due[..i], key), now, key)
    {
      var f := due[i];
      var name := key(f, rows[f].purgeAfter.value);
      KeyedMore(w.repo, due, i, key);
      if !ValidIdempotencyKey(name) {
        r := r.(failed := r.failed + 1);
      } else {
        NextGoesThrough(cfg, w, now, limit, due, i, key);
        ProcessedMore(w.repo, KeyedPage(w.repo, due[..i], key), f, now, key);
        var outcome := repo.Purge(PurgeID(rows[f].ownerID, f, name), now);
        r := if outcome.Success? then r.(completed := r.completed + 1) else r.(failed := r.failed + 1);
      }
      KeyedHasRows(w.repo, due[..i + 1], key);
    }
    assert due[..|due|] == due;
    KeyedProgress(cfg, w, now, limit, due, |due|, key);
    PagePurged(cfg, w, now, limit, due, key);
  }

  /** Of these files those whose keys, of eight to 128 characters, are acceptable are purged
      now, and nothing has happened to any other. */
  ghost predicate PurgedIfKeyed(files: Files, files': Files, page: seq<string>, key: KeyFormat) {
    && files'.Keys == files.Keys
    && forall f :: f in files ==>
         if f in page && files[f].purgeAfter.Some? && 8 <= |key(f, files[f].purgeAfter.value)| <= 128
         then files'[f].purgedAt.Some? else files'[f] == files[f]
  }

  lemma PagePurged(cfg: Config, w: World, now: Time, limit: int, page: seq<string>, key: KeyFormat)
    requires Inv(cfg, w) && IsPage(w.repo, now, limit, page)
    requires HaveRows(w.repo, KeyedPage(w.repo, page, key))
    ensures PurgedIfKeyed(w.repo.files, Processed(w.repo, KeyedPage(w.repo, page, key), now, key).files, page, key)
  {
    hide IsPage, Inv, Processed, GoesThrough, Eligible, KeyedPage, Keyed, Settled, PurgedIfKeyed, HaveRows, Elements;
    var kept := KeyedPage(w.repo, page, key);
    assert page[..|page|] == page;
    KeyedProgress(cfg, w, now, limit, page, |page|, key);
    PageSettles(w.repo, kept, now, key);
    forall f | f in page ensures f in Eligible(w.repo, now) { PageEligible(w.repo, now, limit, page, f); }
    SettledPurged(w.repo, Processed(w.repo, kept, now, key), now, page, kept, key);
  }

  lemma SettledPurged(r: Repo, r': Repo, now: Time, page: seq<string>, kept: seq<string>, key: KeyFormat)
    requires Settled(r, r', Elements(kept)) && Eligible(r', now) == Eligible(r, now) - Elements(kept)
    requires forall f :: f in page ==> f in Eligible(r, now)
    requires forall f :: f in kept <==> f in page && Keyed(r, f, key)
    ensures PurgedIfKeyed(r.files, r'.files, page, key)
  {
    forall f | f in r.files && f in kept ensures r'.files[f].purgedAt.Some? {
      KeptElements(kept, f);
      if r'.files[f] == r.files[f] { assert f in Eligible(r', now); }
    }
    forall f | f in r.files && f !in kept ensures r'.files[f] == r.files[f] { KeptElements(kept, f); }
    hide Eligible, Due;
  }

  lemma PageEligible(r: Repo, now: Time, limit: int, page: seq<string>, f: string)
    requires IsPage(r, now, limit, page) && f in page
    ensures f in Eligible(r, now)
  {
    hide Eligible;
    var i :| 0 <= i < |page| && page[i] == f;
  }

  lemma KeptElements(kept: seq<string>, f: string)
    ensures f in kept <==> f in Elements(kept)
  {
    if f in kept { var i :| 0 <= i < |kept| && kept[i] == f; }
  }

  lemma KeyedNone(r: Repo, key: KeyFormat)
    ensures forall page: seq<string> :: KeyedPage(r, page[..0], key) == []
  {}

  lemma KeyedMore(r: Repo, page: seq<string>, i: nat, key: KeyFormat)
    requires i < |page|
    ensures KeyedPage(r, page[..i + 1], key)
         == if Keyed(r, page[i], key) then KeyedPage(r, page[..i], key) + [page[i]] else KeyedPage(r, page[..i], key)
  {
    assert page[..i + 1][..i] == page[..i];
  }

  lemma ProcessedMore(r: Repo, kept: seq<string>, f: string, now: Time, key: KeyFormat)
    requires HaveRows(r, kept) && Keyed(r, f, key)
    ensures HaveRows(r, kept + [f])
    ensures Processed(r, kept + [f], now, key) == Purge(Processed(r, kept, now, key), ScheduledOp(r, f, key), now)
  {
    hide Purge, Processed;
    assert HaveRows(r, kept + [f]);
    var more := kept + [f];
    assert more[..|more| - 1] == kept;
    ProcessedLast(r, more, now, key);
  }

  lemma ProcessedLast(r: Repo, page: seq<string>, now: Time, key: KeyFormat)
    requires page != [] && HaveRows(r, page)
    ensures HaveRows(r, page[..|page| - 1])
    ensures Processed(r, page, now, key) ==
            Purge(Processed(r, page[..|page| - 1], now, key), ScheduledOp(r, page[|page| - 1], key), now)
  {
    hide Purge;
  }

  /** What `PageProgress` says of the keyed files among the first i. */
  lemma KeyedProgress(cfg: Config, w: World, now: Time, limit: int, page: seq<string>, i: nat, key: KeyFormat)
    requires Inv(cfg, w) && IsPage(w.repo, now, limit, page) && i <= |page|
    ensures
      var kept := KeyedPage(w.repo, page[..i], key);
      && HaveRows(w.repo, kept) && GoesThrough(w.repo, kept, now, key)
      && Inv(cfg, w.(repo := Processed(w.repo, kept, now, key)))
      && Eligible(Processed(w.repo, kept, now, key), now) == Eligible(w.repo, now) - Elements(kept)
  {
    hide Inv, Eligible, GoesThrough, Processed, Keyed;
    var kept := KeyedPage(w.repo, page[..i], key);
    KeyedHasRows(w.repo, page[..i], key);
    KeyedApart(w.repo, page[..i], key);
    forall k | 0 <= k < |kept| ensures kept[k] in Eligible(w.repo, now) {
      assert kept[k] in kept;
    }
    hide KeyedPage;
    PageProgress(cfg, w, now, kept, key);
  }

  lemma NextGoesThrough(cfg: Config, w: World, now: Time, limit: int, page: seq<string>, i: nat, key: KeyFormat)
    requires Inv(cfg, w) && IsPage(w.repo, now, limit, page) && i < |page| && Keyed(w.repo, page[i], key)
    ensures HaveRows(w.repo, KeyedPage(w.repo, page[..i], key))
    ensures PurgeOutcome(Processed(w.repo, KeyedPage(w.repo, page[..i], key), now, key),
                         ScheduledOp(w.repo, page[i], key), now).Success?
  {
    hide Inv, Due, Eligible, GoesThrough, Processed, Purges, PurgeOutcome, PurgeGuard, KeyedPage;
    KeyedProgress(cfg, w, now, limit, page, i + 1, key);
    KeyedMore(w.repo, page, i, key);
    var kept := KeyedPage(w.repo, page[..i + 1], key);
    LastGoesThrough(w.repo, kept, now, key);
    assert kept[..|kept| - 1] == KeyedPage(w.repo, page[..i], key);
  }

  lemma LastGoesThrough(r: Repo, page: seq<string>, now: Time, key: KeyFormat)
    requires page != [] && HaveRows(r, page) && GoesThrough(r, page, now, key)
    ensures HaveRows(r, page[..|page| - 1])
    ensures PurgeOutcome(Processed(r, page[..|page| - 1], now, key), ScheduledOp(r, page[|page| - 1], key),
                         now).Success?
  {
    hide PurgeGuard, Processed, Erased, ErasedObjects;
  }
}
