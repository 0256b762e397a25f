/** Moving data keys to the ring's current key, one compare-and-swap at a time. */
module StoreRewrap {
  import opened Wrappers
  import opened Framing
  import opened Envelope
  import opened StoreModel
  import opened StoreInvariant

  /** A wrapper under some key other than the ring's current one. */
  predicate Stale(ring: Keyring, m: Metadata) { WrappingIdentity(m) != (ring.id, ring.version) }

  /** Not recorded as wrapped under the ring's key in its current version; where no wrapping was
      recorded the envelope's own key counts. */
  lemma StaleIff(ring: Keyring, m: Metadata)
    ensures Stale(ring, m) <==>
            if m.wrappingKEKID == "" || m.wrappingKEKVersion == ""
            then m.kekID != ring.id || m.kekVersion != ring.version
            else m.wrappingKEKID != ring.id || m.wrappingKEKVersion != ring.version
  {}

  /** The versions a rewrap still has to reach. */
  function Pending(ring: Keyring, entries: Entries): set<OperationID> {
    set u | u in entries && Live(entries[u]) && Stale(ring, entries[u])
  }

  function BatchIDs(batch: seq<Metadata>): set<OperationID> {
    set i | 0 <= i < |batch| :: batch[i].uploadID
  }

  /** What `ListDEKRewrapCandidates` may return: stale live versions as they are stored, in
      any order, cut off at the limit. */
  ghost predicate IsBatch(ring: Keyring, entries: Entries, limit: nat, batch: seq<Metadata>) {
    && (forall i :: 0 <= i < |batch| ==> batch[i].uploadID in entries && batch[i] == entries[batch[i].uploadID])
    && (forall i, j :: 0 <= i < j < |batch| ==> batch[i].uploadID != batch[j].uploadID)
    && BatchIDs(batch) <= Pending(ring, entries)
    && |batch| <= limit
    && (|batch| < limit ==> BatchIDs(batch) == Pending(ring, entries))
  }

  /** A batch holds stored, live and stale versions, and all of them when it is not full. */
  lemma BatchIs(ring: Keyring, entries: Entries, limit: nat, batch: seq<Metadata>)
    requires IsBatch(ring, entries, limit, batch)
    ensures forall i :: 0 <= i < |batch| ==>
              && batch[i].uploadID in entries && batch[i] == entries[batch[i].uploadID]
              && batch[i].wrappedDEK.Some? && Stale(ring, batch[i])
    ensures |batch| < limit ==> forall u :: u in entries && entries[u].wrappedDEK.Some? && Stale(ring, entries[u]) ==>
              exists i :: 0 <= i < |batch| && batch[i].uploadID == u
  {
    hide Stale;
    forall i | 0 <= i < |batch| ensures batch[i].uploadID in Pending(ring, entries) {
      assert batch[i].uploadID in BatchIDs(batch);
    }
    if |batch| < limit {
      forall u | u in entries && entries[u].wrappedDEK.Some? && Stale(ring, entries[u])
        ensures exists i :: 0 <= i < |batch| && batch[i].uploadID == u
      {
        assert u in BatchIDs(batch);
      }
    }
  }

  lemma BatchGrows(batch: seq<Metadata>, m: Metadata)
    ensures BatchIDs(batch + [m]) == BatchIDs(batch) + {m.uploadID}
  {
    var longer := batch + [m];
    assert longer[|batch|] == m;
    forall u | u in BatchIDs(batch) ensures u in BatchIDs(longer) {
      var i :| 0 <= i < |batch| && batch[i].uploadID == u;
      assert longer[i].uploadID == u;
    }
  }

  lemma BatchLive(ring: Keyring, entries: Entries, limit: nat, batch: seq<Metadata>)
    requires IsBatch(ring, entries, limit, batch)
    ensures forall i :: 0 <= i < |batch| ==>
              Live(batch[i]) && batch[i].uploadID in entries && batch[i] == entries[batch[i].uploadID]
  {
    forall i | 0 <= i < |batch| ensures Live(batch[i]) {
      assert batch[i].uploadID in BatchIDs(batch);
    }
  }

  /** A candidate that is still what is stored unwraps, is committed, and is pending no more;
      nothing but its own wrapper changes, and the data key inside stays the same. */
  lemma RewrapOne(cfg: Config, w: World, candidate: Metadata, nonce: Bytes)
    requires Inv(cfg, w) && candidate.uploadID in w.repo.entries && w.repo.entries[candidate.uploadID] == candidate &&
             Live(candidate)
    ensures
      var (id, version) := WrappingIdentity(candidate);
      Unwrap(w.ring, candidate.wrappedDEK, id, version) == Some(candidate.wrappedDEK.value.dek)
    ensures RewrapMatches(w.repo, candidate) && ValidRing(w.ring)
    ensures RewrapStep(w, candidate, nonce).repo
         == w.repo.(entries := w.repo.entries[candidate.uploadID := Rewrapped(w.ring, candidate,
                                                                              candidate.wrappedDEK.value.dek, nonce)])
    ensures Pending(w.ring, RewrapStep(w, candidate, nonce).repo.entries) ==
            Pending(w.ring, w.repo.entries) - {candidate.uploadID}
  {
    hide EntriesOK, CleaningOK, RestoresFaithful, Lineage, Aimed, HistoriesOK, LifecycleOK, GrantsOK, ValidMetadata;
    assert Unwraps(cfg, w.ring, candidate);
    hide Readable;
  }

  /** Where a batch stands before its i-th candidate, the world being w when it was read. */
  ghost predicate Underway(cfg: Config, w: World, batch: seq<Metadata>, i: nat, entries: Entries) {
    && i <= |batch|
    && Inv(cfg, w.(repo := w.repo.(entries := entries)))
    && entries.Keys == w.repo.entries.Keys
    && (forall k :: i <= k < |batch| ==>
        batch[k].uploadID in entries && entries[batch[k].uploadID] == batch[k] && Live(batch[k]))
    && Pending(w.ring, entries) == Pending(w.ring, w.repo.entries) - BatchIDs(batch[..i])
    && (forall u :: u in entries ==> OnlyWrapperDiffers(w.repo.entries[u], entries[u]))
  }

  lemma BatchBegins(cfg: Config, w: World, limit: nat, batch: seq<Metadata>)
    requires Inv(cfg, w) && IsBatch(w.ring, w.repo.entries, limit, batch)
    ensures |batch| <= limit && forall k, l :: 0 <= k < l < |batch| ==> batch[k].uploadID != batch[l].uploadID
    ensures Underway(cfg, w, batch, 0, w.repo.entries)
  {
    BatchLive(w.ring, w.repo.entries, limit, batch);
    NoIDs(batch);
    WrappersSame(w.repo.entries);
    hide Inv, Pending, BatchIDs, OnlyWrapperDiffers, Live;
    assert w.(repo := w.repo.(entries := w.repo.entries)) == w;
  }

  lemma NoIDs(batch: seq<Metadata>)
    ensures BatchIDs(batch[..0]) == {}
  {}

  lemma WrappersSame(entries: Entries)
    ensures forall u :: u in entries ==> OnlyWrapperDiffers(entries[u], entries[u])
  {}

  lemma BatchEnds(cfg: Config, w: World, batch: seq<Metadata>, entries: Entries)
    requires Underway(cfg, w, batch, |batch|, entries)
    ensures Inv(cfg, w.(repo := w.repo.(entries := entries))) && entries.Keys == w.repo.entries.Keys
    ensures Pending(w.ring, entries) == Pending(w.ring, w.repo.entries) - BatchIDs(batch)
    ensures forall u :: u in entries ==> OnlyWrapperDiffers(w.repo.entries[u], entries[u])
  {
    hide Inv, Pending, OnlyWrapperDiffers;
    assert batch[..|batch|] == batch;
  }

  lemma WrapperDiffers(was: Metadata, m: Metadata, ring: Keyring, dek: Key, nonce: Bytes)
    requires OnlyWrapperDiffers(was, m) && ValidRing(ring)
    ensures OnlyWrapperDiffers(was, Rewrapped(ring, m, dek, nonce))
  {}

  /** The next candidate unwraps, its commit goes through, and the batch moves on by one. */
  lemma BatchMoves(cfg: Config, w: World, batch: seq<Metadata>, i: nat, entries: Entries, nonce: Bytes)
    requires i < |batch| && Underway(cfg, w, batch, i, entries)
    ensures
      var m := batch[i];
      var (id, version) := WrappingIdentity(m);
      && ValidRing(w.ring) && RewrapMatches(w.repo.(entries := entries), m)
      && Unwrap(w.ring, m.wrappedDEK, id, version) == Some(m.wrappedDEK.value.dek)
      && m.uploadID in entries && entries[m.uploadID] == m
    ensures
      Underway(cfg, w, batch, i + 1,
               entries[batch[i].uploadID := Rewrapped(w.ring, batch[i], batch[i].wrappedDEK.value.dek, nonce)])
    requires forall k, l :: 0 <= k < l < |batch| ==> batch[k].uploadID != batch[l].uploadID
  {
    hide Inv, Pending, BatchIDs, OnlyWrapperDiffers, Unwrap, WrappingIdentity, Rewrapped, RewrapStep;
    var m := batch[i];
    var now := w.(repo := w.repo.(entries := entries));
    RewrapOne(cfg, now, m, nonce);
    RewrapKeeps(cfg, now, m, nonce);
    RewrapOnlyRepo(now, m, nonce);
    WrapperDiffers(w.repo.entries[m.uploadID], m, w.ring, m.wrappedDEK.value.dek, nonce);
    assert batch[..i + 1] == batch[..i] + [m];
    BatchGrows(batch[..i], m);
  }

  lemma RewrapOnlyRepo(w: World, candidate: Metadata, nonce: Bytes)
    ensures RewrapStep(w, candidate, nonce) == w.(repo := RewrapStep(w, candidate, nonce).repo)
  {}

  // --- Collecting the candidates ---------------------------------------------

  /** The batch holds every pending version outside `rest`. */
  ghost predicate Collected(ring: Keyring, entries: Entries, rest: set<OperationID>, batch: seq<Metadata>) {
    && rest <= entries.Keys
    && BatchIDs(batch) == Pending(ring, entries) - rest
    && (forall i :: 0 <= i < |batch| ==>
        batch[i].uploadID in entries && batch[i].uploadID !in rest && batch[i] == entries[batch[i].uploadID])
    && (forall i, j :: 0 <= i < j < |batch| ==> batch[i].uploadID != batch[j].uploadID)
  }

  lemma CollectedNone(ring: Keyring, entries: Entries)
    ensures Collected(ring, entries, entries.Keys, [])
  {}

  lemma CollectedOne(ring: Keyring, entries: Entries, rest: set<OperationID>, batch: seq<Metadata>, u: OperationID)
    requires Collected(ring, entries, rest, batch) && u in rest && entries[u].uploadID == u
    ensures Collected(ring, entries, rest - {u}, if Live(entries[u]) &&
                      Stale(ring, entries[u]) then batch + [entries[u]] else batch)
  {
    BatchGrows(batch, entries[u]);
    assert u in Pending(ring, entries) <==> Live(entries[u]) && Stale(ring, entries[u]);
    hide Pending, BatchIDs, Stale;
  }

  lemma CollectedBatch(ring: Keyring, entries: Entries, rest: set<OperationID>, batch: seq<Metadata>, limit: nat)
    requires Collected(ring, entries, rest, batch) && |batch| <= limit && (rest == {} || |batch| == limit)
    ensures IsBatch(ring, entries, limit, batch)
  {
    hide Pending, BatchIDs;
  }
}
