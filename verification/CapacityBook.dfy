/** The in-memory capacity book: maps updated in place and 64-bit sums taken in loops. */
module CapacityBook {
  import opened Wrappers
  import opened Framing
  import opened IngestModel
  import opened Sums
  import opened Capacity
  import C = Capacity

  /** 64-bit addition: it wraps around. */
  function Add64(a: int, b: int): int {
    var n := (a + b) % TWO_TO_64;
    if n < 0x8000_0000_0000_0000 then n else n - TWO_TO_64
  }

  lemma AddFits(a: int, b: int)
    requires FitsInt64(a + b)
    ensures Add64(a, b) == a + b
  {}

  /** An owner's idempotency key, as a digest. */
  type IdempotencyKey = (string, string)

  class MemoryRepository {
    var records: map<string, Record>
    var reservations: map<string, Reservation>
    var hashes: map<string, string>
    var byIdempotency: map<IdempotencyKey, string>

    ghost function State(): Book
      reads this
    {
      Book(records, reservations)
    }

    /** The index leads from each row's owner and key digest back to that row, and nowhere
        else: so an owner has one row per key. */
    ghost predicate Indexed()
      reads this
    {
      && hashes.Keys == records.Keys
      && (forall u :: u in records ==>
          (records[u].ownerID, hashes[u]) in byIdempotency && byIdempotency[(records[u].ownerID, hashes[u])] == u)
      && (forall k :: k in byIdempotency ==>
            byIdempotency[k] in records && k == (records[byIdempotency[k]].ownerID, hashes[byIdempotency[k]]))
    }

    constructor ()
      ensures State() == Book(map[], map[]) && Indexed()
    {
      records, reservations, hashes, byIdempotency := map[], map[], map[], map[];
    }

    /** One row per owner and key: a retry finds the first one's. */
    method Create(u: string, owner: string, hash: string) returns (found: string, reused: bool)
      requires Indexed() && u !in records && u !in reservations
      modifies this`records, this`hashes, this`byIdempotency
      ensures Indexed() && found in records
      ensures reused == ((owner, hash) in old(byIdempotency))
      ensures reused ==> found == old(byIdempotency)[(owner, hash)] && State() == old(State())
      ensures !reused ==> found == u && State() == C.Create(old(State()), u, owner) && hashes == old(hashes)[u := hash]
      ensures !reused ==> records == old(records)[u := Record(owner, 0, Quarantined)]
                          && byIdempotency == old(byIdempotency)[(owner, hash) := u]
    {
      if (owner, hash) in byIdempotency { return byIdempotency[(owner, hash)], true; }
      records := records[u := Record(owner, 0, Quarantined)];
      hashes, byIdempotency := hashes[u := hash], byIdempotency[(owner, hash) := u];
      return u, false;
    }

    method Update(u: string, size: nat, status: Status) returns (found: bool)
      modifies this`records
      ensures State() == C.Update(old(State()), u, size, status) && found == (u in old(records))
      ensures records == if found then old(records)[u := Record(old(records)[u].ownerID, size, status)]
                         else old(records)
      ensures old(Indexed()) ==> Indexed()
    {
      if u !in records { return false; }
      records := records[u := records[u].(size := size, status := status)];
      return true;
    }

    /** The key is free again once its row is gone. */
    method Delete(u: string)
      requires Indexed()
      modifies this
      ensures Indexed() && State() == C.Delete(old(State()), u)
      ensures u in old(records) ==> (old(records)[u].ownerID, old(hashes)[u]) !in byIdempotency
      ensures records == old(records) - {u}
      ensures reservations == if u in old(records) then old(reservations) - {u} else old(reservations)
    {
      if u in records {
        byIdempotency := byIdempotency - {(records[u].ownerID, hashes[u])};
        records, reservations, hashes := records - {u}, reservations - {u}, hashes - {u};
      }
    }

    method ReleaseCapacity(u: string)
      modifies this`reservations
      ensures State() == Release(old(State()), u) && reservations == old(reservations) - {u}
    {
      reservations := reservations - {u};
    }

    /** Drops expired reservations, one after another. */
    method Sweep(now: Time)
      modifies this`reservations
      ensures State() == Expired(old(State()), now)
      ensures forall u :: u in reservations <==> u in old(reservations) && old(reservations)[u].expiresAt > now
      ensures forall u :: u in reservations ==> reservations[u] == old(reservations)[u]
    {
      var rest := reservations.Keys;
      while rest != {}
        invariant rest <= reservations.Keys <= old(reservations).Keys
        invariant forall u :: u in reservations ==> reservations[u] == old(reservations)[u]
        invariant forall u :: u in old(reservations) && u !in rest ==>
                    (u in reservations <==> old(reservations)[u].expiresAt > now)
        decreases |rest|
      {
        var u :| u in rest;
        if reservations[u].expiresAt <= now {
          reservations := reservations - {u};
        }
        rest := rest - {u};
      }
    }

    /** What is active and how much it holds. Expired reservations are dropped first. */
    method CapacityReservationSummary(now: Time) returns (active: nat, bytes: int)
      requires Covered(State()) && FitsInt64(Total(State(), None))
      modifies this`reservations
      ensures State() == Expired(old(State()), now)
      ensures active == |reservations| && bytes == Sum(Held(State()))
    {
      SweepCharges(State(), now, None);
      Sweep(now);
      HeldIsCharged(State());
      hide Sum, Total, Covered, Expired, Held;
      active, bytes := AddHeld();
    }

    method AddHeld() returns (active: nat, bytes: int)
      requires FitsInt64(Sum(Held(State())))
      ensures active == |reservations| && bytes == Sum(Held(State()))
    {
      active, bytes := 0, 0;
      ghost var held := Held(State());
      assert held.Keys == reservations.Keys && forall u :: u in held ==> held[u] == reservations[u].bytes;
      PartNone(held);
      hide Part, Sum, Add64, Held;
      ghost var done: set<string> := {};
      var rest := reservations.Keys;
      while rest != {}
        invariant done !! rest && done + rest == reservations.Keys
        invariant active == |done| && bytes == Part(held, done)
        decreases |rest|
      {
        var u :| u in rest;
        PartMore(held, done, u);
        AddFits(bytes, reservations[u].bytes);
        active, bytes := active + 1, Add64(bytes, reservations[u].bytes);
        done, rest := done + {u}, rest - {u};
      }
      PartAll(held, done);
      assert done == reservations.Keys;
    }

    /** Adds up one owner's and everyone's charges the way the source does: rows without a
        reservation first, then the reservations. No sum wraps around. */
    method Usage(owner: string, ghost limit: int) returns (mine: int, all: int)
      requires Covered(State()) && Total(State(), None) <= limit && FitsInt64(limit)
      ensures mine == Total(State(), Some(owner)) && all == Total(State(), None)
    {
      OwnPart(State(), owner);
      hide RowsPart, Add64, Covered, Total;
      var ownerUsage, globalUsage := AddRows(owner);
      var ownerReserved, globalReserved := AddReserved(owner);
      AddFits(ownerUsage, ownerReserved);
      AddFits(globalUsage, globalReserved);
      return Add64(ownerUsage, ownerReserved), Add64(globalUsage, globalReserved);
    }

    method AddRows(owner: string) returns (mine: int, all: int)
      requires FitsInt64(Total(State(), None))
      ensures mine == RowsPart(State(), Some(owner), {}) && all == RowsPart(State(), None, {})
    {
      mine, all := 0, 0;
      NoRows(State(), Some(owner));
      NoRows(State(), None);
      hide RowsPart, Add64, Total, CountsTowardQuota;
      var rest := records.Keys;
      while rest != {}
        invariant rest <= records.Keys
        invariant all == RowsPart(State(), None, rest) && mine == RowsPart(State(), Some(owner), rest)
        decreases |rest|
      {
        var u :| u in rest;
        RowMore(State(), owner, rest, u);
        rest := rest - {u};
        if u !in reservations && CountsTowardQuota(records[u].status) {
          AddFits(all, records[u].size);
          all := Add64(all, records[u].size);
          if records[u].ownerID == owner {
            AddFits(mine, records[u].size);
            mine := Add64(mine, records[u].size);
          }
        }
      }
    }

    /** The reservations alone, on top of what the rows came to. */
    method AddReserved(owner: string) returns (mine: int, all: int)
      requires FitsInt64(Total(State(), None))
      ensures mine == Total(State(), Some(owner)) - RowsPart(State(), Some(owner), {})
      ensures all == Total(State(), None) - RowsPart(State(), None, {})
    {
      mine, all := 0, 0;
      RowsBelow(State(), Some(owner));
      RowsBelow(State(), None);
      hide RowsPart, HeldPart, Add64, Total;
      var rest := reservations.Keys;
      while rest != {}
        invariant rest <= reservations.Keys && 0 <= all && 0 <= mine
        invariant all == HeldPart(State(), None, rest) - RowsPart(State(), None, {})
        invariant mine == HeldPart(State(), Some(owner), rest) - RowsPart(State(), Some(owner), {})
        decreases |rest|
      {
        var u :| u in rest;
        ReservedMore(State(), owner, rest, u);
        rest := rest - {u};
        AddFits(all, reservations[u].bytes);
        all := Add64(all, reservations[u].bytes);
        if reservations[u].ownerID == owner {
          AddFits(mine, reservations[u].bytes);
          mine := Add64(mine, reservations[u].bytes);
        }
      }
    }

    /** Grants or refuses a reservation. As long as the total is within a limit that leaves
        room for one more request below the largest 64-bit number, nothing wraps around. */
    method ReserveCapacity(q: Request, ghost limit: int) returns (r: Result<(), CapacityError>)
      requires Covered(State()) && Total(State(), None) <= limit &&
               FitsInt64(limit + (if q.bytes > 0 then q.bytes else 0))
      requires FitsInt64(q.capacity) && FitsInt64(q.reserve) && q.reserve >= 0
      modifies this`reservations
      ensures State() == Reserve(old(State()), q)
      ensures r.Success? <==> Sensible(q) && Decide(Expired(old(State()), q.now), q).Success?
      ensures r.Failure? ==> r.error == if Sensible(q) then Decide(Expired(old(State()), q.now), q).error
              else InvalidRequest
      ensures
        var sensible := q.bytes >= 1 && q.ownerQuota >= 1 && q.capacity > q.reserve && q.expiresAt > q.now;
        var held := q.uploadID in old(reservations) && old(reservations)[q.uploadID].expiresAt > q.now;
        var swept := Expired(old(State()), q.now);
        && (r == Failure(InvalidRequest) <==> !sensible)
        && (!sensible ==> State() == old(State()))
        && (r == Failure(Conflict) <==>
            && sensible && held
            && !(old(reservations)[q.uploadID].ownerID == q.ownerID && old(reservations)[q.uploadID].bytes == q.bytes))
        && (r == Failure(QuotaExceeded) <==>
            sensible && !held && Total(swept, Some(q.ownerID)) + q.bytes > q.ownerQuota)
        && (r == Failure(CapacityExceeded) <==>
            && sensible && !held && Total(swept, Some(q.ownerID)) + q.bytes <= q.ownerQuota
            && Total(swept, None) + q.bytes + q.reserve > q.capacity)
        && (sensible ==>
              && (forall u :: u in reservations <==>
                    || (u in old(reservations) && old(reservations)[u].expiresAt > q.now)
                    || (u == q.uploadID && r.Success?))
              && (forall u :: u in reservations ==>
                    reservations[u] == if u in old(reservations) && old(reservations)[u].expiresAt > q.now
                                       then old(reservations)[u]
                                       else Reservation(q.ownerID, q.bytes, q.expiresAt)))
    {
      if q.bytes <= 0 || q.ownerQuota <= 0 || q.capacity <= q.reserve || q.expiresAt <= q.now {
        return Failure(InvalidRequest);
      }
      SweepCharges(State(), q.now, None);
      SweepCharges(State(), q.now, Some(q.ownerID));
      Sweep(q.now);
      hide Add64, Expired, Covered;
      if q.uploadID in reservations {
        var held := reservations[q.uploadID];
        return if held.ownerID == q.ownerID && held.bytes == q.bytes then Success(()) else Failure(Conflict);
      }
      var mine, all := Usage(q.ownerID, limit);
      OwnPart(State(), q.ownerID);
      AddFits(mine, q.bytes);
      AddFits(all, q.bytes);
      AddFits(q.capacity, -q.reserve);
      if Add64(mine, q.bytes) > q.ownerQuota { return Failure(QuotaExceeded); }
      if Add64(all, q.bytes) > Add64(q.capacity, -q.reserve) { return Failure(CapacityExceeded); }
      reservations := reservations[q.uploadID := Reservation(q.ownerID, q.bytes, q.expiresAt)];
      return Success(());
    }
  }

  lemma OwnPart(b: Book, owner: string)
    ensures Total(b, Some(owner)) <= Total(b, None)
  {
    SumMonotone(Charges(b, None), Charges(b, Some(owner)));
  }

  function Held(b: Book): map<string, nat> { map u | u in b.reservations :: b.reservations[u].bytes }

  lemma HeldIsCharged(b: Book)
    ensures Sum(Held(b)) <= Total(b, None)
  {
    SumMonotone(Charges(b, None), Held(b));
  }

  /** The charges of some of the uploads. */
  ghost function PartOf(b: Book, who: Option<string>, keys: set<string>): nat { Part(Charges(b, who), keys) }

  /** The unreserved rows, but for those still to come. */
  ghost function RowsPart(b: Book, who: Option<string>, rest: set<string>): nat {
    PartOf(b, who, (b.records.Keys - b.reservations.Keys) - rest)
  }

  /** Everything, but for the reservations still to come. */
  ghost function HeldPart(b: Book, who: Option<string>, rest: set<string>): nat {
    PartOf(b, who, (b.records.Keys + b.reservations.Keys) - rest)
  }

  lemma NoRows(b: Book, who: Option<string>)
    ensures RowsPart(b, who, b.records.Keys) == 0
  {
    assert (b.records.Keys - b.reservations.Keys) - b.records.Keys == {};
    PartNone(Charges(b, who));
  }

  lemma RowsBelow(b: Book, who: Option<string>)
    ensures HeldPart(b, who, b.reservations.Keys) == RowsPart(b, who, {})
    ensures HeldPart(b, who, {}) == Total(b, who)
  {
    assert (b.records.Keys + b.reservations.Keys) - b.reservations.Keys == (b.records.Keys - b.reservations.Keys) - {};
    assert (b.records.Keys + b.reservations.Keys) - {} == b.records.Keys + b.reservations.Keys;
    PartAll(Charges(b, who), b.records.Keys + b.reservations.Keys);
  }

  lemma PartFits(b: Book, owner: string, keys: set<string>)
    ensures PartOf(b, None, keys) <= Total(b, None) &&
            PartOf(b, Some(owner), keys) <= Total(b, Some(owner)) <= Total(b, None)
  {
    SumMonotone(Charges(b, None), Restrict(Charges(b, None), keys));
    SumMonotone(Charges(b, Some(owner)), Restrict(Charges(b, Some(owner)), keys));
    OwnPart(b, owner);
  }

  /** Passing over one row adds its size if it is unreserved and counts. */
  lemma RowMore(b: Book, owner: string, rest: set<string>, u: string)
    requires u in rest && u in b.records
    ensures
      var charge := if u !in b.reservations && CountsTowardQuota(b.records[u].status) then b.records[u].size else 0;
      && RowsPart(b, None, rest - {u}) == RowsPart(b, None, rest) + charge <= Total(b, None)
      && RowsPart(b, Some(owner), rest - {u}) == RowsPart(b, Some(owner), rest) +
         (if b.records[u].ownerID == owner then charge else 0) <= Total(b, None)
  {
    var rows := b.records.Keys - b.reservations.Keys;
    OwnPart(b, owner);
    hide Part;
    if u in b.reservations {
      assert rows - (rest - {u}) == rows - rest;
      PartFits(b, owner, rows - rest);
    } else {
      RowCharge(b, u, owner);
      PartMore(Charges(b, None), rows - rest, u);
      PartMore(Charges(b, Some(owner)), rows - rest, u);
      assert rows - (rest - {u}) == rows - rest + {u};
    }
    hide Charges;
  }

  lemma ReservedMore(b: Book, owner: string, rest: set<string>, u: string)
    requires u in rest && u in b.reservations
    ensures
      var charge := b.reservations[u].bytes;
      && HeldPart(b, None, rest - {u}) == HeldPart(b, None, rest) + charge <= Total(b, None)
      && HeldPart(b, Some(owner), rest - {u}) == HeldPart(b, Some(owner), rest) +
         (if b.reservations[u].ownerID == owner then charge else 0) <= Total(b, None)
  {
    var keys := b.records.Keys + b.reservations.Keys;
    OwnPart(b, owner);
    ReservedCharge(b, u, owner);
    hide Charges, Part;
    PartMore(Charges(b, None), keys - rest, u);
    PartMore(Charges(b, Some(owner)), keys - rest, u);
    assert keys - (rest - {u}) == keys - rest + {u};
  }

  lemma RowCharge(b: Book, u: string, owner: string)
    requires u in b.records && u !in b.reservations
    ensures
      var charge := if CountsTowardQuota(b.records[u].status) then b.records[u].size else 0;
      && u in Charges(b, None) && Charges(b, None)[u] == charge
      && (u in Charges(b, Some(owner)) <==> b.records[u].ownerID == owner)
      && (u in Charges(b, Some(owner)) ==> Charges(b, Some(owner))[u] == charge)
  {}

  lemma ReservedCharge(b: Book, u: string, owner: string)
    requires u in b.reservations
    ensures u in Charges(b, None) && Charges(b, None)[u] == b.reservations[u].bytes
    ensures u in Charges(b, Some(owner)) <==> b.reservations[u].ownerID == owner
    ensures u in Charges(b, Some(owner)) ==> Charges(b, Some(owner))[u] == b.reservations[u].bytes
  {}
}
