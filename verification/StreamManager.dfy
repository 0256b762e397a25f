/** The manager's quota bookkeeping in place: the steps of one running upload, each taken
    under the lock. */
module StreamManager {
  import opened IngestModel
  import opened Sums
  import opened Capacity
  import opened StreamQuota

  class QuotaManager {
    var uploads: map<string, Record>
    var streams: map<string, nat>
    var ownerReservations: map<string, int>
    var ownerQuotas: map<string, int>
    const defaultOwnerQuota: int

    constructor (defaultQuota: int)
      ensures State() == Manager(map[], map[], map[], map[], defaultQuota)
    {
      uploads, streams, ownerReservations, ownerQuotas := map[], map[], map[], map[];
      defaultOwnerQuota := defaultQuota;
    }

    ghost function State(): Manager
      reads this
    {
      Manager(uploads, streams, ownerReservations, ownerQuotas, defaultOwnerQuota)
    }

    /** The bytes of the owner's finished uploads that count. */
    method OwnerQuotaUsage(owner: string) returns (used: nat)
      ensures used == Sum(Finished(State(), owner))
    {
      used := 0;
      ghost var m := State();
      NothingUsed(m, owner);
      hide UsedPart, Finished, Sum, CountsTowardQuota;
      var rest := uploads.Keys;
      while rest != {}
        invariant rest <= uploads.Keys && used == UsedPart(m, owner, rest)
        decreases |rest|
      {
        var u :| u in rest;
        UsedMore(m, owner, rest, u);
        rest := rest - {u};
        if uploads[u].ownerID == owner && CountsTowardQuota(uploads[u].status) {
          used := used + uploads[u].size;
        }
      }
    }

    method OwnerQuota(owner: string) returns (quota: int)
      ensures quota == Quota(State(), owner)
    {
      return if owner in ownerQuotas then ownerQuotas[owner] else defaultOwnerQuota;
    }

    method Start(u: string, owner: string)
      requires u !in uploads && u !in streams
      modifies this
      ensures State() == Begin(old(State()), u, owner)
      ensures uploads == old(uploads)[u := Record(owner, 0, Quarantined)] && streams == old(streams)[u := 0]
      ensures ownerReservations == old(ownerReservations) && ownerQuotas == old(ownerQuotas)
    {
      uploads, streams := uploads[u := Record(owner, 0, Quarantined)], streams[u := 0];
    }

    /** A repeated key whose upload only the repository knows: its row is taken over as it is. */
    method Reuse(u: string, row: Record)
      requires u !in uploads && u !in streams
      modifies this`uploads
      ensures State() == PutBack(old(State()), u, row) && uploads == old(uploads)[u := row]
    {
      uploads := uploads[u := row];
    }

    /** A chunk of a running upload: held if it fits, otherwise the upload is undone. */
    method Receive(u: string, bytes: nat) returns (held: bool)
      requires u in streams && u in uploads && bytes > 0
      modifies this
      ensures State() == Chunk(old(State()), u, bytes)
      ensures held == Fits(old(State()), u, bytes)
      ensures
        var owner := old(uploads)[u].ownerID;
        var reserved := if owner in old(ownerReservations) then old(ownerReservations)[owner] else 0;
        var quota := if owner in ownerQuotas then ownerQuotas[owner] else defaultOwnerQuota;
        && ownerQuotas == old(ownerQuotas)
        && (held <==> Sum(Finished(old(State()), owner)) + reserved + bytes <= quota)
        && (held ==>
              && uploads == old(uploads) && streams == old(streams)[u := old(streams)[u] + bytes]
              && ownerReservations == old(ownerReservations)[owner := reserved + bytes])
        && (!held ==> uploads == old(uploads) - {u} && streams == old(streams) - {u})
    {
      var owner := uploads[u].ownerID;
      var used := OwnerQuotaUsage(owner);
      var quota := OwnerQuota(owner);
      var reserved := if owner in ownerReservations then ownerReservations[owner] else 0;
      hide Finished, Sum;
      if used + reserved + bytes > quota {
        Undo(u);
        return false;
      }
      ownerReservations := ownerReservations[owner := reserved + bytes];
      streams := streams[u := streams[u] + bytes];
      return true;
    }

    /** Returns what the stream holds and forgets the upload. */
    method Undo(u: string)
      requires u in streams && u in uploads
      modifies this
      ensures State() == Cleanup(old(State()), u)
      ensures uploads == old(uploads) - {u} && streams == old(streams) - {u} && ownerQuotas == old(ownerQuotas)
      ensures old(streams)[u] == 0 ==> ownerReservations == old(ownerReservations)
    {
      if streams[u] > 0 { Return(uploads[u].ownerID, streams[u]); }
      uploads, streams := uploads - {u}, streams - {u};
    }

    method Return(owner: string, held: nat)
      modifies this`ownerReservations
      ensures ownerReservations == GiveBack(old(ownerReservations), owner, held)
      ensures
        var before := if owner in old(ownerReservations) then old(ownerReservations)[owner] else 0;
        ownerReservations == if before > held then old(ownerReservations)[owner := before - held]
                             else old(ownerReservations) - {owner}
    {
      var left := (if owner in ownerReservations then ownerReservations[owner] else 0) - held;
      ownerReservations := ownerReservations[owner := left];
      if ownerReservations[owner] <= 0 {
        ownerReservations := ownerReservations - {owner};
      }
    }

    /** The end of the body: what was held becomes the upload's size. */
    method End(u: string) returns (kept: bool)
      requires u in streams && u in uploads
      modifies this
      ensures State() == Complete(old(State()), u) && kept == (old(streams[u]) > 0)
      ensures kept ==>
                && uploads == old(uploads)[u := Record(old(uploads)[u].ownerID, old(streams)[u],
                                                       old(uploads)[u].status)]
                && streams == old(streams) - {u} && ownerQuotas == old(ownerQuotas)
      ensures !kept ==> uploads == old(uploads) - {u} && streams == old(streams) - {u}
    {
      if streams[u] == 0 {
        Undo(u);
        return false;
      }
      uploads := uploads[u := uploads[u].(size := streams[u])];
      Return(uploads[u].ownerID, streams[u]);
      streams := streams - {u};
      return true;
    }
  }

  /** The part of an owner's finished bytes outside `rest`. */
  ghost function UsedPart(m: Manager, owner: string, rest: set<string>): nat {
    Part(Finished(m, owner), m.uploads.Keys - rest)
  }

  lemma NothingUsed(m: Manager, owner: string)
    ensures UsedPart(m, owner, m.uploads.Keys) == 0 && UsedPart(m, owner, {}) == Sum(Finished(m, owner))
  {
    assert m.uploads.Keys - m.uploads.Keys == {} && m.uploads.Keys - {} == m.uploads.Keys;
    PartNone(Finished(m, owner));
    PartAll(Finished(m, owner), m.uploads.Keys);
  }

  lemma UsedMore(m: Manager, owner: string, rest: set<string>, u: string)
    requires u in rest && u in m.uploads
    ensures UsedPart(m, owner, rest - {u}) == UsedPart(m, owner, rest)
              + if m.uploads[u].ownerID == owner && CountsTowardQuota(m.uploads[u].status) then m.uploads[u].size else 0
  {
    FinishedAt(m, u, owner);
    hide Finished, Part;
    PartMore(Finished(m, owner), m.uploads.Keys - rest, u);
    assert m.uploads.Keys - (rest - {u}) == m.uploads.Keys - rest + {u};
  }
}
