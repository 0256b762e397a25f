/** Quota while bytes stream in: each running upload holds what it has received so far, and
    any number of them interleave chunk by chunk. */
module StreamQuota {
  import opened IngestModel
  import opened Sums
  import opened Capacity

  /** `streams` is the byte count each running upload holds in a local variable;
      `reservations` is the shared per-owner count; an owner without an entry holds nothing. */
  datatype Manager = Manager(
    uploads: map<string, Record>, streams: map<string, nat>, reservations: map<string, int>,
    quotas: map<string, int>, defaultQuota: int)

  function Quota(m: Manager, owner: string): int {
    if owner in m.quotas then m.quotas[owner] else m.defaultQuota
  }

  function Reserved(m: Manager, owner: string): int {
    if owner in m.reservations then m.reservations[owner] else 0
  }

  /** Finished bytes that count, per upload of one owner. */
  function Finished(m: Manager, owner: string): map<string, nat> {
    map u | u in m.uploads && m.uploads[u].ownerID == owner && CountsTowardQuota(m.uploads[u].status) ::
        m.uploads[u].size
  }

  /** Which of an owner's uploads count, and for what: their size, unless they were rejected or
      have failed. */
  lemma FinishedAre(m: Manager, owner: string, u: string)
    ensures u in Finished(m, owner) <==>
            && u in m.uploads && m.uploads[u].ownerID == owner
            && !m.uploads[u].status.Rejected? && !m.uploads[u].status.Failed?
    ensures u in Finished(m, owner) ==> Finished(m, owner)[u] == m.uploads[u].size
  {}

  /** Bytes held by the owner's running streams. */
  function InFlight(m: Manager, owner: string): map<string, nat> {
    map u | u in m.streams && u in m.uploads && m.uploads[u].ownerID == owner :: m.streams[u]
  }

  // --- Steps -----------------------------------------------------------------

  function Begin(m: Manager, u: string, owner: string): Manager {
    if u in m.uploads || u in m.streams then m
    else m.(uploads := m.uploads[u := Record(owner, 0, Quarantined)], streams := m.streams[u := 0])
  }

  /** Gives back what a stream holds; an owner who then holds nothing has no entry. */
  function GiveBack(reservations: map<string, int>, owner: string, held: nat): map<string, int> {
    var left := (if owner in reservations then reservations[owner] else 0) - held;
    if left <= 0 then reservations - {owner} else reservations[owner := left]
  }

  function Cleanup(m: Manager, u: string): Manager {
    if u !in m.streams || u !in m.uploads then m
    else m.(reservations := if m.streams[u] > 0 then GiveBack(m.reservations, m.uploads[u].ownerID, m.streams[u])
            else m.reservations,
            uploads := m.uploads - {u}, streams := m.streams - {u})
  }

  /** One chunk is admitted if it fits beside everything finished and everything held. */
  ghost predicate Fits(m: Manager, u: string, bytes: nat)
    requires u in m.uploads
  {
    var owner := m.uploads[u].ownerID;
    Sum(Finished(m, owner)) + Reserved(m, owner) + bytes <= Quota(m, owner)
  }

  ghost function Chunk(m: Manager, u: string, bytes: nat): Manager {
    if u !in m.streams || u !in m.uploads || bytes == 0 then m
    else if !Fits(m, u, bytes) then Cleanup(m, u)
    else
      var owner := m.uploads[u].ownerID;
      m.(reservations := m.reservations[owner := Reserved(m, owner) + bytes],
         streams := m.streams[u := m.streams[u] + bytes])
  }

  /** Completion hands the held bytes over: they become the upload's size. An empty body is
      no upload. */
  function Complete(m: Manager, u: string): Manager {
    if u !in m.streams || u !in m.uploads then m
    else if m.streams[u] == 0 then Cleanup(m, u)
    else m.(uploads := m.uploads[u := m.uploads[u].(size := m.streams[u])],
            reservations := GiveBack(m.reservations, m.uploads[u].ownerID, m.streams[u]),
            streams := m.streams - {u})
  }

  /** A finished upload whose row could not be persisted is dropped again. */
  function Drop(m: Manager, u: string): Manager {
    if u in m.streams then m else m.(uploads := m.uploads - {u})
  }

  /** A row that the repository kept when its upload was dropped comes back, when the owner
      repeats its key: as it is, and without an admission. */
  function PutBack(m: Manager, u: string, row: Record): Manager {
    if u in m.uploads || u in m.streams then m else m.(uploads := m.uploads[u := row])
  }

  function ChangeStatus(m: Manager, u: string, s: Status): Manager {
    if u !in m.uploads || u in m.streams then m
    else m.(uploads := m.uploads[u := m.uploads[u].(status := s)])
  }

  datatype Event =
    | BeginUpload(uploadID: string, ownerID: string)
    | ChunkArrives(uploadID: string, bytes: nat)
    | Abandon(uploadID: string)
    | Finish(uploadID: string)
    | DropUnpersisted(uploadID: string)
    | RowReturns(uploadID: string, row: Record)
    | StatusChanges(uploadID: string, status: Status)
    | SetQuota(ownerID: string, quota: int)
    | ResetQuota(ownerID: string)

  ghost function Next(m: Manager, e: Event): Manager {
    match e
    case BeginUpload(u, o) => Begin(m, u, o)
    case ChunkArrives(u, n) => Chunk(m, u, n)
    case Abandon(u) => Cleanup(m, u)
    case Finish(u) => Complete(m, u)
    case DropUnpersisted(u) => Drop(m, u)
    case RowReturns(u, row) => PutBack(m, u, row)
    case StatusChanges(u, s) => ChangeStatus(m, u, s)
    case SetQuota(o, n) => m.(quotas := m.quotas[o := n])
    case ResetQuota(o) => m.(quotas := m.quotas - {o})
  }

  ghost function Run(defaultQuota: int, events: seq<Event>): Manager {
    if events == [] then Manager(map[], map[], map[], map[], defaultQuota)
    else Next(Run(defaultQuota, events[..|events| - 1]), events[|events| - 1])
  }

  // --- The shared count is the sum of the local ones --------------------------

  /** Per owner: what is reserved is what the running streams hold, and with what is finished
      it stays within the quota. */
  ghost predicate Balanced(m: Manager, owner: string) {
    && Reserved(m, owner) == Sum(InFlight(m, owner))
    && (owner in m.reservations ==> m.reservations[owner] > 0)
  }

  ghost function Used(m: Manager, owner: string): int { Sum(Finished(m, owner)) + Reserved(m, owner) }

  ghost predicate WithinQuota(m: Manager, owner: string) { Used(m, owner) <= Quota(m, owner) }

  /** The last quota that was set for the owner since the last reset, or else the default. */
  function LastQuota(defaultQuota: int, events: seq<Event>, owner: string): int {
    if events == [] then defaultQuota
    else match events[|events| - 1]
      case SetQuota(o, quota) =>
        if o == owner then quota else LastQuota(defaultQuota, events[..|events| - 1], owner)
      case ResetQuota(o) =>
        if o == owner then defaultQuota else LastQuota(defaultQuota, events[..|events| - 1], owner)
      case _ => LastQuota(defaultQuota, events[..|events| - 1], owner)
  }

  /** After every run that is an owner's quota; no other step touches it. */
  lemma {:induction false} QuotaIsLast(defaultQuota: int, events: seq<Event>, owner: string)
    ensures Quota(Run(defaultQuota, events), owner) == LastQuota(defaultQuota, events, owner)
    ensures Run(defaultQuota, events).defaultQuota == defaultQuota
  {
    hide Sum;
    if events != [] { QuotaIsLast(defaultQuota, events[..|events| - 1], owner); }
  }

  /** Dropping a finished upload, or turning it away, or its failing, gives its owner exactly
      its bytes back; a status that counts as the one before changes nothing. */
  lemma BytesFreed(m: Manager, u: string, s: Status)
    requires u in m.uploads && u !in m.streams && CountsTowardQuota(m.uploads[u].status)
    ensures
      var owner, size := m.uploads[u].ownerID, m.uploads[u].size;
      && Used(Drop(m, u), owner) == Used(m, owner) - size
      && (s == Rejected || s == Failed ==> Used(ChangeStatus(m, u, s), owner) == Used(m, owner) - size)
      && (s != Rejected && s != Failed ==> Used(ChangeStatus(m, u, s), owner) == Used(m, owner))
      && u !in Drop(m, u).uploads && u in ChangeStatus(m, u, s).uploads
      && ChangeStatus(m, u, s).uploads[u] == Record(owner, size, s)
  {
    var owner := m.uploads[u].ownerID;
    FinishedAt(m, u, owner);
    SumWithout(Finished(m, owner), u);
    FinishedLess(m, Drop(m, u), u, owner);
    FinishedPut(m, ChangeStatus(m, u, s), u, m.uploads[u].(status := s), owner);
    assert Finished(m, owner)[u := m.uploads[u].size] == Finished(m, owner);
    hide Sum, Finished;
  }

  /** What a returning row adds to the owner's bytes. */
  function Returned(m: Manager, e: Event, owner: string): nat {
    if e.RowReturns? && e.uploadID !in m.uploads && e.uploadID !in m.streams && e.row.ownerID == owner
       && CountsTowardQuota(e.row.status)
    then e.row.size else 0
  }

  /** Streams belong to uploads that are still quarantined and have no size yet. */
  predicate StreamsOK(m: Manager) {
    forall u :: u in m.streams ==> u in m.uploads && m.uploads[u].size == 0 && m.uploads[u].status == Quarantined
  }

  /** Statuses that stop counting never count again. */
  predicate Admissible(m: Manager, e: Event) {
    e.StatusChanges? && e.uploadID in m.uploads && CountsTowardQuota(e.status) ==>
        CountsTowardQuota(m.uploads[e.uploadID].status)
  }

  /** Quotas are not lowered. */
  predicate KeepsQuota(m: Manager, e: Event) {
    && (e.SetQuota? ==> e.quota >= Quota(m, e.ownerID))
    && (e.ResetQuota? ==> m.defaultQuota >= Quota(m, e.ownerID))
  }

  // How the two maps follow a change to one upload.

  lemma FinishedPut(m: Manager, m': Manager, u: string, r: Record, owner: string)
    requires m'.uploads == m.uploads[u := r]
    ensures Finished(m', owner)
         == if r.ownerID == owner && CountsTowardQuota(r.status) then Finished(m, owner)[u := r.size]
             else Finished(m, owner) - {u}
  {}

  lemma FinishedLess(m: Manager, m': Manager, u: string, owner: string)
    requires m'.uploads == m.uploads - {u}
    ensures Finished(m', owner) == Finished(m, owner) - {u}
  {}

  lemma FinishedSame(m: Manager, m': Manager, owner: string)
    requires m'.uploads == m.uploads
    ensures Finished(m', owner) == Finished(m, owner)
  {}

  lemma FinishedAt(m: Manager, u: string, owner: string)
    ensures u in Finished(m, owner) <==>
            u in m.uploads && m.uploads[u].ownerID == owner && CountsTowardQuota(m.uploads[u].status)
    ensures u in Finished(m, owner) ==> Finished(m, owner)[u] == m.uploads[u].size
  {}

  predicate SameOwners(m: Manager, m': Manager) {
    forall x :: x in m'.streams && x in m.streams ==>
      (x in m.uploads <==> x in m'.uploads) && (x in m.uploads ==> m'.uploads[x].ownerID == m.uploads[x].ownerID)
  }

  lemma InFlightPut(m: Manager, m': Manager, u: string, held: nat, owner: string)
    requires m'.streams == m.streams[u := held] && SameOwners(m, m') && u in m'.uploads
    requires u !in m.streams || u in m.uploads
    ensures InFlight(m', owner) == if m'.uploads[u].ownerID == owner then InFlight(m, owner)[u := held]
            else InFlight(m, owner) - {u}
  {}

  lemma InFlightLess(m: Manager, m': Manager, u: string, owner: string)
    requires m'.streams == m.streams - {u} && SameOwners(m, m')
    ensures InFlight(m', owner) == InFlight(m, owner) - {u}
  {}

  lemma InFlightAt(m: Manager, u: string, owner: string)
    ensures u in InFlight(m, owner) <==> u in m.streams && u in m.uploads && m.uploads[u].ownerID == owner
    ensures u in InFlight(m, owner) ==> InFlight(m, owner)[u] == m.streams[u]
  {}

  lemma Without(sum: map<string, nat>, u: string)
    ensures Sum(sum - {u}) == Sum(sum) - if u in sum then sum[u] else 0
  {
    if u in sum { SumWithout(sum, u); } else { assert sum - {u} == sum; }
  }

  // Each kind of step.

  lemma BeginKeeps(m: Manager, u: string, o: string, owner: string)
    requires StreamsOK(m) && Balanced(m, owner)
    ensures Balanced(Begin(m, u, o), owner) && Sum(Finished(Begin(m, u, o), owner)) == Sum(Finished(m, owner))
  {
    var m' := Begin(m, u, o);
    if m' != m {
      FinishedPut(m, m', u, Record(o, 0, Quarantined), owner);
      InFlightPut(m, m', u, 0, owner);
      FinishedAt(m, u, owner);
      InFlightAt(m, u, owner);
      hide Finished, InFlight, StreamsOK;
      SumPut(InFlight(m, owner), u, 0);
      SumPut(Finished(m, owner), u, 0);
      Without(InFlight(m, owner), u);
      Without(Finished(m, owner), u);
    }
  }

  lemma AddChunkKeeps(m: Manager, u: string, bytes: nat, owner: string)
    requires StreamsOK(m) && Balanced(m, owner) && u in m.streams && bytes > 0 && Fits(m, u, bytes)
    ensures
      var m' := Chunk(m, u, bytes);
      && Balanced(m', owner) && Sum(Finished(m', owner)) == Sum(Finished(m, owner))
      && Reserved(m', owner) == Reserved(m, owner) + if m.uploads[u].ownerID == owner then bytes else 0
  {
    var m' := Chunk(m, u, bytes);
    FinishedSame(m, m', owner);
    InFlightPut(m, m', u, m.streams[u] + bytes, owner);
    InFlightAt(m, u, owner);
    hide Finished, InFlight, StreamsOK, Fits;
    SumPut(InFlight(m, owner), u, m.streams[u] + bytes);
    Without(InFlight(m, owner), u);
  }

  /** What is given back is what was held, so the entry goes exactly when nothing is left. */
  lemma GiveBackKeeps(m: Manager, m': Manager, u: string, owner: string)
    requires StreamsOK(m) && Balanced(m, owner) && u in m.streams
    requires m'.reservations == GiveBack(m.reservations, m.uploads[u].ownerID, m.streams[u])
          || (m'.reservations == m.reservations && m.streams[u] == 0)
    requires m'.streams == m.streams - {u} && SameOwners(m, m')
    ensures Balanced(m', owner)
    ensures Reserved(m', owner) == Reserved(m, owner) - if m.uploads[u].ownerID == owner then m.streams[u] else 0
  {
    InFlightLess(m, m', u, owner);
    InFlightAt(m, u, owner);
    hide InFlight, StreamsOK, SameOwners;
    Without(InFlight(m, owner), u);
  }

  lemma CleanupKeeps(m: Manager, u: string, owner: string)
    requires StreamsOK(m) && Balanced(m, owner)
    ensures Balanced(Cleanup(m, u), owner) && Sum(Finished(Cleanup(m, u), owner)) == Sum(Finished(m, owner))
    ensures Reserved(Cleanup(m, u), owner) <= Reserved(m, owner)
  {
    if u in m.streams {
      FinishedLess(m, Cleanup(m, u), u, owner);
      FinishedAt(m, u, owner);
      hide Finished, InFlight;
      Without(Finished(m, owner), u);
      GiveBackKeeps(m, Cleanup(m, u), u, owner);
    }
  }

  /** Completion moves bytes from held to finished; the owner's sum of both stays the same. */
  lemma CompleteKeeps(m: Manager, u: string, owner: string)
    requires StreamsOK(m) && Balanced(m, owner)
    ensures Balanced(Complete(m, u), owner)
    ensures Sum(Finished(Complete(m, u), owner)) + Reserved(Complete(m, u), owner) == Sum(Finished(m, owner)) +
            Reserved(m, owner)
  {
    if u in m.streams && m.streams[u] == 0 {
      CleanupKeeps(m, u, owner);
      EmptyCleanup(m, u, owner);
      hide Finished, InFlight, Cleanup;
    } else if u in m.streams {
      var m' := Complete(m, u);
      FinishedPut(m, m', u, m.uploads[u].(size := m.streams[u]), owner);
      FinishedAt(m, u, owner);
      hide Finished, InFlight;
      Without(Finished(m, owner), u);
      SumPut(Finished(m, owner), u, m.streams[u]);
      GiveBackKeeps(m, m', u, owner);
    }
  }

  lemma EmptyCleanup(m: Manager, u: string, owner: string)
    requires u in m.streams && m.streams[u] == 0
    ensures Reserved(Cleanup(m, u), owner) == Reserved(m, owner)
  {}

  /** An upload that is not streaming is dropped or changes its status. */
  lemma OtherKeeps(m: Manager, e: Event, owner: string)
    requires StreamsOK(m) && Balanced(m, owner) && Admissible(m, e)
    requires e.DropUnpersisted? || e.StatusChanges? || e.SetQuota? || e.ResetQuota?
    ensures Balanced(Next(m, e), owner) && Reserved(Next(m, e), owner) == Reserved(m, owner)
    ensures Sum(Finished(Next(m, e), owner)) <= Sum(Finished(m, owner))
  {
    var m' := Next(m, e);
    assert InFlight(m', owner) == InFlight(m, owner) by { hide Finished; }
    hide InFlight, Balanced;
    if m'.uploads == m.uploads {
      FinishedSame(m, m', owner);
    } else if e.DropUnpersisted? {
      FinishedLess(m, m', e.uploadID, owner);
      Without(Finished(m, owner), e.uploadID);
    } else {
      FinishedPut(m, m', e.uploadID, m.uploads[e.uploadID].(status := e.status), owner);
      FinishedAt(m, e.uploadID, owner);
      hide Finished;
      Without(Finished(m, owner), e.uploadID);
      SumPut(Finished(m, owner), e.uploadID, m.uploads[e.uploadID].size);
    }
    BalancedSame(m, m', owner);
  }

  lemma PutBackKeeps(m: Manager, u: string, row: Record, owner: string)
    requires StreamsOK(m) && Balanced(m, owner)
    ensures Balanced(PutBack(m, u, row), owner)
    ensures Used(PutBack(m, u, row), owner) == Used(m, owner) + Returned(m, RowReturns(u, row), owner)
  {
    var m' := PutBack(m, u, row);
    if m' != m {
      assert InFlight(m', owner) == InFlight(m, owner) by { hide Finished; }
      FinishedPut(m, m', u, row, owner);
      FinishedAt(m, u, owner);
      hide Finished, InFlight, StreamsOK;
      Without(Finished(m, owner), u);
      SumPut(Finished(m, owner), u, row.size);
      BalancedSame(m, m', owner);
    }
  }

  lemma BalancedSame(m: Manager, m': Manager, owner: string)
    requires Balanced(m, owner) && m'.reservations == m.reservations && InFlight(m', owner) == InFlight(m, owner)
    ensures Balanced(m', owner) && Reserved(m', owner) == Reserved(m, owner)
  {}

  lemma StepStreams(m: Manager, e: Event)
    requires StreamsOK(m)
    ensures StreamsOK(Next(m, e))
  {
    hide Fits, GiveBack;
  }

  lemma ChunkKeeps(m: Manager, u: string, bytes: nat, owner: string)
    requires StreamsOK(m) && Balanced(m, owner)
    ensures Balanced(Chunk(m, u, bytes), owner)
    ensures WithinQuota(m, owner) ==> WithinQuota(Chunk(m, u, bytes), owner)
  {
    if u in m.streams && bytes > 0 {
      if Fits(m, u, bytes) {
        AddChunkKeeps(m, u, bytes, owner);
      } else {
        CleanupKeeps(m, u, owner);
      }
    }
    hide Balanced, Finished, Cleanup, Reserved;
  }

  /** A step keeps the count of held bytes and, from within the quota, leaves it exactly when a
      returning row does not fit. */
  lemma StepKeeps(m: Manager, e: Event, owner: string)
    requires StreamsOK(m) && Balanced(m, owner) && Admissible(m, e)
    ensures Balanced(Next(m, e), owner)
    ensures WithinQuota(m, owner) && KeepsQuota(m, e) ==>
              (WithinQuota(Next(m, e), owner) <==> Used(m, owner) + Returned(m, e, owner) <= Quota(m, owner))
  {
    hide Balanced, Finished, Reserved, StreamsOK, Begin, Cleanup, Complete, Fits, Chunk, InFlight;
    match e
    case BeginUpload(u, o) => BeginKeeps(m, u, o, owner); BeginReserves(m, u, o, owner);
    case ChunkArrives(u, n) => ChunkKeeps(m, u, n, owner);
    case Abandon(u) => CleanupKeeps(m, u, owner); SameQuotas(m, e, owner);
    case Finish(u) => CompleteKeeps(m, u, owner); SameQuotas(m, e, owner);
    case RowReturns(u, row) => PutBackKeeps(m, u, row, owner);
    case _ => OtherKeeps(m, e, owner);
  }

  lemma BeginReserves(m: Manager, u: string, o: string, owner: string)
    ensures Reserved(Begin(m, u, o), owner) == Reserved(m, owner) && Quota(Begin(m, u, o), owner) == Quota(m, owner)
  {}

  lemma SameQuotas(m: Manager, e: Event, owner: string)
    requires e.Abandon? || e.Finish?
    ensures Quota(Next(m, e), owner) == Quota(m, owner)
  {}

  ghost predicate AdmissibleRun(defaultQuota: int, events: seq<Event>) {
    events != [] ==>
      && AdmissibleRun(defaultQuota, events[..|events| - 1])
      && Admissible(Run(defaultQuota, events[..|events| - 1]), events[|events| - 1])
  }

  ghost predicate QuotasKept(defaultQuota: int, events: seq<Event>) {
    events != [] ==>
      && QuotasKept(defaultQuota, events[..|events| - 1])
      && KeepsQuota(Run(defaultQuota, events[..|events| - 1]), events[|events| - 1])
  }

  /** In every state so far. */
  ghost predicate AlwaysWithin(defaultQuota: int, events: seq<Event>, owner: string) {
    && WithinQuota(Run(defaultQuota, events), owner)
    && (events != [] ==> AlwaysWithin(defaultQuota, events[..|events| - 1], owner))
  }

  /** Every returning row found room. */
  ghost predicate ReturnsFit(defaultQuota: int, events: seq<Event>, owner: string) {
    events != [] ==>
      var m := Run(defaultQuota, events[..|events| - 1]);
      var returned := Returned(m, events[|events| - 1], owner);
      && ReturnsFit(defaultQuota, events[..|events| - 1], owner)
      && (returned > 0 ==> Used(m, owner) + returned <= Quota(m, owner))
  }

  /** Streaming quota. Whatever way the chunks of different uploads interleave, an owner's
      reservation is always exactly what that owner's running streams hold; and while quotas
      are not lowered, finished and held bytes together stay within the quota in every state
      exactly when every row that comes back with a repeated key finds room. */
  lemma {:induction false} QuotaUnderInterleaving(defaultQuota: int, events: seq<Event>, owner: string)
    requires AdmissibleRun(defaultQuota, events) && defaultQuota >= 0
    ensures
      var m := Run(defaultQuota, events);
      && StreamsOK(m) && Balanced(m, owner)
      && (QuotasKept(defaultQuota, events) ==>
            (AlwaysWithin(defaultQuota, events, owner) <==> ReturnsFit(defaultQuota, events, owner)))
  {
    hide Next, Admissible, KeepsQuota;
    if events == [] {
      EmptyBalanced(defaultQuota, owner);
    } else {
      hide Balanced, Used, Quota, StreamsOK, Returned;
      var before := events[..|events| - 1];
      QuotaUnderInterleaving(defaultQuota, before, owner);
      StepStreams(Run(defaultQuota, before), events[|events| - 1]);
      StepKeeps(Run(defaultQuota, before), events[|events| - 1], owner);
    }
  }

  lemma EmptyBalanced(defaultQuota: int, owner: string)
    requires defaultQuota >= 0
    ensures
      var m := Manager(map[], map[], map[], map[], defaultQuota);
      Balanced(m, owner) && WithinQuota(m, owner)
  {
    var m := Manager(map[], map[], map[], map[], defaultQuota);
    assert InFlight(m, owner) == map[] && Finished(m, owner) == map[];
  }
}
