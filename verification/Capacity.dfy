/** Capacity accounting: every upload is charged its reservation while it holds one, and
    otherwise its size if its status counts. */
module Capacity {
  import opened Wrappers
  import opened IngestModel
  import opened Sums

  predicate CountsTowardQuota(s: Status) {
    s == Quarantined || s == Inspecting || s == Accepted || s == Encrypting || s == Stored
  }

  /** Only what was turned away or has failed counts no more. */
  lemma CountsIff(s: Status)
    ensures CountsTowardQuota(s) <==> s != Rejected && s != Failed
  {}

  datatype Record = Record(ownerID: string, size: nat, status: Status)

  datatype Reservation = Reservation(ownerID: string, bytes: nat, expiresAt: Time)

  datatype Book = Book(records: map<string, Record>, reservations: map<string, Reservation>)

  datatype Request = Request(uploadID: string, ownerID: string, bytes: int, ownerQuota: int,
                             capacity: int, reserve: int, now: Time, expiresAt: Time)

  datatype CapacityError = InvalidRequest | Conflict | QuotaExceeded | CapacityExceeded

  function Charge(b: Book, u: string): nat {
    if u in b.reservations then b.reservations[u].bytes
    else if u in b.records && CountsTowardQuota(b.records[u].status) then b.records[u].size
    else 0
  }

  predicate ChargedTo(b: Book, u: string, who: Option<string>) {
    || who == None
    || (u in b.reservations && b.reservations[u].ownerID == who.value)
    || (u !in b.reservations && u in b.records && b.records[u].ownerID == who.value)
  }

  /** Everyone's charges, or one owner's. */
  function Charges(b: Book, who: Option<string>): map<string, nat> {
    map u | u in b.records.Keys + b.reservations.Keys && ChargedTo(b, u, who) :: Charge(b, u)
  }

  /** What an upload is charged, and to whom: a held reservation's bytes to its owner; or else
      the row's size to its own, unless it was rejected or has failed. */
  lemma ChargesAre(b: Book, owner: string, u: string)
    ensures u in Charges(b, None) <==> u in b.records || u in b.reservations
    ensures u in Charges(b, Some(owner)) <==>
            || (u in b.reservations && b.reservations[u].ownerID == owner)
            || (u !in b.reservations && u in b.records && b.records[u].ownerID == owner)
    ensures forall who :: u in Charges(b, who) ==>
              Charges(b, who)[u] == if u in b.reservations then b.reservations[u].bytes
                                    else if b.records[u].status.Rejected? || b.records[u].status.Failed? then 0
                                    else b.records[u].size
  {}

  ghost function Total(b: Book, who: Option<string>): nat { Sum(Charges(b, who)) }

  // --- Operations ------------------------------------------------------------

  function Expired(b: Book, now: Time): Book {
    b.(reservations := map u | u in b.reservations && b.reservations[u].expiresAt > now :: b.reservations[u])
  }

  predicate Sensible(q: Request) {
    q.bytes > 0 && q.ownerQuota > 0 && q.capacity > q.reserve && q.expiresAt > q.now
  }

  /** The decision, over the book from which expired reservations are gone. */
  ghost function Decide(b: Book, q: Request): Result<Book, CapacityError>
    requires Sensible(q)
  {
    if q.uploadID in b.reservations then
      if b.reservations[q.uploadID].ownerID == q.ownerID && b.reservations[q.uploadID].bytes == q.bytes then Success(b)
      else Failure(Conflict)
    else if Total(b, Some(q.ownerID)) + q.bytes > q.ownerQuota then Failure(QuotaExceeded)
    else if Total(b, None) + q.bytes > q.capacity - q.reserve then Failure(CapacityExceeded)
    else Success(Granted(b, q))
  }

  /** Expired reservations go even when the request is refused. */
  ghost function Reserve(b: Book, q: Request): Book {
    if !Sensible(q) then b
    else
      var swept := Expired(b, q.now);
      match Decide(swept, q) case Success(b') => b' case Failure(_) => swept
  }

  function Create(b: Book, u: string, owner: string): Book {
    if u in b.records || u in b.reservations then b
    else b.(records := b.records[u := Record(owner, 0, Quarantined)])
  }

  function Update(b: Book, u: string, size: nat, status: Status): Book {
    if u !in b.records then b
    else b.(records := b.records[u := b.records[u].(size := size, status := status)])
  }

  function Release(b: Book, u: string): Book { b.(reservations := b.reservations - {u}) }

  function Delete(b: Book, u: string): Book {
    if u !in b.records then b else Book(b.records - {u}, b.reservations - {u})
  }

  datatype Event =
    | CreateRow(uploadID: string, ownerID: string)
    | ReserveBytes(request: Request)
    | UpdateRow(uploadID: string, size: nat, status: Status)
    | ReleaseBytes(uploadID: string)
    | DeleteRow(uploadID: string)
    | Summarise(now: Time)

  ghost function Next(b: Book, e: Event): Book {
    match e
    case CreateRow(u, o) => Create(b, u, o)
    case ReserveBytes(q) => Reserve(b, q)
    case UpdateRow(u, n, s) => Update(b, u, n, s)
    case ReleaseBytes(u) => Release(b, u)
    case DeleteRow(u) => Delete(b, u)
    case Summarise(now) => Expired(b, now)
  }

  ghost function Run(events: seq<Event>): Book {
    if events == [] then Book(map[], map[]) else Next(Run(events[..|events| - 1]), events[|events| - 1])
  }

  // --- Premises --------------------------------------------------------------

  /** What the manager does with sized uploads: a reservation is asked for by the row's owner;
      the size committed is the one reserved, if the reservation is still held; and a status
      that no longer counts never counts again. */
  predicate Admissible(b: Book, e: Event) {
    match e
    case ReserveBytes(q) => q.uploadID in b.records && b.records[q.uploadID].ownerID == q.ownerID &&
        b.records[q.uploadID].size <= q.bytes
    case UpdateRow(u, n, s) =>
      u in b.records ==>
        && (u in b.reservations ==> n == b.records[u].size || n == b.reservations[u].bytes)
        && (CountsTowardQuota(s) ==> CountsTowardQuota(b.records[u].status))
    case _ => true
  }

  ghost predicate AdmissibleRun(events: seq<Event>) {
    events != [] ==>
      AdmissibleRun(events[..|events| - 1]) && Admissible(Run(events[..|events| - 1]), events[|events| - 1])
  }

  /** Reservations belong to rows, and cover their committed size. */
  predicate Covered(b: Book) {
    forall u :: u in b.reservations ==>
      u in b.records && b.records[u].ownerID == b.reservations[u].ownerID &&
      b.records[u].size <= b.reservations[u].bytes
  }

  lemma StepCovered(b: Book, e: Event)
    requires Covered(b) && Admissible(b, e)
    ensures Covered(Next(b, e))
  {
    hide Total;
  }

  /** Event k creates the row, and none since deletes it. */
  ghost predicate CreatedSince(events: seq<Event>, k: nat, u: string) {
    && k < |events| && events[k].CreateRow? && events[k].uploadID == u
    && forall j :: k < j < |events| ==> !(events[j].DeleteRow? && events[j].uploadID == u)
  }

  /** A row is there exactly from its creation to its deletion, whatever happens to its
      reservation. */
  lemma {:induction false} RowIff(events: seq<Event>, u: string)
    requires AdmissibleRun(events)
    ensures Covered(Run(events))
    ensures u in Run(events).records <==> exists k: nat :: CreatedSince(events, k, u)
  {
    if events != [] {
      var n := |events| - 1;
      var before := events[..n];
      RowIff(before, u);
      StepCovered(Run(before), events[n]);
      forall k: nat | k < n
        ensures CreatedSince(events, k, u) <==>
                CreatedSince(before, k, u) && !(events[n].DeleteRow? && events[n].uploadID == u)
      {
        assert before[k] == events[k];
        assert CreatedSince(events, k, u) ==> !(events[n].DeleteRow? && events[n].uploadID == u);
      }
      RowSteps(Run(before), events[n], u);
      hide Next, Covered;
      if events[n].CreateRow? && events[n].uploadID == u { assert CreatedSince(events, n, u); }
      if u in Run(before).records {
        var k: nat :| CreatedSince(before, k, u);
        assert !(events[n].DeleteRow? && events[n].uploadID == u) ==> CreatedSince(events, k, u);
      }
    }
  }

  lemma RowSteps(b: Book, e: Event, u: string)
    requires Covered(b)
    ensures u in Next(b, e).records <==>
            || (e.CreateRow? && e.uploadID == u)
            || (u in b.records && !(e.DeleteRow? && e.uploadID == u))
  {
    hide Total;
  }

  /** What a step commits too late: bytes of a size whose reservation is no longer held. */
  function Late(b: Book, e: Event, who: Option<string>): nat {
    if e.UpdateRow? && e.uploadID in b.records && e.uploadID !in b.reservations && CountsTowardQuota(e.status)
       && ChargedTo(b, e.uploadID, who) && e.size > b.records[e.uploadID].size
    then e.size - b.records[e.uploadID].size else 0
  }

  lemma LateCharges(b: Book, e: Event, who: Option<string>)
    requires Covered(b) && Admissible(b, e) && e.UpdateRow?
    ensures Total(Next(b, e), who) <= Total(b, who) + Late(b, e, who)
  {
    var charges, b' := Charges(b, who), Next(b, e);
    var u := e.uploadID;
    if Late(b, e, who) > 0 {
      SumPut(charges, u, e.size);
      SumMonotone(charges[u := e.size], Charges(b', who));
    } else {
      SumMonotone(charges, Charges(b', who));
    }
  }

  /** Nothing but a granted reservation, and a size committed too late, raises any charge. */
  lemma OtherStepsCharge(b: Book, e: Event, who: Option<string>)
    requires Covered(b) && Admissible(b, e) && !e.ReserveBytes?
    ensures Total(Next(b, e), who) <= Total(b, who) + Late(b, e, who)
  {
    var b' := Next(b, e);
    if e.CreateRow? && e.uploadID !in b.records {
      SumPut(Charges(b, who), e.uploadID, 0);
      SumMonotone(Charges(b, who)[e.uploadID := 0], Charges(b', who));
    } else if e.UpdateRow? {
      hide Total, Covered, Next, Late;
      LateCharges(b, e, who);
    } else {
      SumMonotone(Charges(b, who), Charges(b', who));
    }
  }

  lemma SweepCharges(b: Book, now: Time, who: Option<string>)
    requires Covered(b)
    ensures Covered(Expired(b, now)) && Total(Expired(b, now), who) <= Total(b, who)
  {
    SumMonotone(Charges(b, who), Charges(Expired(b, now), who));
  }

  function Granted(b: Book, q: Request): Book
    requires q.bytes >= 0
  {
    b.(reservations := b.reservations[q.uploadID := Reservation(q.ownerID, q.bytes, q.expiresAt)])
  }

  lemma GrantCharges(b: Book, q: Request, who: Option<string>)
    requires Covered(b) && Admissible(b, ReserveBytes(q)) && q.bytes >= 0 && q.uploadID !in b.reservations
    ensures Total(Granted(b, q), who) <= Total(b, who) + if who == None || who == Some(q.ownerID) then q.bytes else 0
  {
    var b', charges := Granted(b, q), Charges(b, who);
    assert b'.records.Keys + b'.reservations.Keys == b.records.Keys + b.reservations.Keys;
    forall u | u in b.records.Keys + b.reservations.Keys && u != q.uploadID
      ensures Charge(b', u) == Charge(b, u) && (ChargedTo(b', u, who) <==> ChargedTo(b, u, who))
    {}
    assert ChargedTo(b', q.uploadID, who) <==> ChargedTo(b, q.uploadID, who);
    assert ChargedTo(b, q.uploadID, who) <==> who == None || who == Some(q.ownerID);
    assert Charge(b', q.uploadID) == q.bytes;
    hide Charge, ChargedTo, Covered;
    if who == None || who == Some(q.ownerID) {
      SumPut(charges, q.uploadID, q.bytes);
      assert Charges(b', who) == charges[q.uploadID := q.bytes];
    } else {
      assert Charges(b', who) == charges;
    }
  }

  /** A reservation keeps the total within what its own request allows, or within what it was. */
  lemma ReserveCharges(b: Book, q: Request)
    requires Covered(b) && Admissible(b, ReserveBytes(q))
    ensures Total(Reserve(b, q), None) <= Total(b, None) || Total(Reserve(b, q), None) <= q.capacity - q.reserve
    ensures forall who :: who != q.ownerID ==> Total(Reserve(b, q), Some(who)) <= Total(b, Some(who))
    ensures Total(Reserve(b, q), Some(q.ownerID)) <= Total(b, Some(q.ownerID)) ||
            Total(Reserve(b, q), Some(q.ownerID)) <= q.ownerQuota
  {
    if Sensible(q) {
      var swept := Expired(b, q.now);
      forall who ensures Covered(swept) && Total(swept, who) <= Total(b, who) {
        SweepCharges(b, q.now, who);
      }
      if q.uploadID !in swept.reservations {
        forall who ensures Total(Granted(swept, q), who) <= Total(swept, who) + if who == None ||
        who == Some(q.ownerID) then q.bytes else 0 {
          GrantCharges(swept, q, who);
        }
      }
      hide Total, Expired, Covered;
    }
  }

  predicate LimitedTo(e: Event, limit: int) { e.ReserveBytes? ==> e.request.capacity - e.request.reserve <= limit }

  predicate OwnerLimitedTo(e: Event, who: string, quota: int) {
    e.ReserveBytes? && e.request.ownerID == who ==> e.request.ownerQuota <= quota
  }

  /** Everything a run committed too late, for everyone or for one owner. */
  ghost function LateBytes(events: seq<Event>, who: Option<string>): nat {
    if events == [] then 0
    else LateBytes(events[..|events| - 1], who) + Late(Run(events[..|events| - 1]), events[|events| - 1], who)
  }

  /** Conservation of capacity. In every run of sized uploads the total charged never exceeds
      the capacity minus the reserve that the requests were made with, by more than what was
      committed after its reservation had expired. */
  lemma {:induction false} CapacityConserved(events: seq<Event>, limit: int)
    requires AdmissibleRun(events) && limit >= 0
    requires forall i :: 0 <= i < |events| ==> LimitedTo(events[i], limit)
    ensures Covered(Run(events)) && Total(Run(events), None) <= limit + LateBytes(events, None)
  {
    if events != [] {
      var before, e := events[..|events| - 1], events[|events| - 1];
      assert forall i :: 0 <= i < |before| ==> before[i] == events[i];
      assert LimitedTo(e, limit);
      CapacityConserved(before, limit);
      hide Covered, Total, Next, Admissible, Late;
      StepCovered(Run(before), e);
      if e.ReserveBytes? {
        ReserveCharges(Run(before), e.request);
        NextReserves(Run(before), e);
      } else {
        OtherStepsCharge(Run(before), e, None);
      }
    }
  }

  lemma NextReserves(b: Book, e: Event)
    requires e.ReserveBytes?
    ensures Next(b, e) == Reserve(b, e.request)
  {}

  /** And one owner's charges never exceed the largest quota its requests were made with, but
      for what that owner committed too late. */
  lemma {:induction false} QuotaConserved(events: seq<Event>, who: string, quota: int)
    requires AdmissibleRun(events) && quota >= 0
    requires forall i :: 0 <= i < |events| ==> OwnerLimitedTo(events[i], who, quota)
    ensures Covered(Run(events)) && Total(Run(events), Some(who)) <= quota + LateBytes(events, Some(who))
  {
    if events != [] {
      var before, e := events[..|events| - 1], events[|events| - 1];
      assert forall i :: 0 <= i < |before| ==> before[i] == events[i];
      assert OwnerLimitedTo(e, who, quota);
      QuotaConserved(before, who, quota);
      hide Covered, Total, Next, Admissible, Late;
      StepCovered(Run(before), e);
      if e.ReserveBytes? {
        ReserveCharges(Run(before), e.request);
        NextReserves(Run(before), e);
      } else {
        OtherStepsCharge(Run(before), e, Some(who));
      }
    }
  }

  // --- A size committed too late ---------------------------------------------

  /** When the reservation is gone before the size is committed, the commit raises the total
      by the whole size: the bound survives exactly when there happened to be room. */
  lemma LateCommit(b: Book, u: string, size: nat, status: Status, limit: int)
    requires u in b.records && u !in b.reservations && b.records[u].size == 0 && CountsTowardQuota(status)
    ensures Total(Update(b, u, size, status), None) == Total(b, None) + size
    ensures Total(Update(b, u, size, status), None) <= limit <==> Total(b, None) + size <= limit
  {
    SumPut(Charges(b, None), u, size);
    assert Charges(Update(b, u, size, status), None) == Charges(b, None)[u := size];
  }

  function TenOf10(u: string, now: Time): Event {
    ReserveBytes(Request(u, "ann", 10, 100, 10, 0, now, now + 5))
  }

  /** Ten bytes for an upload that holds nothing, when nothing is charged: granted. */
  lemma TenGranted(b: Book, u: string, now: Time)
    requires forall v :: v in b.records ==> b.records[v].size == 0
    requires forall v :: v in b.reservations ==> b.reservations[v].expiresAt <= now
    ensures Next(b, TenOf10(u, now)) == Book(b.records, map[u := Reservation("ann", 10, now + 5)])
  {
    var swept := Expired(b, now);
    assert swept == Book(b.records, map[]);
    NoCharge(swept);
    hide Total;
  }

  lemma RunOne(events: seq<Event>, e: Event)
    ensures Run(events + [e]) == Next(Run(events), e)
  {
    assert (events + [e])[..|events|] == events;
  }

  lemma FirstExpires()
    ensures Run([CreateRow("u1", "ann"), TenOf10("u1", 0), CreateRow("u2", "ann")])
         == Book(map["u1" := Record("ann", 0, Quarantined), "u2" := Record("ann", 0, Quarantined)],
                 map["u1" := Reservation("ann", 10, 5)])
  {
    hide Reserve, Run;
    var r1 := map["u1" := Record("ann", 0, Quarantined)];
    RunNothing();
    RunOne([], CreateRow("u1", "ann"));
    assert [] + [CreateRow("u1", "ann")] == [CreateRow("u1", "ann")];
    RunOne([CreateRow("u1", "ann")], TenOf10("u1", 0));
    TenGranted(Book(r1, map[]), "u1", 0);
    assert [CreateRow("u1", "ann")] + [TenOf10("u1", 0)] == [CreateRow("u1", "ann"), TenOf10("u1", 0)];
    RunOne([CreateRow("u1", "ann"), TenOf10("u1", 0)], CreateRow("u2", "ann"));
    assert [CreateRow("u1", "ann"), TenOf10("u1", 0)] + [CreateRow("u2", "ann")] ==
           [CreateRow("u1", "ann"), TenOf10("u1", 0), CreateRow("u2", "ann")];
  }

  lemma RunNothing()
    ensures Run([]) == Book(map[], map[])
  {}

  /** A run that breaks the bound that way: the first upload's reservation expires while it is
      still streaming, the second takes the space, and then the first commits its size. */
  lemma ExpiredBeforeCommit()
    ensures
      var events := [CreateRow("u1", "ann"), TenOf10("u1", 0), CreateRow("u2", "ann"), TenOf10("u2", 9),
                     UpdateRow("u1", 10, Quarantined)];
      Total(Run(events), None) == 20
  {
    hide Reserve, Run;
    var e3 := [CreateRow("u1", "ann"), TenOf10("u1", 0), CreateRow("u2", "ann")];
    FirstExpires();
    TenGranted(Run(e3), "u2", 9);
    RunOne(e3, TenOf10("u2", 9));
    RunOne(e3 + [TenOf10("u2", 9)], UpdateRow("u1", 10, Quarantined));
    assert e3 + [TenOf10("u2", 9)] + [UpdateRow("u1", 10, Quarantined)]
        == [CreateRow("u1", "ann"), TenOf10("u1", 0), CreateRow("u2", "ann"), TenOf10("u2", 9),
            UpdateRow("u1", 10, Quarantined)];
    var b4 := Book(map["u1" := Record("ann", 0, Quarantined), "u2" := Record("ann", 0, Quarantined)],
                   map["u2" := Reservation("ann", 10, 14)]);
    assert Charges(b4, None) == map["u1" := 0]["u2" := 10];
    AllZero(map["u1" := 0]);
    SumPut(map["u1" := 0], "u2", 10);
    LateCommit(b4, "u1", 10, Quarantined, 10);
  }

  lemma NoCharge(b: Book)
    requires b.reservations == map[] && forall u :: u in b.records ==> b.records[u].size == 0
    ensures forall who :: Total(b, who) == 0
  {
    forall who ensures Total(b, who) == 0 { AllZero(Charges(b, who)); }
  }

  lemma {:induction false} AllZero(m: map<string, nat>)
    requires forall u :: u in m ==> m[u] == 0
    ensures Sum(m) == 0
    decreases |m|
  {
    if m != map[] {
      var u :| u in m;
      SumWithout(m, u);
      AllZero(m - {u});
    }
  }
}
