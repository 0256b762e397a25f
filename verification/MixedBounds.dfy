/** How much one owner can use at once: streams and declared sizes each keep to the quota but
    for what comes to count without having been admitted, and the two are not counted
    together. */
module MixedBounds {
  import opened Wrappers
  import opened Sums
  import opened MixedQuota

  // --- Bytes of declared sizes -----------------------------------------------

  /** What the repository charges for uploads that declared their size. */
  function SizedCharges(w: World, owner: string): map<string, nat> {
    map u | u in w.book.records && Sized(w, u) && w.book.records[u].ownerID == owner :: C.Charge(w.book, u)
  }

  ghost function SizedUse(w: World, owner: string): nat { Sum(SizedCharges(w, owner)) }

  /** A size is committed although its reservation is gone, and its row stays. */
  predicate IsLate(w: World, e: Event) {
    && e.Persist? && (e.answer.Answered? || (e.answer.InDoubt? && !e.undo.deleted))
    && e.uploadID in w.unpersisted && e.uploadID in w.manager.uploads && Sized(w, e.uploadID)
    && e.uploadID !in w.book.reservations
  }

  function Late(w: World, e: Event, owner: string): nat {
    if IsLate(w, e) && w.manager.uploads[e.uploadID].ownerID == owner then w.declared[e.uploadID] else 0
  }

  /** A sized row was there before, with the same owner, and is charged no more. */
  predicate ChargedLess(w: World, w': World, u: string) {
    u in w'.book.records && Sized(w', u) ==>
      && u in w.book.records && Sized(w, u) && w'.book.records[u].ownerID == w.book.records[u].ownerID
      && C.Charge(w'.book, u) <= C.Charge(w.book, u)
  }

  lemma LessSized(w: World, w': World, owner: string)
    requires forall u :: u in w'.book.records ==> ChargedLess(w, w', u)
    ensures SizedUse(w', owner) <= SizedUse(w, owner)
  {
    hide C.Charge;
    SumMonotone(SizedCharges(w, owner), SizedCharges(w', owner));
  }

  /** Only admissions and late commits charge an upload more than before. */
  lemma StepCharge(limits: Limits, w: World, e: Event, u: string)
    requires TablesOK(w) && !e.Admit? && !IsLate(w, e)
    ensures ChargedLess(w, Next(limits, w, e), u)
  {
    assert ViewOK(ViewOf(w, u));
    if e.Persist? {
      assert ViewOK(ViewOf(w, e.uploadID));
      hide TablesOK;
      PersistCharge(w, e, u);
    } else if e.PersistStatus? {
      assert ViewOK(ViewOf(w, e.uploadID));
      hide TablesOK;
    } else if e.Receive? || e.Abandon? || e.Finish? {
      hide TablesOK, ViewOK, S.Fits, S.Chunk, S.Complete, FinishSized, UndoneBook;
      UndoneCharge(w, Next(limits, w, e), e.uploadID, e.undo, u);
    } else {
      hide TablesOK, S.Quota;
    }
  }

  lemma UndoneCharge(w: World, w': World, u: string, undo: Undo, v: string)
    requires ViewOK(ViewOf(w, v))
    requires w'.declared == w.declared && (w'.book == w.book || w'.book == UndoneBook(w.book, u, undo))
    ensures ChargedLess(w, w', v)
  {}

  lemma PersistCharge(w: World, e: Event, u: string)
    requires e.Persist? && !IsLate(w, e) && ViewOK(ViewOf(w, u)) && ViewOK(ViewOf(w, e.uploadID))
    ensures ChargedLess(w, PersistStep(w, e.uploadID, e.answer, e.undo), u)
  {}

  lemma LateRow(limits: Limits, w: World, e: Event, v: string)
    requires IsLate(w, e) && ViewOK(ViewOf(w, e.uploadID))
    ensures
      var book, book' := w.book, Next(limits, w, e).book;
      && Next(limits, w, e).declared == w.declared
      && (v in book'.records <==> v in book.records)
      && (v in book.records ==>
            && book'.records[v].ownerID == book.records[v].ownerID
            && C.Charge(book', v) == C.Charge(book, v) + if v == e.uploadID then w.declared[v] else 0)
      && e.uploadID in book.records && C.Charge(book, e.uploadID) == 0
      && book.records[e.uploadID].ownerID == w.manager.uploads[e.uploadID].ownerID
  {}

  lemma LateMap(limits: Limits, w: World, e: Event, owner: string)
    requires IsLate(w, e) && ViewOK(ViewOf(w, e.uploadID))
    ensures
      var u, charges, charges' := e.uploadID, SizedCharges(w, owner), SizedCharges(Next(limits, w, e), owner);
      if w.manager.uploads[u].ownerID == owner
      then u in charges && charges[u] == 0 && charges' == charges[u := w.declared[u]]
      else charges' == charges
  {
    forall v { LateRow(limits, w, e, v); }
    hide Next, C.Charge, ViewOK, ViewOf;
  }

  /** A late commit charges its whole size anew. */
  lemma LateCharges(limits: Limits, w: World, e: Event, owner: string)
    requires IsLate(w, e) && TablesOK(w)
    ensures SizedUse(Next(limits, w, e), owner) == SizedUse(w, owner) + Late(w, e, owner)
  {
    assert ViewOK(ViewOf(w, e.uploadID));
    hide TablesOK, SizedCharges, Next, ViewOK, ViewOf;
    LateMap(limits, w, e, owner);
    SumPut(SizedCharges(w, owner), e.uploadID, w.declared[e.uploadID]);
  }

  // Admissions.

  lemma AdmittedOthers(limits: Limits, w: World, e: Event, u: string)
    requires TablesOK(w) && e.Admit? && u != e.uploadID
    ensures ChargedLess(w, Next(limits, w, e), u)
  {
    assert ViewOK(ViewOf(w, u)) && ViewOK(ViewOf(w, e.uploadID));
    AdmittedOther(limits, w, e.uploadID, e.ownerID, e.expected, e.now, e.answer, e.undo, u);
    hide TablesOK, AdmitStep;
  }

  /** The upload has no reservation after its admission, or it was granted. */
  lemma AdmittedSelf(limits: Limits, w: World, e: Event)
    requires e.Admit? && e.uploadID !in w.declared && ViewOK(ViewOf(w, e.uploadID))
    ensures
      var u, book := e.uploadID, Next(limits, w, e).book;
      var created := C.Create(w.book, u, e.ownerID);
      var q := RequestOf(limits, w.manager, u, e.ownerID, e.expected, e.now);
      && u !in w.book.records
      && (u in book.records && C.Charge(book, u) > 0 ==>
            Grants(created, q) && C.Charge(book, u) == e.expected && book == C.Granted(C.Expired(created, e.now), q))
      && (u in book.records ==> book.records[u].ownerID == e.ownerID)
  {
    var q := RequestOf(limits, w.manager, e.uploadID, e.ownerID, e.expected, e.now);
    RequestedBook(C.Create(w.book, e.uploadID, e.ownerID), q, e.answer, e.uploadID);
    hide C.Total, S.Begin, S.Quota;
  }

  /** What the repository counts for an owner includes the sized charges. */
  lemma CountedCharges(w: World, w': World, book: C.Book, u: string, owner: string, v: string)
    requires v in w'.book.records && v != u && w'.book.records[v].ownerID == owner && ViewOK(ViewOf(w', v))
    requires v in book.records && book.records[v] == w'.book.records[v]
    requires Find(book.reservations, v) == Find(w'.book.reservations, v)
    ensures v in C.Charges(book, Some(owner)) && C.Charges(book, Some(owner))[v] == C.Charge(w'.book, v)
  {}

  lemma GrantedCharges(limits: Limits, w: World, e: Event)
    requires TablesOK(w) && e.Admit? && e.uploadID !in w.declared && e.uploadID in Next(limits, w, e).book.records
    requires C.Charge(Next(limits, w, e).book, e.uploadID) > 0
    ensures SizedUse(Next(limits, w, e), e.ownerID) <= S.Quota(w.manager, e.ownerID)
  {
    var u, owner, w' := e.uploadID, e.ownerID, Next(limits, w, e);
    assert ViewOK(ViewOf(w, u));
    AdmittedSelf(limits, w, e);
    StepTables(limits, w, e);
    var swept := C.Expired(C.Create(w.book, u, owner), e.now);
    var rest := SizedCharges(w', owner) - {u};
    forall v | v in rest ensures v in C.Charges(swept, Some(owner)) && C.Charges(swept, Some(owner))[v] == rest[v] {
      assert ViewOK(ViewOf(w', v));
      hide Next, TablesOK, ViewOK, C.Expired, C.Create, C.Charge, Grants;
      CountedCharges(w, w', swept, u, owner, v);
    }
    hide SizedCharges, C.Charges, Next, TablesOK, ViewOK, C.Expired, C.Create, C.Charge;
    SumMonotone(C.Charges(swept, Some(owner)), rest);
    SumWithout(SizedCharges(w', owner), u);
  }

  /** A new row without a charge adds nothing. */
  lemma NewRowUncharged(w: World, w': World, u: string, owner: string)
    requires u !in w.book.records && forall v :: v != u ==> ChargedLess(w, w', v)
    requires u in w'.book.records && w'.book.records[u].ownerID == owner ==> C.Charge(w'.book, u) == 0
    ensures SizedUse(w', owner) <= SizedUse(w, owner)
  {
    hide C.Charge;
    var charges := SizedCharges(w, owner);
    forall v | v in SizedCharges(w', owner) && v != u
      ensures v in charges && SizedCharges(w', owner)[v] <= charges[v]
    {
      assert ChargedLess(w, w', v);
    }
    SumPut(charges, u, 0);
    SumMonotone(charges[u := 0], SizedCharges(w', owner));
  }

  lemma AdmittedCharges(limits: Limits, w: World, e: Event, owner: string)
    requires TablesOK(w) && e.Admit?
    ensures
      var w' := Next(limits, w, e);
      SizedUse(w', owner) <= SizedUse(w, owner) || SizedUse(w', owner) <= S.Quota(w.manager, owner)
  {
    var u, w' := e.uploadID, Next(limits, w, e);
    if u in w.declared {
    } else if u in w'.book.records && C.Charge(w'.book, u) > 0 && owner == e.ownerID {
      GrantedCharges(limits, w, e);
    } else {
      assert ViewOK(ViewOf(w, u));
      AdmittedSelf(limits, w, e);
      hide TablesOK, Next, ViewOK, ViewOf, C.Charge, ChargedLess, SizedUse, Grants, C.Create, C.Expired, C.Granted;
      forall v | v != u ensures ChargedLess(w, w', v) { AdmittedOthers(limits, w, e, v); }
      NewRowUncharged(w, w', u, owner);
    }
  }

  lemma StepSized(limits: Limits, w: World, e: Event, owner: string)
    requires TablesOK(w)
    ensures
      var w' := Next(limits, w, e);
      if Late(w, e, owner) > 0 then SizedUse(w', owner) == SizedUse(w, owner) + Late(w, e, owner)
      else SizedUse(w', owner) <= SizedUse(w, owner) || SizedUse(w', owner) <= S.Quota(w.manager, owner)
  {
    hide Next, TablesOK, SizedUse, ChargedLess;
    var w' := Next(limits, w, e);
    if e.Admit? {
      AdmittedCharges(limits, w, e, owner);
    } else if IsLate(w, e) {
      LateCharges(limits, w, e, owner);
    } else {
      forall u ensures ChargedLess(w, w', u) { StepCharge(limits, w, e, u); }
      LessSized(w, w', owner);
    }
  }

  // --- Over whole runs -------------------------------------------------------

  /** The largest quota the owner has had. */
  ghost function Peak(limits: Limits, events: seq<Event>, owner: string): nat {
    var quota := S.Quota(Run(limits, events).manager, owner);
    var before := if events == [] then 0 else Peak(limits, events[..|events| - 1], owner);
    if quota > before then quota else before
  }

  /** All sizes committed without a reservation. */
  ghost function LateBytes(limits: Limits, events: seq<Event>, owner: string): nat {
    if events == [] then 0
    else
      var before, e := events[..|events| - 1], events[|events| - 1];
      LateBytes(limits, before, owner) + Late(Run(limits, before), e, owner)
  }

  /** All bytes that come to count again without an admission: after a restart what memory had
      given up, and with a repeated key what it had dropped. */
  ghost function RevivedBytes(limits: Limits, events: seq<Event>, owner: string): nat {
    if events == [] then 0
    else
      var before, e := events[..|events| - 1], events[|events| - 1];
      RevivedBytes(limits, before, owner)
        + if e.Restart? then Sum(Revived(Run(limits, before), e.missing, owner))
          else Returned(Run(limits, before), e, owner)
  }

  ghost function Total(w: World, owner: string): int { StreamUse(w, owner) + SizedUse(w, owner) }

  lemma {:induction false} RunKeeps(limits: Limits, events: seq<Event>, owner: string)
    ensures TablesOK(Run(limits, events)) && S.Balanced(Run(limits, events).manager, owner)
    ensures StreamUse(Run(limits, events), owner) >= 0
  {
    hide Next, TablesOK, StreamBytes, S.Balanced;
    if events == [] {
      StartKeeps(limits, owner);
    } else {
      var before, e := events[..|events| - 1], events[|events| - 1];
      RunKeeps(limits, before, owner);
      StepTables(limits, Run(limits, before), e);
      StepBalanced(limits, Run(limits, before), e, owner);
    }
    HeldNotNegative(Run(limits, events), owner);
  }

  lemma HeldNotNegative(w: World, owner: string)
    requires S.Balanced(w.manager, owner)
    ensures S.Reserved(w.manager, owner) >= 0
  {}

  lemma StartKeeps(limits: Limits, owner: string)
    ensures TablesOK(Start(limits)) && S.Balanced(Start(limits).manager, owner)
    ensures StreamUse(Start(limits), owner) == 0 && SizedUse(Start(limits), owner) == 0
  {
    var w := Start(limits);
    assert S.InFlight(w.manager, owner) == map[] && StreamBytes(w, owner) == map[] && SizedCharges(w, owner) == map[];
  }

  lemma StepBalanced(limits: Limits, w: World, e: Event, owner: string)
    requires TablesOK(w) && S.Balanced(w.manager, owner)
    ensures S.Balanced(Next(limits, w, e).manager, owner)
  {
    hide Next, TablesOK, S.Balanced, StreamUse, S.Quota, Returned;
    StepStreams(limits, w, e, owner);
  }

  lemma NextRestarts(limits: Limits, w: World, e: Event)
    requires e.Restart?
    ensures Next(limits, w, e) == RestartStep(limits, w, e.missing, e.kept, e.quotas)
  {}

  /** Streams stay within the largest quota but for what restarts and repeated keys bring back,
      declared sizes but for what is committed late; so the two stay within twice the quota but
      for both. */
  lemma {:induction false} TwiceTheQuota(limits: Limits, events: seq<Event>, owner: string)
    ensures
      var w, peak := Run(limits, events), Peak(limits, events, owner);
      && StreamUse(w, owner) <= peak + RevivedBytes(limits, events, owner)
      && SizedUse(w, owner) <= peak + LateBytes(limits, events, owner)
      && Total(w, owner) <= 2 * peak + RevivedBytes(limits, events, owner) + LateBytes(limits, events, owner)
  {
    hide Next, TablesOK, StreamUse, SizedUse, S.Balanced, S.Quota, Late, Revived, Returned;
    if events == [] {
      StartKeeps(limits, owner);
    } else {
      var before, e := events[..|events| - 1], events[|events| - 1];
      var w := Run(limits, before);
      TwiceTheQuota(limits, before, owner);
      RunKeeps(limits, before, owner);
      StepSized(limits, w, e, owner);
      StepStreams(limits, w, e, owner);
      if e.Restart? { SurvivingRevived(w, e.missing, owner); }
    }
  }

  /** In every state so far. */
  ghost predicate SizedAlways(limits: Limits, events: seq<Event>, owner: string) {
    && SizedUse(Run(limits, events), owner) <= Peak(limits, events, owner)
    && (events != [] ==> SizedAlways(limits, events[..|events| - 1], owner))
  }

  /** Every late size found room. */
  ghost predicate LateFits(limits: Limits, events: seq<Event>, owner: string) {
    events != [] ==>
      var before := events[..|events| - 1];
      var late := Late(Run(limits, before), events[|events| - 1], owner);
      && LateFits(limits, before, owner)
      && (late > 0 ==> SizedUse(Run(limits, before), owner) + late <= Peak(limits, before, owner))
  }

  lemma LateKeepsQuota(limits: Limits, w: World, e: Event, owner: string)
    requires Late(w, e, owner) > 0
    ensures S.Quota(Next(limits, w, e).manager, owner) == S.Quota(w.manager, owner)
  {
    hide UndoneBook, S.GiveBack, C.Update;
  }

  /** Declared sizes stay within the quota exactly when every size committed without its
      reservation finds room. */
  lemma {:induction false} SizedWithinIff(limits: Limits, events: seq<Event>, owner: string)
    ensures SizedAlways(limits, events, owner) <==> LateFits(limits, events, owner)
  {
    if events == [] {
      StartKeeps(limits, owner);
    } else {
      hide Next, TablesOK, SizedUse, S.Balanced, S.Quota, Late;
      var before, e := events[..|events| - 1], events[|events| - 1];
      var w := Run(limits, before);
      SizedWithinIff(limits, before, owner);
      RunKeeps(limits, before, owner);
      StepSized(limits, w, e, owner);
      if Late(w, e, owner) > 0 { LateKeepsQuota(limits, w, e, owner); }
    }
  }

  ghost predicate StreamsAlways(limits: Limits, events: seq<Event>, owner: string) {
    && StreamUse(Run(limits, events), owner) <= Peak(limits, events, owner)
    && (events != [] ==> StreamsAlways(limits, events[..|events| - 1], owner))
  }

  /** At every restart the rows that will count fit, and at every repeated key the row that
      comes back. */
  ghost predicate RowsFit(limits: Limits, events: seq<Event>, owner: string) {
    events != [] ==>
      var before, e := events[..|events| - 1], events[|events| - 1];
      && RowsFit(limits, before, owner)
      && (e.Restart? ==> Sum(Surviving(Run(limits, before), e.missing, owner)) <= Peak(limits, events, owner))
      && (Returned(Run(limits, before), e, owner) > 0 ==>
            StreamUse(Run(limits, before), owner) + Returned(Run(limits, before), e, owner)
            <= Peak(limits, before, owner))
  }

  /** Streams stay within the quota exactly when what the database brings back does. */
  lemma {:induction false} StreamsWithinIff(limits: Limits, events: seq<Event>, owner: string)
    ensures StreamsAlways(limits, events, owner) <==> RowsFit(limits, events, owner)
  {
    if events == [] {
      StartKeeps(limits, owner);
    } else {
      hide Next, TablesOK, StreamUse, S.Balanced, S.Quota, Surviving, Returned;
      var before, e := events[..|events| - 1], events[|events| - 1];
      var w := Run(limits, before);
      StreamsWithinIff(limits, before, owner);
      RunKeeps(limits, before, owner);
      StepStreams(limits, w, e, owner);
    }
  }

  predicate SizedOnly(events: seq<Event>) {
    forall k :: 0 <= k < |events| && events[k].Admit? ==> events[k].expected > 0
  }

  predicate StreamsOnly(events: seq<Event>) {
    forall k :: 0 <= k < |events| && events[k].Admit? ==> events[k].expected == 0
  }

  lemma NextDeclares(limits: Limits, w: World, e: Event)
    ensures
      var declared := Next(limits, w, e).declared;
      declared == w.declared || (e.Admit? && declared == w.declared[e.uploadID := e.expected])
  {
    hide Grants, Requested, C.Create, UndoneBook, S.Fits, S.Chunk, S.Begin, S.Cleanup, S.Drop, S.Quota;
  }

  lemma {:induction false} OneKindDeclared(limits: Limits, events: seq<Event>, sized: bool)
    requires if sized then SizedOnly(events) else StreamsOnly(events)
    ensures forall u :: u in Run(limits, events).declared ==> (Run(limits, events).declared[u] > 0) == sized
  {
    if events != [] {
      var before := events[..|events| - 1];
      assert forall k :: 0 <= k < |before| ==> before[k] == events[k];
      OneKindDeclared(limits, before, sized);
      hide Next;
      NextDeclares(limits, Run(limits, before), events[|events| - 1]);
    }
  }

  /** With one kind only, the total is that kind's. */
  lemma OneKind(limits: Limits, events: seq<Event>, owner: string)
    ensures SizedOnly(events) ==> StreamUse(Run(limits, events), owner) == 0
    ensures StreamsOnly(events) ==> SizedUse(Run(limits, events), owner) == 0
  {
    var w := Run(limits, events);
    RunKeeps(limits, events, owner);
    hide Run, S.Balanced;
    if SizedOnly(events) {
      OneKindDeclared(limits, events, true);
      NothingStreams(w, owner);
    }
    if StreamsOnly(events) {
      OneKindDeclared(limits, events, false);
      assert SizedCharges(w, owner) == map[];
    }
  }

  lemma NothingStreams(w: World, owner: string)
    requires TablesOK(w) && S.Balanced(w.manager, owner) && forall u :: u in w.declared ==> w.declared[u] > 0
    ensures StreamUse(w, owner) == 0
  {
    assert StreamBytes(w, owner) == map[];
    forall u | u in S.InFlight(w.manager, owner) ensures S.InFlight(w.manager, owner)[u] == 0 {
      assert ViewOK(ViewOf(w, u));
    }
    C.AllZero(S.InFlight(w.manager, owner));
  }

  ghost predicate TotalAlways(limits: Limits, events: seq<Event>, owner: string) {
    && Total(Run(limits, events), owner) <= Peak(limits, events, owner)
    && (events != [] ==> TotalAlways(limits, events[..|events| - 1], owner))
  }

  /** With one kind only, everything an owner has stays within the quota exactly when every
      late size fits, for declared sizes, or every row that comes back, for streams. */
  lemma {:induction false} OneKindIff(limits: Limits, events: seq<Event>, owner: string)
    ensures SizedOnly(events) ==> (TotalAlways(limits, events, owner) <==> LateFits(limits, events, owner))
    ensures StreamsOnly(events) ==> (TotalAlways(limits, events, owner) <==> RowsFit(limits, events, owner))
  {
    SizedWithinIff(limits, events, owner);
    StreamsWithinIff(limits, events, owner);
    OneKindTotals(limits, events, owner);
  }

  lemma {:induction false} OneKindTotals(limits: Limits, events: seq<Event>, owner: string)
    ensures SizedOnly(events) ==> (TotalAlways(limits, events, owner) <==> SizedAlways(limits, events, owner))
    ensures StreamsOnly(events) ==> (TotalAlways(limits, events, owner) <==> StreamsAlways(limits, events, owner))
  {
    hide Run, SizedUse, StreamUse, Peak;
    OneKind(limits, events, owner);
    if events != [] {
      assert forall k :: 0 <= k < |events| - 1 ==> events[..|events| - 1][k] == events[k];
      OneKindTotals(limits, events[..|events| - 1], owner);
    }
  }

  // --- What makes a size late ------------------------------------------------

  /** The request that declared the upload's size. */
  predicate Declares(events: seq<Event>, j: nat, u: string) {
    j < |events| && events[j].Admit? && events[j].uploadID == u && events[j].expected > 0
  }

  /** After that request the repository looked for expired reservations, and found the time of
      this one up. */
  predicate SweptAfter(limits: Limits, events: seq<Event>, j: nat, m: nat) {
    && j < m < |events| && events[j].Admit? && (events[m].Sweep? || events[m].Admit?)
    && events[m].now >= events[j].now + limits.ttl
  }

  /** The upload's reservation stands until its time is up. */
  ghost predicate Timely(limits: Limits, events: seq<Event>, u: string, j: nat) {
    && Declares(events, j, u)
    && var reservations := Run(limits, events).book.reservations;
       if u in reservations then reservations[u].expiresAt == events[j].now + limits.ttl
       else exists m :: SweptAfter(limits, events, j, m)
  }

  lemma BookKept(limits: Limits, w: World, e: Event, u: string)
    requires !e.Admit? && !e.Sweep? && !e.Restart? && Open(w, u) && Open(Next(limits, w, e), u)
    requires ViewOK(ViewOf(w, u))
    ensures Find(Next(limits, w, e).book.reservations, u) == Find(w.book.reservations, u)
  {
    if e.Receive? || e.Abandon? || e.Finish? || e.Persist? {
      UndoneElsewhere(w.book, e.uploadID, e.undo, u);
      if e.Persist? && e.uploadID in w.manager.uploads {
        UndoneElsewhere(C.Update(w.book, e.uploadID, w.manager.uploads[e.uploadID].size, I.Quarantined), e.uploadID,
                        e.undo,
                        u);
      }
    }
    hide S.Fits, S.Chunk, S.GiveBack, S.Quota, UndoneBook;
  }

  lemma UndoneElsewhere(b: C.Book, v: string, undo: Undo, u: string)
    ensures u != v ==> Find(UndoneBook(b, v, undo).reservations, u) == Find(b.reservations, u)
  {}

  /** One step of an upload that is open before and after it. */
  lemma ReservationStays(limits: Limits, w: World, e: Event, u: string)
    requires TablesOK(w) && Open(w, u) && Open(Next(limits, w, e), u)
    ensures
      var before, after := w.book.reservations, Next(limits, w, e).book.reservations;
      && (u in after ==> u in before && after[u] == before[u])
      && (u in before && u !in after ==> (e.Sweep? || e.Admit?) && e.now >= before[u].expiresAt)
  {
    assert ViewOK(ViewOf(w, u));
    if e.Admit? {
      assert ViewOK(ViewOf(w, e.uploadID));
      hide TablesOK;
      if e.uploadID !in w.declared {
        RequestedBook(C.Create(w.book, e.uploadID, e.ownerID),
                      RequestOf(limits, w.manager, e.uploadID, e.ownerID, e.expected, e.now), e.answer, u);
        hide Requested, Grants, S.Begin, S.Quota, ViewOK;
      }
    } else if e.Sweep? || e.Restart? {
      hide TablesOK, ViewOK, ViewOf;
    } else {
      hide TablesOK, ViewOK, ViewOf, Next;
      BookKept(limits, w, e, u);
    }
  }

  /** Only its admission opens an upload, with its reservation. */
  lemma OpenedWith(limits: Limits, w: World, e: Event, u: string)
    requires TablesOK(w) && !Open(w, u) && Open(Next(limits, w, e), u) && Sized(Next(limits, w, e), u)
    ensures e.Admit? && e.uploadID == u && e.expected > 0
    ensures
      var reservations := Next(limits, w, e).book.reservations;
      u in reservations && reservations[u].expiresAt == e.now + limits.ttl
  {
    assert ViewOK(ViewOf(w, u));
    hide TablesOK;
    if e.Admit? {
      if e.uploadID !in w.declared && e.uploadID == u {
        RequestedBook(C.Create(w.book, u, e.ownerID), RequestOf(limits, w.manager, u, e.ownerID, e.expected, e.now),
                      e.answer, u);
      }
      hide Requested, Grants, S.Quota, ViewOK;
    } else {
      hide S.Fits, S.GiveBack, S.Quota, UndoneBook, C.Update, C.Release, C.Expired;
    }
  }

  lemma {:induction false} ReservedUntilSwept(limits: Limits, events: seq<Event>, u: string) returns (j: nat)
    requires Open(Run(limits, events), u) && Sized(Run(limits, events), u)
    ensures Timely(limits, events, u, j)
  {
    var before, n := events[..|events| - 1], |events| - 1;
    var w, e := Run(limits, before), events[n];
    RunKeeps(limits, before, "");
    hide Next, TablesOK, S.Balanced;
    if Open(w, u) {
      NextDeclares(limits, w, e);
      assert Sized(w, u) by { StaysDeclared(limits, w, e, u); }
      j := ReservedUntilSwept(limits, before, u);
      ReservationStays(limits, w, e, u);
      if u !in Next(limits, w, e).book.reservations {
        if u in w.book.reservations {
          assert SweptAfter(limits, events, j, n);
        } else {
          var m :| SweptAfter(limits, before, j, m);
          assert SweptAfter(limits, events, j, m);
        }
      }
    } else {
      OpenedWith(limits, w, e, u);
      j := n;
    }
  }

  lemma StaysDeclared(limits: Limits, w: World, e: Event, u: string)
    requires TablesOK(w) && Open(w, u) && Sized(Next(limits, w, e), u)
    ensures Sized(w, u)
  {
    assert ViewOK(ViewOf(w, u));
    hide TablesOK, Grants, Requested, C.Create, UndoneBook, S.Fits, S.Chunk, S.Begin, S.Cleanup, S.Drop, S.Quota;
  }

  /** A size is late only after its time: some sweep came a whole lifetime after its admission.
      An upload that commits earlier is never late. */
  lemma LateAfterExpiry(limits: Limits, events: seq<Event>, e: Event) returns (j: nat, m: nat)
    requires IsLate(Run(limits, events), e)
    ensures Declares(events, j, e.uploadID) && SweptAfter(limits, events, j, m)
  {
    j := ReservedUntilSwept(limits, events, e.uploadID);
    hide Run;
    m :| SweptAfter(limits, events, j, m);
  }

  // --- The bounds are reached ------------------------------------------------

  /** The manager's settings, with room for the quota. */
  predicate Roomy(limits: Limits) {
    limits.defaultQuota > 0 && limits.ttl > 0 && limits.capacity - limits.reserve >= limits.defaultQuota &&
    limits.reserve >= 0
  }

  const CLEAN: Undo := Undo(true, true)

  function Ann(bytes: nat): C.Record { C.Record("ann", bytes, I.Quarantined) }

  lemma RunOne(limits: Limits, events: seq<Event>, e: Event)
    ensures Run(limits, events + [e]) == Next(limits, Run(limits, events), e)
  {
    assert (events + [e])[..|events|] == events;
  }

  lemma RunNothing(limits: Limits)
    ensures Run(limits, []) == Start(limits)
  {}

  function Of(limits: Limits, uploads: map<string, C.Record>, streams: map<string, nat>, held: map<string, int>,
              book: C.Book, declared: map<string, nat>, unpersisted: set<string>): World {
    World(S.Manager(uploads, streams, held, map[], limits.defaultQuota), book, declared, unpersisted)
  }

  /** One stream that holds the whole quota. */
  function Holding(limits: Limits): World {
    var q := limits.defaultQuota;
    Of(limits, map["s" := Ann(0)], map["s" := if q > 0 then q else 0], map["ann" := q],
       C.Book(map["s" := Ann(0)], map[]), map["s" := 0], {})
  }

  lemma HoldsQuota(limits: Limits)
    requires Roomy(limits)
    ensures Run(limits, [Admit("s", "ann", 0, 0, Answered, CLEAN), Receive("s", limits.defaultQuota, CLEAN)]) ==
            Holding(limits)
  {
    var a, b := Admit("s", "ann", 0, 0, Answered, CLEAN), Receive("s", limits.defaultQuota, CLEAN);
    RunNothing(limits);
    RunOne(limits, [], a);
    RunOne(limits, [a], b);
    assert [] + [a] == [a] && [a] + [b] == [a, b];
    hide Run;
    var w := Of(limits, map["s" := Ann(0)], map["s" := 0], map[], C.Book(map["s" := Ann(0)], map[]), map["s" := 0], {});
    assert Next(limits, Start(limits), a) == w;
    assert S.Finished(w.manager, "ann") == map["s" := 0];
    C.AllZero(S.Finished(w.manager, "ann"));
    assert S.Fits(w.manager, "s", limits.defaultQuota);
  }

  lemma GrantsQuota(limits: Limits, b: C.Book, q: C.Request)
    requires Roomy(limits) && C.Sensible(q) && q.bytes == q.ownerQuota == limits.defaultQuota
    requires q.capacity == limits.capacity && q.reserve == limits.reserve
    requires forall v :: v in b.records ==> b.records[v].size == 0
    requires forall v :: v in b.reservations ==> b.reservations[v].expiresAt <= q.now
    ensures Grants(b, q)
    ensures C.Reserve(b, q)
         == C.Book(b.records, map[q.uploadID := C.Reservation(q.ownerID, limits.defaultQuota, q.expiresAt)])
  {
    var swept := C.Expired(b, q.now);
    assert swept == C.Book(b.records, map[]);
    C.NoCharge(swept);
    hide C.Total;
  }

  /** The repository sees no charge, so it grants the whole quota. */
  lemma ReservesQuota(limits: Limits, w: World, u: string, now: Time)
    requires Roomy(limits) && u !in w.declared && ViewOK(ViewOf(w, u))
    requires w.manager.quotas == map[] && w.manager.defaultQuota == limits.defaultQuota
    requires forall v :: v in w.book.records ==> w.book.records[v].size == 0
    requires forall v :: v in w.book.reservations ==> w.book.reservations[v].expiresAt <= now
    ensures
      var q := limits.defaultQuota;
      Next(limits, w, Admit(u, "ann", q, now, Answered, CLEAN)) ==
      World(w.manager.(uploads := w.manager.uploads[u := Ann(0)], streams := w.manager.streams[u := 0]),
            C.Book(w.book.records[u := Ann(0)], map[u := C.Reservation("ann", q, now + limits.ttl)]),
            w.declared[u := q], w.unpersisted)
  {
    var created := C.Create(w.book, u, "ann");
    assert created == w.book.(records := w.book.records[u := Ann(0)]);
    GrantsQuota(limits, created, RequestOf(limits, w.manager, u, "ann", limits.defaultQuota, now));
    hide Grants, C.Reserve, C.Create;
  }

  function Second(limits: Limits): World
    requires limits.defaultQuota > 0
  {
    var q := limits.defaultQuota;
    Of(limits, map["s" := Ann(0), "u" := Ann(0)], map["s" := q, "u" := 0], map["ann" := q],
       C.Book(map["s" := Ann(0), "u" := Ann(0)], map["u" := C.Reservation("ann", q, limits.ttl)]),
       map["s" := 0, "u" := q], {})
  }

  function Third(limits: Limits): World
    requires limits.defaultQuota > 0
  {
    var q := limits.defaultQuota;
    Of(limits, map["s" := Ann(0), "u" := Ann(q), "v" := Ann(0)], map["s" := q, "v" := 0], map["ann" := q],
       C.Book(map["s" := Ann(0), "u" := Ann(q), "v" := Ann(0)],
              map["v" := C.Reservation("ann", q, limits.ttl + limits.ttl)]),
       map["s" := 0, "u" := q, "v" := q], {})
  }

  lemma SecondTotal(limits: Limits)
    requires limits.defaultQuota > 0
    ensures Total(Second(limits), "ann") == 2 * limits.defaultQuota
  {
    var q, w := limits.defaultQuota, Second(limits);
    assert StreamBytes(w, "ann") == map["s" := 0];
    assert SizedCharges(w, "ann") == map["u" := q];
    hide StreamBytes, SizedCharges;
    C.AllZero(map["s" := 0]);
    SumPut(map[], "u", q);
  }

  lemma ThirdBytes(limits: Limits)
    requires limits.defaultQuota > 0
    ensures StreamBytes(Third(limits), "ann") == map["s" := 0]
    ensures S.Reserved(Third(limits).manager, "ann") == limits.defaultQuota
  {}

  lemma ThirdTotal(limits: Limits)
    requires limits.defaultQuota > 0
    ensures Total(Third(limits), "ann") == 3 * limits.defaultQuota
  {
    var q := limits.defaultQuota;
    ThirdBytes(limits);
    assert SizedCharges(Third(limits), "ann") == map["u" := q]["v" := q] by { hide StreamBytes, S.Reserved; }
    hide StreamBytes, SizedCharges, S.Reserved, Third;
    C.AllZero(map["s" := 0]);
    SumPut(map[], "u", q);
    SumPut(map["u" := q], "v", q);
  }

  lemma ToSecond(limits: Limits)
    requires Roomy(limits)
    ensures Next(limits, Holding(limits), Admit("u", "ann", limits.defaultQuota, 0, Answered, CLEAN)) == Second(limits)
  {
    ReservesQuota(limits, Holding(limits), "u", 0);
    hide Next;
  }

  /** Another upload is admitted in its place. */
  function Replaced(limits: Limits): World
    requires limits.defaultQuota > 0
  {
    var q := limits.defaultQuota;
    Of(limits, map["s" := Ann(0), "u" := Ann(0), "v" := Ann(0)], map["s" := q, "u" := 0, "v" := 0], map["ann" := q],
       C.Book(map["s" := Ann(0), "u" := Ann(0), "v" := Ann(0)],
              map["v" := C.Reservation("ann", q, limits.ttl + limits.ttl)]),
       map["s" := 0, "u" := q, "v" := q], {})
  }

  function Received(limits: Limits): World
    requires limits.defaultQuota > 0
  {
    var q, w := limits.defaultQuota, Replaced(limits);
    w.(manager := w.manager.(uploads := map["s" := Ann(0), "u" := Ann(q), "v" := Ann(0)],
                             streams := map["s" := q, "v" := 0]), unpersisted := {"u"})
  }

  lemma ToReplaced(limits: Limits)
    requires Roomy(limits)
    ensures Next(limits, Second(limits), Admit("v", "ann", limits.defaultQuota, limits.ttl, Answered, CLEAN)) ==
            Replaced(limits)
  {
    ReservesQuota(limits, Second(limits), "v", limits.ttl);
    hide Next;
  }

  lemma ToReceived(limits: Limits)
    requires Roomy(limits)
    ensures Next(limits, Replaced(limits), Finish("u", CLEAN)) == Received(limits)
  {
    assert Replaced(limits).manager.streams - {"u"} == Received(limits).manager.streams;
  }

  lemma ToThird(limits: Limits)
    requires Roomy(limits)
    ensures Next(limits, Received(limits), Persist("u", Answered, CLEAN)) == Third(limits)
  {}

  /** Twice the quota: stream it, then reserve it. */
  lemma QuotaTwice(limits: Limits)
    requires Roomy(limits)
    ensures
      var q := limits.defaultQuota;
      var events := [Admit("s", "ann", 0, 0, Answered, CLEAN), Receive("s", q, CLEAN),
                     Admit("u", "ann", q, 0, Answered, CLEAN)];
      Run(limits, events) == Second(limits) && Total(Run(limits, events), "ann") == 2 * q
  {
    hide Run, Next, Total, Holding, Second;
    var q := limits.defaultQuota;
    var before := [Admit("s", "ann", 0, 0, Answered, CLEAN), Receive("s", q, CLEAN)];
    var e := Admit("u", "ann", q, 0, Answered, CLEAN);
    HoldsQuota(limits);
    RunOne(limits, before, e);
    assert before + [e] == [before[0], before[1], e];
    ToSecond(limits);
    SecondTotal(limits);
  }

  /** And three times: the reservation expires, a second upload takes its place, and then the
      first commits its size. */
  lemma QuotaThrice(limits: Limits)
    requires Roomy(limits)
    ensures
      var q := limits.defaultQuota;
      var events := [Admit("s", "ann", 0, 0, Answered, CLEAN), Receive("s", q, CLEAN),
                     Admit("u", "ann", q, 0, Answered, CLEAN),
                     Admit("v", "ann", q, limits.ttl, Answered, CLEAN), Finish("u", CLEAN),
                         Persist("u", Answered, CLEAN)];
      Run(limits, events) == Third(limits) && Total(Run(limits, events), "ann") == 3 * q
  {
    hide Run, Next, Total, Second, Third, Replaced, Received;
    var q := limits.defaultQuota;
    var e3 := [Admit("s", "ann", 0, 0, Answered, CLEAN), Receive("s", q, CLEAN),
               Admit("u", "ann", q, 0, Answered, CLEAN)];
    var a, b, c := Admit("v", "ann", q, limits.ttl, Answered, CLEAN), Finish("u", CLEAN), Persist("u", Answered, CLEAN);
    QuotaTwice(limits);
    RunOne(limits, e3, a);
    RunOne(limits, e3 + [a], b);
    RunOne(limits, e3 + [a] + [b], c);
    assert e3 + [a] + [b] + [c] == [e3[0], e3[1], e3[2], a, b, c];
    ToReplaced(limits);
    ToReceived(limits);
    ToThird(limits);
    ThirdTotal(limits);
  }

  /** A stream of the whole quota, received and committed. */
  function Uploaded(limits: Limits, u: string): seq<Event>
    requires limits.defaultQuota > 0
  {
    [Admit(u, "ann", 0, 0, Answered, CLEAN), Receive(u, limits.defaultQuota, CLEAN), Finish(u, CLEAN),
     Persist(u, Answered, CLEAN)]
  }

  lemma ReceivesAll(limits: Limits, w: World, u: string)
    requires Roomy(limits) && u !in w.declared && ViewOK(ViewOf(w, u))
    requires w.manager == S.Manager(w.manager.uploads, map[], map[], map[], limits.defaultQuota)
    requires Sum(S.Finished(w.manager, "ann")) == 0
    ensures
      var q := limits.defaultQuota;
      Next(limits, Next(limits, w, Admit(u, "ann", 0, 0, Answered, CLEAN)), Receive(u, q, CLEAN)) ==
      World(S.Manager(w.manager.uploads[u := Ann(0)], map[u := q], map["ann" := q], map[], q),
            w.book.(records := w.book.records[u := Ann(0)]), w.declared[u := 0], w.unpersisted)
  {
    var begun := S.Begin(w.manager, u, "ann");
    assert S.Finished(begun, "ann") == S.Finished(w.manager, "ann")[u := 0];
    hide S.Finished;
    SumPut(S.Finished(w.manager, "ann"), u, 0);
  }

  lemma CommitsAll(limits: Limits, w: World, u: string)
    requires Roomy(limits) && u in w.manager.uploads && w.manager.uploads[u] == Ann(0) && w.unpersisted == {}
    requires u in w.declared && w.declared[u] == 0 && u in w.book.records && w.book.records[u] == Ann(0)
    requires w.manager.streams == map[u := limits.defaultQuota]
    requires w.manager.reservations == map["ann" := limits.defaultQuota]
    ensures
      var q := limits.defaultQuota;
      Next(limits, Next(limits, w, Finish(u, CLEAN)), Persist(u, Answered, CLEAN)) ==
      w.(manager := w.manager.(uploads := w.manager.uploads[u := Ann(q)], streams := map[], reservations := map[]),
         book := w.book.(records := w.book.records[u := Ann(q)]))
  {
    assert map["ann" := limits.defaultQuota] - {"ann"} == map[];
    assert map[u := limits.defaultQuota] - {u} == map[];
  }

  lemma RunFour(limits: Limits, before: seq<Event>, a: Event, b: Event, c: Event, d: Event)
    ensures Run(limits, before + [a, b, c, d])
         == Next(limits, Next(limits, Next(limits, Next(limits, Run(limits, before), a), b), c), d)
  {
    hide Next, Run;
    RunOne(limits, before, a);
    RunOne(limits, before + [a], b);
    RunOne(limits, before + [a] + [b], c);
    RunOne(limits, before + [a] + [b] + [c], d);
    assert before + [a] + [b] + [c] + [d] == before + [a, b, c, d];
  }

  lemma UploadsAll(limits: Limits, before: seq<Event>, w: World, u: string)
    requires Run(limits, before) == w
    requires Roomy(limits) && u !in w.declared && ViewOK(ViewOf(w, u)) && w.unpersisted == {}
    requires w.manager == S.Manager(w.manager.uploads, map[], map[], map[], limits.defaultQuota)
    requires Sum(S.Finished(w.manager, "ann")) == 0
    ensures
      var q := limits.defaultQuota;
      Run(limits, before + Uploaded(limits, u)) ==
      World(w.manager.(uploads := w.manager.uploads[u := Ann(0)][u := Ann(q)]),
            w.book.(records := w.book.records[u := Ann(0)][u := Ann(q)]), w.declared[u := 0], {})
  {
    hide Next, Run, ViewOK, ViewOf, S.Finished;
    var e := Uploaded(limits, u);
    RunFour(limits, before, e[0], e[1], e[2], e[3]);
    ReceivesAll(limits, w, u);
    CommitsAll(limits, Next(limits, Next(limits, w, e[0]), e[1]), u);
  }

  /** Stored by the database, whose answer is an error; memory gives it up and cannot record
      that either. */
  const GIVENUP: seq<Event> := [Advance("s", I.Encrypting), PersistStatus("s", I.Stored), Advance("s", I.Failed)]

  function Stored(bytes: nat): C.Record { C.Record("ann", bytes, I.Stored) }

  function One(limits: Limits, memory: C.Record, row: C.Record): World {
    Of(limits, map["s" := memory], map[], map[], C.Book(map["s" := row], map[]), map["s" := 0], {})
  }

  lemma GivesUp(limits: Limits, before: seq<Event>)
    requires Roomy(limits) && Run(limits, before) == One(limits, Ann(limits.defaultQuota), Ann(limits.defaultQuota))
    ensures Run(limits, before + GIVENUP)
         == One(limits, C.Record("ann", limits.defaultQuota, I.Failed), Stored(limits.defaultQuota))
  {
    hide Run;
    RunOne(limits, before, GIVENUP[0]);
    RunOne(limits, before + [GIVENUP[0]], GIVENUP[1]);
    RunOne(limits, before + [GIVENUP[0]] + [GIVENUP[1]], GIVENUP[2]);
    assert before + [GIVENUP[0]] + [GIVENUP[1]] + [GIVENUP[2]] == before + GIVENUP;
  }

  lemma TwoSurvive(w: World, q: nat)
    requires q > 0 && w.book.records == map["s" := Stored(q), "t" := Ann(q)] && w.declared == map["s" := 0, "t" := 0]
    ensures Surviving(w, {"s"}, "ann") == map["s" := q]["t" := q]
  {}

  lemma RestartsOver(limits: Limits, w: World)
    requires limits.defaultQuota > 0
    requires w.book == C.Book(map["s" := Stored(limits.defaultQuota), "t" := Ann(limits.defaultQuota)], map[])
    requires w.declared == map["s" := 0, "t" := 0]
    ensures StreamUse(Next(limits, w, Restart({"s"}, {}, map[])), "ann") == 2 * limits.defaultQuota
  {
    var q := limits.defaultQuota;
    TwoSurvive(w, q);
    hide Surviving, Next, StreamUse, RestartStep;
    RestartFits(limits, w, {"s"}, {}, map[], "ann");
    NextRestarts(limits, w, Restart({"s"}, {}, map[]));
    SumPut(map[], "s", q);
    SumPut(map["s" := q], "t", q);
  }

  /** Streams alone reach twice the quota over a restart: memory had given one of them up, the
      database had not. */
  lemma RevivedTwice(limits: Limits)
    requires Roomy(limits)
    ensures
      var events := Uploaded(limits, "s") + GIVENUP + Uploaded(limits, "t") + [Restart({"s"}, {}, map[])];
      StreamUse(Run(limits, events), "ann") == 2 * limits.defaultQuota
  {
    var s, t := Uploaded(limits, "s"), Uploaded(limits, "t");
    hide Run, Next, Uploaded, StreamUse;
    FirstGivenUp(limits);
    SecondUploaded(limits, s + GIVENUP);
    RunOne(limits, s + GIVENUP + t, Restart({"s"}, {}, map[]));
    RestartsOver(limits, Run(limits, s + GIVENUP + t));
  }

  lemma FirstGivenUp(limits: Limits)
    requires Roomy(limits)
    ensures Run(limits, Uploaded(limits, "s") + GIVENUP)
         == One(limits, C.Record("ann", limits.defaultQuota, I.Failed), Stored(limits.defaultQuota))
  {
    var s := Uploaded(limits, "s");
    assert S.Finished(Start(limits).manager, "ann") == map[];
    assert [] + s == s;
    hide Run, Next, Uploaded, S.Finished;
    RunNothing(limits);
    UploadsAll(limits, [], Start(limits), "s");
    GivesUp(limits, s);
  }

  lemma SecondUploaded(limits: Limits, before: seq<Event>)
    requires Roomy(limits)
    requires Run(limits, before)
          == One(limits, C.Record("ann", limits.defaultQuota, I.Failed), Stored(limits.defaultQuota))
    ensures
      var q, w := limits.defaultQuota, Run(limits, before + Uploaded(limits, "t"));
      w.book == C.Book(map["s" := Stored(q), "t" := Ann(q)], map[]) && w.declared == map["s" := 0, "t" := 0]
  {
    var q, w := limits.defaultQuota, Run(limits, before);
    assert S.Finished(w.manager, "ann") == map[];
    assert w.book.records["t" := Ann(0)]["t" := Ann(q)] == map["s" := Stored(q), "t" := Ann(q)];
    hide Run, Next, Uploaded, S.Finished;
    UploadsAll(limits, before, w, "t");
  }

  /** A stream of the whole quota whose commit is in doubt: the upload is undone, and its row
      stays. */
  const STRAY: Undo := Undo(true, false)

  function Kept(limits: Limits, u: string): seq<Event>
    requires limits.defaultQuota > 0
  {
    [Admit(u, "ann", 0, 0, Answered, CLEAN), Receive(u, limits.defaultQuota, CLEAN), Finish(u, CLEAN),
     Persist(u, InDoubt, STRAY)]
  }

  /** Memory has forgotten the upload; the database has not. */
  function Strayed(limits: Limits): World {
    var q := limits.defaultQuota;
    Of(limits, map[], map[], map[], C.Book(map["s" := Ann(if q > 0 then q else 0)], map[]), map["s" := 0], {})
  }

  lemma DropsAll(limits: Limits)
    requires Roomy(limits)
    ensures Next(limits, Next(limits, Holding(limits), Finish("s", CLEAN)), Persist("s", InDoubt, STRAY)) ==
            Strayed(limits)
  {
    var q := limits.defaultQuota;
    assert map["ann" := q] - {"ann"} == map[] && map["s" := q] - {"s"} == map[] && map["s" := Ann(q)] - {"s"} == map[];
  }

  lemma KeepsRow(limits: Limits)
    requires Roomy(limits)
    ensures Run(limits, Kept(limits, "s")) == Strayed(limits)
  {
    var e := Kept(limits, "s");
    hide Run, Next, Holding, Strayed;
    HoldsQuota(limits);
    RunOne(limits, [e[0], e[1]], e[2]);
    RunOne(limits, [e[0], e[1]] + [e[2]], e[3]);
    assert [e[0], e[1]] + [e[2]] + [e[3]] == e;
    DropsAll(limits);
  }

  lemma SecondBesideStray(limits: Limits, before: seq<Event>)
    requires Roomy(limits) && Run(limits, before) == Strayed(limits)
    ensures
      var q := limits.defaultQuota;
      Run(limits, before + Uploaded(limits, "t"))
      == Of(limits, map["t" := Ann(q)], map[], map[], C.Book(map["s" := Ann(q), "t" := Ann(q)], map[]),
            map["s" := 0, "t" := 0], {})
  {
    var q, w := limits.defaultQuota, Strayed(limits);
    assert S.Finished(w.manager, "ann") == map[];
    assert w.book.records["t" := Ann(0)]["t" := Ann(q)] == map["s" := Ann(q), "t" := Ann(q)];
    assert map["t" := Ann(0)]["t" := Ann(q)] == map["t" := Ann(q)];
    hide Run, Next, Uploaded, S.Finished;
    UploadsAll(limits, before, w, "t");
  }

  lemma ComesBack(limits: Limits, w: World)
    requires limits.defaultQuota > 0
    requires
      var q := limits.defaultQuota;
      w == Of(limits, map["t" := Ann(q)], map[], map[], C.Book(map["s" := Ann(q), "t" := Ann(q)], map[]),
              map["s" := 0, "t" := 0], {})
    ensures StreamUse(w, "ann") == limits.defaultQuota
    ensures StreamUse(Next(limits, w, Retry("s")), "ann") == 2 * limits.defaultQuota
  {
    var q := limits.defaultQuota;
    assert StreamBytes(w, "ann") == map["t" := q];
    assert S.InFlight(w.manager, "ann") == map[];
    assert Returned(w, Retry("s"), "ann") == q;
    RetryFits(w, Retry("s"), "ann");
    hide StreamBytes, RetryStep, Returned;
    SumPut(map[], "t", q);
  }

  /** Streams alone, in one process: a commit in doubt leaves a row that memory forgets, another
      upload takes its place, and then the first key is repeated. */
  lemma RetriedTwice(limits: Limits)
    requires Roomy(limits)
    ensures
      var events := Kept(limits, "s") + Uploaded(limits, "t") + [Retry("s")];
      && StreamsOnly(events) && (forall k :: 0 <= k < |events| ==> !events[k].Restart?)
      && StreamUse(Run(limits, events), "ann") == 2 * limits.defaultQuota
  {
    var s, t := Kept(limits, "s"), Uploaded(limits, "t");
    assert StreamsOnly(s + t + [Retry("s")]);
    hide Run, Next, Kept, Uploaded, StreamUse, Strayed;
    KeepsRow(limits);
    SecondBesideStray(limits, s);
    RunOne(limits, s + t, Retry("s"));
    ComesBack(limits, Run(limits, s + t));
  }
}
