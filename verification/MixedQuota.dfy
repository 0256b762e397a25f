/** One process with its database, for uploads that declare a size and uploads that stream.
    Declared sizes are admitted by the repository, which does not see what running streams
    hold; chunks are admitted by the manager, which does not see what is reserved. A
    reservation may be swept while its upload is still streaming, and the size is then
    committed without it. */
module MixedQuota {
  import opened Wrappers
  import opened Sums
  import C = Capacity
  import I = IngestModel
  import S = StreamQuota

  /** How the process is configured. */
  datatype Limits = Limits(capacity: int, reserve: int, ttl: Time, defaultQuota: int)

  /** The manager's memory and the repository's tables. `declared` tells for every upload ever
      begun the size its request declared, zero if it declared none; `unpersisted` are the
      uploads received but not yet committed. */
  datatype World = World(manager: S.Manager, book: C.Book, declared: map<string, nat>, unpersisted: set<string>)

  /** Whether undoing an upload gets its reservation and its row removed. */
  datatype Undo = Undo(released: bool, deleted: bool)

  /** How a transaction ends: it takes effect and is heard of, it is rolled back, or it takes
      effect and is answered with an error. */
  datatype Answer = Answered | Refused | InDoubt

  datatype Event =
    | Admit(uploadID: string, ownerID: string, expected: nat, now: Time, answer: Answer, undo: Undo)
    | Retry(uploadID: string)
    | Receive(uploadID: string, bytes: nat, undo: Undo)
    | Abandon(uploadID: string, undo: Undo)
    | Finish(uploadID: string, undo: Undo)
    | Persist(uploadID: string, answer: Answer, undo: Undo)
    | Advance(uploadID: string, status: I.Status)
    | PersistStatus(uploadID: string, status: I.Status)
    | Release(uploadID: string)
    | Sweep(now: Time)
    | SetQuota(ownerID: string, quota: int)
    | ResetQuota(ownerID: string)
    | Restart(missing: set<string>, kept: set<string>, quotas: map<string, int>)

  // --- Steps -----------------------------------------------------------------

  predicate Streamed(w: World, u: string) { u in w.declared && w.declared[u] == 0 }

  predicate Sized(w: World, u: string) { u in w.declared && w.declared[u] > 0 }

  /** Still being received, or received and not yet committed. */
  predicate Open(w: World, u: string) { u in w.manager.streams || u in w.unpersisted }

  function UndoneBook(b: C.Book, u: string, undo: Undo): C.Book {
    var released := if undo.released then C.Release(b, u) else b;
    if undo.deleted then C.Delete(released, u) else released
  }

  /** Memory forgets the upload and returns what its stream holds; the repository may fail to. */
  function Forgotten(w: World, u: string, undo: Undo): World {
    w.(manager := if u in w.manager.streams then S.Cleanup(w.manager, u) else S.Drop(w.manager, u),
       book := UndoneBook(w.book, u, undo), unpersisted := w.unpersisted - {u})
  }

  function RequestOf(limits: Limits, m: S.Manager, u: string, owner: string, bytes: nat, now: Time): C.Request {
    C.Request(u, owner, bytes, S.Quota(m, owner), limits.capacity, limits.reserve, now, now + limits.ttl)
  }

  ghost predicate Grants(b: C.Book, q: C.Request) { C.Sensible(q) && C.Decide(C.Expired(b, q.now), q).Success? }

  /** The request for a reservation. Without room it sweeps what has expired, in memory; in SQL
      that is rolled back with it. */
  ghost function Requested(b: C.Book, q: C.Request, answer: Answer): C.Book {
    if answer.Refused? then b else C.Reserve(b, q)
  }

  /** A row first, then, for a declared size, a reservation; a request that is refused, or whose
      answer is an error, removes its row again. */
  ghost function AdmitStep(limits: Limits, w: World, u: string, owner: string, expected: nat, now: Time,
                           answer: Answer, undo: Undo): World {
    if u in w.declared then w
    else
      var created, declared := C.Create(w.book, u, owner), w.declared[u := expected];
      var q := RequestOf(limits, w.manager, u, owner, expected, now);
      var requested := Requested(created, q, answer);
      if expected == 0 then
        w.(manager := S.Begin(w.manager, u, owner), book := created, declared := declared)
      else if Grants(created, q) && answer.Answered? then
        w.(manager := S.Begin(w.manager, u, owner), book := requested, declared := declared)
      else
        w.(book := UndoneBook(requested, u, undo.(released := false)), declared := declared)
  }

  /** An owner repeats an upload's key when memory has forgotten the upload and the repository
      still has its row: the row comes back into memory as it is, and nothing is admitted. */
  function RetryStep(w: World, u: string): World {
    if u !in w.book.records then w else w.(manager := S.PutBack(w.manager, u, w.book.records[u]))
  }

  /** Chunks of a declared size are not counted; others are held if they fit. */
  ghost function ReceiveStep(w: World, u: string, bytes: nat, undo: Undo): World {
    if u !in w.manager.streams || u !in w.manager.uploads || !Streamed(w, u) || bytes == 0 then w
    else if S.Fits(w.manager, u, bytes) then w.(manager := S.Chunk(w.manager, u, bytes))
    else Forgotten(w, u, undo)
  }

  /** The whole declared size has arrived; nothing was held for it. */
  function FinishSized(m: S.Manager, u: string, size: nat): S.Manager
    requires u in m.uploads
  {
    m.(uploads := m.uploads[u := m.uploads[u].(size := size)],
       reservations := S.GiveBack(m.reservations, m.uploads[u].ownerID, 0), streams := m.streams - {u})
  }

  function FinishStep(w: World, u: string, undo: Undo): World {
    if u !in w.manager.streams || u !in w.manager.uploads || u !in w.declared then w
    else if w.declared[u] > 0 then
      w.(manager := FinishSized(w.manager, u, w.declared[u]), unpersisted := w.unpersisted + {u})
    else if w.manager.streams[u] == 0 then Forgotten(w, u, undo)
    else w.(manager := S.Complete(w.manager, u), unpersisted := w.unpersisted + {u})
  }

  /** The commit of the received size. It does not look for the reservation. An error undoes the
      upload, whether or not the commit took effect. */
  function PersistStep(w: World, u: string, answer: Answer, undo: Undo): World {
    if u !in w.unpersisted || u !in w.manager.uploads then w
    else
      var committed := if answer.Refused? then w
        else w.(book := C.Update(w.book, u, w.manager.uploads[u].size, I.Quarantined));
      if answer.Answered? then committed.(unpersisted := w.unpersisted - {u}) else Forgotten(committed, u, undo)
  }

  /** Tasks end with a status that does not count and never leave it. */
  function AdvanceStep(w: World, u: string, status: I.Status): World {
    if Open(w, u) || u !in w.manager.uploads || !C.CountsTowardQuota(w.manager.uploads[u].status) then w
    else w.(manager := S.ChangeStatus(w.manager, u, status))
  }

  function PersistStatusStep(w: World, u: string, status: I.Status): World {
    if Open(w, u) || u !in w.manager.uploads || u !in w.book.records then w
    else if C.CountsTowardQuota(status) && !C.CountsTowardQuota(w.book.records[u].status) then w
    else w.(book := C.Update(w.book, u, w.manager.uploads[u].size, status))
  }

  /** A row whose reception never ended, or whose plaintext is gone too early. */
  predicate Broken(r: C.Record, missing: bool) {
    || (r.status == I.Quarantined && r.size == 0)
    || (missing && (r.status == I.Quarantined || r.status == I.Inspecting || r.status == I.Accepted ||
                    r.status == I.Encrypting))
  }

  function Recovered(records: map<string, C.Record>, missing: set<string>): map<string, C.Record> {
    map u | u in records ::
      if Broken(records[u], u in missing) then records[u].(status := I.Failed) else records[u]
  }

  /** The reservations of incomplete rows go, but for those whose release fails. */
  function StillReserved(b: C.Book, kept: set<string>): map<string, C.Reservation> {
    map u | u in b.reservations &&
            (u in kept || (u in b.records && !(b.records[u].status == I.Quarantined && b.records[u].size == 0))) ::
      b.reservations[u]
  }

  /** Memory is built again from the rows and quotas of the database. */
  function RestartStep(limits: Limits, w: World, missing: set<string>, kept: set<string>, quotas: map<string, int>):
      World {
    var rows := Recovered(w.book.records, missing);
    World(S.Manager(rows, map[], map[], quotas, limits.defaultQuota),
          C.Book(rows, StillReserved(w.book, kept)), w.declared, {})
  }

  ghost function Next(limits: Limits, w: World, e: Event): World {
    match e
    case Admit(u, o, n, now, a, undo) => AdmitStep(limits, w, u, o, n, now, a, undo)
    case Receive(u, n, undo) => ReceiveStep(w, u, n, undo)
    case Abandon(u, undo) => if u in w.manager.streams then Forgotten(w, u, undo) else w
    case Finish(u, undo) => FinishStep(w, u, undo)
    case Persist(u, answer, undo) => PersistStep(w, u, answer, undo)
    case Retry(u) => RetryStep(w, u)
    case Advance(u, s) => AdvanceStep(w, u, s)
    case PersistStatus(u, s) => PersistStatusStep(w, u, s)
    case Release(u) => if Open(w, u) then w else w.(book := C.Release(w.book, u))
    case Sweep(now) => w.(book := C.Expired(w.book, now))
    case SetQuota(o, n) => w.(manager := S.Next(w.manager, S.SetQuota(o, n)))
    case ResetQuota(o) => w.(manager := S.Next(w.manager, S.ResetQuota(o)))
    case Restart(missing, kept, quotas) => RestartStep(limits, w, missing, kept, quotas)
  }

  function Start(limits: Limits): World {
    World(S.Manager(map[], map[], map[], map[], limits.defaultQuota), C.Book(map[], map[]), map[], {})
  }

  ghost function Run(limits: Limits, events: seq<Event>): World {
    if events == [] then Start(limits)
    else Next(limits, Run(limits, events[..|events| - 1]), events[|events| - 1])
  }

  // --- What every step keeps -------------------------------------------------

  /** Everything about one upload. */
  datatype View = View(memory: Option<C.Record>, stream: Option<nat>, unpersisted: bool, row: Option<C.Record>,
                       reservation: Option<C.Reservation>, declared: Option<nat>)

  function Find<V>(m: map<string, V>, u: string): Option<V> { if u in m then Some(m[u]) else None }

  function ViewOf(w: World, u: string): View {
    View(Find(w.manager.uploads, u), Find(w.manager.streams, u), u in w.unpersisted, Find(w.book.records, u),
         Find(w.book.reservations, u), Find(w.declared, u))
  }

  /** While an upload is open its row is as it was created; later row and memory agree on the
      size. A row of a declared size has that size or none yet, and a reservation is for it. */
  predicate ViewOK(v: View) {
    && (v.memory.Some? ==>
          && v.row.Some? && v.row.value.ownerID == v.memory.value.ownerID
          && if v.stream.Some? || v.unpersisted
             then v.memory.value.status == I.Quarantined &&
                  v.row.value == C.Record(v.memory.value.ownerID, 0, I.Quarantined)
             else v.memory.value.size == v.row.value.size)
    && (v.stream.Some? ==>
          && v.memory.Some? && v.memory.value.size == 0 && !v.unpersisted
          && (v.declared != Some(0) ==> v.stream.value == 0))
    && (v.unpersisted ==> v.memory.Some? && (v.declared != Some(0) ==> Some(v.memory.value.size) == v.declared))
    && (v.row.Some? ==>
          v.declared.Some? && (v.declared.value == 0 || v.row.value.size == 0 || v.row.value.size == v.declared.value))
    && (v.reservation.Some? ==>
          && v.row.Some? && v.row.value.ownerID == v.reservation.value.ownerID
          && v.declared.value > 0 && v.reservation.value.bytes == v.declared.value)
  }

  ghost predicate TablesOK(w: World) { forall u :: ViewOK(ViewOf(w, u)) }

  ghost predicate Inv(w: World) { TablesOK(w) && forall owner :: S.Balanced(w.manager, owner) }

  lemma ForgottenView(w: World, u: string, undo: Undo, v: string)
    requires ViewOK(ViewOf(w, v)) && ViewOK(ViewOf(w, u)) && Open(w, u)
    ensures ViewOK(ViewOf(Forgotten(w, u, undo), v))
  {
    hide S.GiveBack;
  }

  /** What an undone upload leaves: nothing in memory, its row unless that was removed, and its
      reservation unless that was released or went with the row. */
  lemma ForgottenLeaves(w: World, u: string, undo: Undo)
    requires ViewOK(ViewOf(w, u)) && Open(w, u)
    ensures
      var v, v' := ViewOf(w, u), ViewOf(Forgotten(w, u, undo), u);
      && v'.memory == None && v'.stream == None && !v'.unpersisted && v'.declared == v.declared
      && v'.row == (if undo.deleted then None else v.row)
      && v'.reservation == if undo.deleted || undo.released then None else v.reservation
  {
    hide S.GiveBack;
  }

  /** What an admission leaves. Of an undeclared size: a row and a running stream of nothing. Of
      a declared one that is granted and answered: a row, a reservation of that size for one
      lifetime, and a running upload. Of any other: nothing in memory, its row if that was not
      removed again, and beside it a reservation if the request took effect unheard. */
  lemma AdmittedLeaves(limits: Limits, w: World, u: string, owner: string, expected: nat, now: Time, answer: Answer,
                       undo: Undo)
    requires TablesOK(w) && u !in w.declared
    ensures
      var v' := ViewOf(AdmitStep(limits, w, u, owner, expected, now, answer, undo), u);
      var q := C.Request(u, owner, expected, S.Quota(w.manager, owner), limits.capacity, limits.reserve, now,
                         now + limits.ttl);
      var granted := expected > 0 && Grants(C.Create(w.book, u, owner), q);
      var begun, held := C.Record(owner, 0, I.Quarantined), C.Reservation(owner, expected, now + limits.ttl);
      && v'.declared == Some(expected) && !v'.unpersisted
      && (expected == 0 ==>
            v'.memory == Some(begun) && v'.row == Some(begun) && v'.stream == Some(0) && v'.reservation == None)
      && (granted && answer.Answered? ==>
            v'.memory == Some(begun) && v'.row == Some(begun) && v'.stream == Some(0) && v'.reservation == Some(held))
      && (expected > 0 && !(granted && answer.Answered?) ==>
            && v'.memory == None && v'.stream == None
            && v'.row == (if undo.deleted then None else Some(begun))
            && v'.reservation == if granted && answer.InDoubt? && !undo.deleted then Some(held) else None)
  {
    assert ViewOK(ViewOf(w, u));
    RequestedBook(C.Create(w.book, u, owner), RequestOf(limits, w.manager, u, owner, expected, now), answer, u);
    hide C.Reserve, Grants, Requested;
  }

  /** What a commit leaves: answered, the received size in the row; with an error, an undone
      upload, whose row, if it stays, has the size when the commit took effect. */
  lemma PersistedLeaves(w: World, u: string, answer: Answer, undo: Undo)
    requires ViewOK(ViewOf(w, u)) && u in w.unpersisted
    ensures
      var v, v' := ViewOf(w, u), ViewOf(PersistStep(w, u, answer, undo), u);
      var committed := Some(C.Record(v.memory.value.ownerID, v.memory.value.size, I.Quarantined));
      && !v'.unpersisted && v'.stream == None
      && (answer.Answered? ==> v'.memory == v.memory && v'.row == committed && v'.reservation == v.reservation)
      && (!answer.Answered? ==>
            && v'.memory == None
            && v'.row == (if undo.deleted then None else if answer.Refused? then v.row else committed)
            && v'.reservation == if undo.deleted || undo.released then None else v.reservation)
  {}

  /** The steps that need no table: giving up a running upload undoes it and any other is left
      alone; a reservation is released unless its upload is open, and swept once its time is
      over; and a quota is what it was last set to, or the default again. */
  lemma SmallSteps(limits: Limits, w: World, u: string, undo: Undo, now: Time, owner: string, quota: int)
    requires ViewOK(ViewOf(w, u))
    ensures
      var w' := Next(limits, w, Abandon(u, undo));
      if u in w.manager.streams then u !in w'.manager.uploads && u !in w'.manager.streams else w' == w
    ensures
      var w' := Next(limits, w, Release(u));
      && w' == w.(book := w'.book) && w'.book.records == w.book.records
      && (u in w'.book.reservations <==> u in w.book.reservations && (u in w.manager.streams || u in w.unpersisted))
    ensures
      var w' := Next(limits, w, Sweep(now));
      && w' == w.(book := w'.book) && w'.book.records == w.book.records
      && (u in w'.book.reservations <==> u in w.book.reservations && now < w.book.reservations[u].expiresAt)
    ensures S.Quota(Next(limits, w, SetQuota(owner, quota)).manager, owner) == quota
    ensures S.Quota(Next(limits, w, ResetQuota(owner)).manager, owner) == w.manager.defaultQuota
  {
    hide S.GiveBack;
  }

  /** What a restart leaves: memory is the rows, an incomplete one and an unfinished one without
      its plaintext as failed; no stream; and the reservations but for those of incomplete rows
      that were released. */
  lemma RestartedLeaves(limits: Limits, w: World, missing: set<string>, kept: set<string>, quotas: map<string, int>,
                        u: string)
    requires ViewOK(ViewOf(w, u))
    ensures
      var v, v' := ViewOf(w, u), ViewOf(RestartStep(limits, w, missing, kept, quotas), u);
      && v'.memory == v'.row && v'.stream == None && !v'.unpersisted && v'.declared == v.declared
      && (v.row == None ==> v'.row == None)
      && (v.row.Some? ==>
            var row := v.row.value;
            var empty := row.status == I.Quarantined && row.size == 0;
            var ended := row.status == I.Stored || row.status == I.Rejected || row.status == I.Failed;
            && v'.row == Some(if empty || (u in missing && !ended) then row.(status := I.Failed) else row)
            && v'.reservation == if empty && u !in kept then None else v.reservation)
  {}

  /** The book after a request: no row changes, no other reservation appears. */
  lemma ReservedBook(b: C.Book, q: C.Request, v: string)
    requires q.uploadID !in b.reservations && q.bytes >= 0
    ensures
      var b' := C.Reserve(b, q);
      && b'.records == b.records
      && Find(b'.reservations, v) ==
         if v == q.uploadID then (if Grants(b, q) then Some(C.Reservation(q.ownerID, q.bytes, q.expiresAt)) else None)
         else if v in b.reservations && (C.Sensible(q) ==> b.reservations[v].expiresAt > q.now)
              then Some(b.reservations[v])
         else None
  {
    hide C.Total;
  }

  /** The same of the request, whatever comes of it. */
  lemma RequestedBook(b: C.Book, q: C.Request, answer: Answer, v: string)
    requires q.uploadID !in b.reservations && q.bytes >= 0
    ensures
      var b' := Requested(b, q, answer);
      && b'.records == b.records
      && Find(b'.reservations, v) ==
         if v == q.uploadID then
           (if Grants(b, q) && !answer.Refused? then Some(C.Reservation(q.ownerID, q.bytes, q.expiresAt)) else None)
         else if v in b.reservations
                 && (C.Sensible(q) && !answer.Refused? ==> b.reservations[v].expiresAt > q.now)
              then Some(b.reservations[v])
         else None
  {
    ReservedBook(b, q, v);
    hide C.Reserve, Grants;
  }

  /** Another upload: at most its reservation is swept. */
  lemma AdmittedOther(limits: Limits, w: World, u: string, owner: string, expected: nat, now: Time, answer: Answer,
                      undo: Undo, v: string)
    requires v != u && ViewOK(ViewOf(w, u))
    ensures
      var w' := AdmitStep(limits, w, u, owner, expected, now, answer, undo);
      ViewOf(w', v) == ViewOf(w, v) || ViewOf(w', v) == ViewOf(w, v).(reservation := None)
  {
    if u !in w.declared {
      var created := C.Create(w.book, u, owner);
      assert u !in w.book.reservations && u !in w.book.records && u !in w.manager.uploads && u !in w.manager.streams;
      hide ViewOK;
      if expected > 0 {
        RequestedBook(created, RequestOf(limits, w.manager, u, owner, expected, now), answer, v);
      }
      hide Requested, Grants, S.Quota;
    }
  }

  lemma AdmittedView(limits: Limits, w: World, u: string, owner: string, expected: nat, now: Time, answer: Answer,
                     undo: Undo, v: string)
    requires ViewOK(ViewOf(w, v)) && ViewOK(ViewOf(w, u))
    ensures ViewOK(ViewOf(AdmitStep(limits, w, u, owner, expected, now, answer, undo), v))
  {
    if v != u {
      AdmittedOther(limits, w, u, owner, expected, now, answer, undo, v);
      hide AdmitStep, ViewOf;
    } else if u !in w.declared {
      var created := C.Create(w.book, u, owner);
      if expected > 0 {
        RequestedBook(created, RequestOf(limits, w.manager, u, owner, expected, now), answer, u);
      }
      hide Requested, Grants, S.Quota;
    }
  }

  lemma PersistedView(w: World, u: string, answer: Answer, undo: Undo, v: string)
    requires ViewOK(ViewOf(w, v)) && ViewOK(ViewOf(w, u))
    ensures ViewOK(ViewOf(PersistStep(w, u, answer, undo), v))
  {}

  lemma ReceivedView(limits: Limits, w: World, e: Event, v: string)
    requires e.Receive? || e.Abandon? || e.Finish? || e.Persist?
    requires ViewOK(ViewOf(w, v)) && ViewOK(ViewOf(w, e.uploadID))
    ensures ViewOK(ViewOf(Next(limits, w, e), v))
  {
    if e.Persist? {
      hide ViewOK, ViewOf, PersistStep;
      PersistedView(w, e.uploadID, e.answer, e.undo, v);
    } else {
      if Open(w, e.uploadID) { ForgottenView(w, e.uploadID, e.undo, v); }
      hide Forgotten, S.Fits, S.GiveBack;
    }
  }

  lemma TaskView(limits: Limits, w: World, e: Event, v: string)
    requires e.Advance? || e.PersistStatus? || e.Release? || e.Retry?
    requires ViewOK(ViewOf(w, v)) && ViewOK(ViewOf(w, e.uploadID))
    ensures ViewOK(ViewOf(Next(limits, w, e), v))
  {}

  lemma StepView(limits: Limits, w: World, e: Event, v: string)
    requires TablesOK(w)
    ensures ViewOK(ViewOf(Next(limits, w, e), v))
  {
    assert ViewOK(ViewOf(w, v));
    if e.Admit? {
      assert ViewOK(ViewOf(w, e.uploadID));
      hide TablesOK, ViewOK, ViewOf, AdmitStep;
      AdmittedView(limits, w, e.uploadID, e.ownerID, e.expected, e.now, e.answer, e.undo, v);
    } else if e.Sweep? || e.SetQuota? || e.ResetQuota? || e.Restart? {
      hide TablesOK;
    } else {
      assert ViewOK(ViewOf(w, e.uploadID));
      hide TablesOK, ViewOK, ViewOf, Next;
      if e.Advance? || e.PersistStatus? || e.Release? || e.Retry? {
        TaskView(limits, w, e, v);
      } else {
        ReceivedView(limits, w, e, v);
      }
    }
  }

  lemma StepTables(limits: Limits, w: World, e: Event)
    requires TablesOK(w)
    ensures TablesOK(Next(limits, w, e))
  {
    forall v ensures ViewOK(ViewOf(Next(limits, w, e), v)) {
      hide *;
      StepView(limits, w, e, v);
    }
    hide ViewOK, ViewOf, Next;
  }

  lemma TablesStreams(w: World)
    requires TablesOK(w)
    ensures S.StreamsOK(w.manager)
  {
    forall u | u in w.manager.streams
      ensures u in w.manager.uploads && w.manager.uploads[u].size == 0 && w.manager.uploads[u].status == I.Quarantined
    {
      assert ViewOK(ViewOf(w, u));
    }
  }

  // --- Bytes of streams ------------------------------------------------------

  /** Finished uploads that declared no size and count, as memory has them. */
  function StreamBytes(w: World, owner: string): map<string, nat> {
    map u | u in w.manager.uploads && Streamed(w, u) && w.manager.uploads[u].ownerID == owner &&
            C.CountsTowardQuota(w.manager.uploads[u].status) :: w.manager.uploads[u].size
  }

  /** What an owner's streams use: finished, or held while running. */
  ghost function StreamUse(w: World, owner: string): int {
    Sum(StreamBytes(w, owner)) + S.Reserved(w.manager, owner)
  }

  /** The count of held bytes is right, and no more is used than before, or than is allowed. */
  ghost predicate StreamsFit(w: World, w': World, owner: string) {
    && S.Balanced(w'.manager, owner)
    && (StreamUse(w', owner) <= StreamUse(w, owner) || StreamUse(w', owner) <= S.Quota(w.manager, owner))
  }

  /** No finished bytes are added. */
  lemma LessStreamed(w: World, w': World, owner: string)
    requires w'.declared == w.declared
    requires forall u :: u in w'.manager.uploads ==>
      u in w.manager.uploads && w'.manager.uploads[u].ownerID == w.manager.uploads[u].ownerID &&
      w'.manager.uploads[u].size == w.manager.uploads[u].size &&
      (C.CountsTowardQuota(w'.manager.uploads[u].status) ==> C.CountsTowardQuota(w.manager.uploads[u].status))
    ensures Sum(StreamBytes(w', owner)) <= Sum(StreamBytes(w, owner))
  {
    SumMonotone(StreamBytes(w, owner), StreamBytes(w', owner));
  }

  lemma ForgottenBytes(w: World, u: string, undo: Undo, owner: string)
    ensures Sum(StreamBytes(Forgotten(w, u, undo), owner)) <= Sum(StreamBytes(w, owner))
    ensures S.Quota(Forgotten(w, u, undo).manager, owner) == S.Quota(w.manager, owner)
  {
    hide StreamBytes, UndoneBook, S.GiveBack, C.CountsTowardQuota;
    LessStreamed(w, Forgotten(w, u, undo), owner);
  }

  lemma ForgottenFits(w: World, u: string, undo: Undo, owner: string)
    requires S.StreamsOK(w.manager) && S.Balanced(w.manager, owner)
    ensures StreamsFit(w, Forgotten(w, u, undo), owner)
  {
    ForgottenBytes(w, u, undo, owner);
    hide StreamBytes, S.Balanced, S.Reserved, S.StreamsOK, S.Cleanup, S.Quota, S.Finished, UndoneBook;
    if u in w.manager.streams {
      S.CleanupKeeps(w.manager, u, owner);
    } else {
      S.OtherKeeps(w.manager, S.DropUnpersisted(u), owner);
    }
  }

  lemma DeclaredMap(w: World, w': World, u: string, owner: string)
    requires u !in w.manager.uploads && w'.manager == w.manager && w'.declared.Keys == w.declared.Keys + {u}
    requires forall x :: x in w.declared && x != u ==> w'.declared[x] == w.declared[x]
    ensures u !in StreamBytes(w, owner) && StreamBytes(w', owner) == StreamBytes(w, owner)
  {
    hide C.CountsTowardQuota;
  }

  lemma BegunMap(w: World, u: string, o: string, owner: string)
    requires u in w.declared && u !in w.manager.uploads && u !in w.manager.streams
    ensures u !in StreamBytes(w, owner)
    ensures StreamBytes(w.(manager := S.Begin(w.manager, u, o)), owner)
         == if w.declared[u] == 0 && o == owner then StreamBytes(w, owner)[u := 0] else StreamBytes(w, owner)
  {
    assert C.CountsTowardQuota(I.Quarantined);
    hide C.CountsTowardQuota;
  }

  /** A fresh upload has no bytes. */
  lemma BegunBytes(w: World, w': World, u: string, o: string, owner: string)
    requires u !in w.declared && u !in w.manager.uploads
    requires w'.manager == w.manager || w'.manager == S.Begin(w.manager, u, o)
    requires u in w'.declared && w'.declared == w.declared[u := w'.declared[u]]
    ensures Sum(StreamBytes(w', owner)) == Sum(StreamBytes(w, owner))
  {
    var asked := w.(declared := w'.declared);
    hide StreamBytes;
    DeclaredMap(w, asked, u, owner);
    SumPut(StreamBytes(w, owner), u, 0);
    if w'.manager == w.manager {
      SameStreamBytes(asked, w', owner);
    } else {
      BegunMap(asked, u, o, owner);
      SameStreamBytes(asked.(manager := w'.manager), w', owner);
    }
  }

  lemma BegunFits(w: World, w': World, u: string, o: string, owner: string)
    requires S.StreamsOK(w.manager) && S.Balanced(w.manager, owner) && u !in w.declared && u !in w.manager.uploads
    requires w'.manager == w.manager || w'.manager == S.Begin(w.manager, u, o)
    requires u in w'.declared && w'.declared == w.declared[u := w'.declared[u]]
    ensures StreamsFit(w, w', owner)
  {
    hide StreamBytes, S.Balanced, S.Reserved, S.Begin, S.StreamsOK, S.Quota, S.Finished;
    BegunBytes(w, w', u, o, owner);
    S.BeginKeeps(w.manager, u, o, owner);
    S.BeginReserves(w.manager, u, o, owner);
  }

  lemma AdmittedFits(limits: Limits, w: World, u: string, o: string, expected: nat, now: Time, answer: Answer,
                     undo: Undo, owner: string)
    requires S.StreamsOK(w.manager) && S.Balanced(w.manager, owner) && ViewOK(ViewOf(w, u))
    ensures StreamsFit(w, AdmitStep(limits, w, u, o, expected, now, answer, undo), owner)
  {
    hide StreamBytes, S.Balanced, S.Reserved, S.Begin, S.StreamsOK, S.Quota, Grants, Requested, C.Create, UndoneBook;
    if u !in w.declared {
      BegunFits(w, AdmitStep(limits, w, u, o, expected, now, answer, undo), u, o, owner);
    }
  }

  lemma ChunkFits(w: World, u: string, bytes: nat, owner: string)
    requires S.StreamsOK(w.manager) && S.Balanced(w.manager, owner)
    requires u in w.manager.streams && bytes > 0 && S.Fits(w.manager, u, bytes)
    ensures StreamsFit(w, w.(manager := S.Chunk(w.manager, u, bytes)), owner)
  {
    var w' := w.(manager := S.Chunk(w.manager, u, bytes));
    S.AddChunkKeeps(w.manager, u, bytes, owner);
    assert StreamBytes(w', owner) == StreamBytes(w, owner);
    SumMonotone(S.Finished(w.manager, owner), StreamBytes(w, owner));
    hide StreamBytes, S.Finished, S.Reserved, S.Balanced;
  }

  lemma FinishFits(w: World, u: string, undo: Undo, owner: string)
    requires S.StreamsOK(w.manager) && S.Balanced(w.manager, owner) && ViewOK(ViewOf(w, u))
    ensures StreamsFit(w, FinishStep(w, u, undo), owner)
  {
    var w' := FinishStep(w, u, undo);
    if u in w.manager.streams {
      if w.declared[u] == 0 && w.manager.streams[u] == 0 {
        ForgottenFits(w, u, undo, owner);
      } else {
        S.GiveBackKeeps(w.manager, w'.manager, u, owner);
        FinishedStream(w, u, undo, owner);
        hide StreamBytes, S.Reserved, S.Balanced, FinishStep;
      }
    }
  }

  /** What was held becomes the size of a stream; a declared size is no stream's. */
  lemma FinishedStream(w: World, u: string, undo: Undo, owner: string)
    requires S.StreamsOK(w.manager) && u in w.manager.streams && ViewOK(ViewOf(w, u))
    requires w.declared[u] > 0 || w.manager.streams[u] > 0
    ensures Sum(StreamBytes(FinishStep(w, u, undo), owner)) == Sum(StreamBytes(w, owner)) +
            if w.manager.uploads[u].ownerID == owner then w.manager.streams[u] else 0
  {
    var w' := FinishStep(w, u, undo);
    if w.declared[u] > 0 || w.manager.uploads[u].ownerID != owner {
      assert StreamBytes(w', owner) == StreamBytes(w, owner);
    } else {
      assert StreamBytes(w', owner) == StreamBytes(w, owner)[u := w.manager.streams[u]];
      assert StreamBytes(w, owner)[u] == 0;
      hide StreamBytes;
      SumPut(StreamBytes(w, owner), u, w.manager.streams[u]);
    }
  }

  lemma StepFits(limits: Limits, w: World, e: Event, owner: string)
    requires TablesOK(w) && S.Balanced(w.manager, owner) && !e.Restart? && !e.Retry?
    ensures StreamsFit(w, Next(limits, w, e), owner)
  {
    TablesStreams(w);
    assert e.Admit? || e.Finish? ==> ViewOK(ViewOf(w, e.uploadID));
    hide TablesOK, ViewOK, ViewOf, StreamBytes, S.Balanced, S.Reserved, S.StreamsOK, S.Quota, S.Fits, S.Chunk,
         Forgotten, AdmitStep, FinishStep;
    match e
    case Admit(u, o, n, now, a, undo) => AdmittedFits(limits, w, u, o, n, now, a, undo, owner);
    case Receive(u, n, undo) => ReceivedFits(w, u, n, undo, owner);
    case Abandon(u, undo) => ForgottenFits(w, u, undo, owner);
    case Finish(u, undo) => FinishFits(w, u, undo, owner);
    case Persist(u, answer, undo) => PersistFits(w, u, answer, undo, owner);
    case _ => OtherFits(limits, w, e, owner);
  }

  lemma ReceivedFits(w: World, u: string, bytes: nat, undo: Undo, owner: string)
    requires S.StreamsOK(w.manager) && S.Balanced(w.manager, owner)
    ensures StreamsFit(w, ReceiveStep(w, u, bytes, undo), owner)
  {
    hide StreamBytes, S.Balanced, S.Reserved, S.StreamsOK, S.Quota, S.Fits, S.Chunk, Forgotten;
    if u in w.manager.streams && u in w.manager.uploads && bytes > 0 {
      if S.Fits(w.manager, u, bytes) {
        ChunkFits(w, u, bytes, owner);
      } else {
        ForgottenFits(w, u, undo, owner);
      }
    }
  }

  lemma PersistFits(w: World, u: string, answer: Answer, undo: Undo, owner: string)
    requires S.StreamsOK(w.manager) && S.Balanced(w.manager, owner)
    ensures StreamsFit(w, PersistStep(w, u, answer, undo), owner)
  {
    hide S.Balanced, S.Reserved, S.StreamsOK, S.Quota, Forgotten, C.CountsTowardQuota;
    var w' := PersistStep(w, u, answer, undo);
    if u in w.unpersisted && u in w.manager.uploads {
      var book := if answer.Refused? then w.book else C.Update(w.book, u, w.manager.uploads[u].size, I.Quarantined);
      var committed := w.(book := book);
      assert StreamBytes(committed, owner) == StreamBytes(w, owner);
      hide StreamBytes, C.Update;
      if answer.Answered? {
        assert StreamBytes(w', owner) == StreamBytes(committed, owner) by { SameStreamBytes(committed, w', owner); }
      } else {
        ForgottenFits(committed, u, undo, owner);
      }
    }
  }

  lemma SameStreamBytes(w: World, w': World, owner: string)
    requires w'.manager.uploads == w.manager.uploads && w'.declared == w.declared
    ensures StreamBytes(w', owner) == StreamBytes(w, owner)
  {}

  lemma OtherFits(limits: Limits, w: World, e: Event, owner: string)
    requires S.StreamsOK(w.manager) && S.Balanced(w.manager, owner)
    requires e.Advance? || e.PersistStatus? || e.Release? || e.Sweep? || e.SetQuota? || e.ResetQuota?
    ensures StreamsFit(w, Next(limits, w, e), owner)
  {
    hide S.Balanced, S.Reserved, S.StreamsOK, S.Quota, StreamBytes, C.CountsTowardQuota;
    var w' := Next(limits, w, e);
    LessStreamed(w, w', owner);
    if w'.manager != w.manager {
      var own := if e.Advance? then S.StatusChanges(e.uploadID, e.status)
        else if e.SetQuota? then S.SetQuota(e.ownerID, e.quota) else S.ResetQuota(e.ownerID);
      assert w'.manager == S.Next(w.manager, own);
      S.OtherKeeps(w.manager, own, owner);
    }
  }

  // --- Rows that come back ---------------------------------------------------

  /** What a repeated key adds to an owner's streams. */
  function Returned(w: World, e: Event, owner: string): nat {
    if e.Retry? && e.uploadID in w.book.records && e.uploadID !in w.manager.uploads && e.uploadID !in w.manager.streams
       && Streamed(w, e.uploadID)
    then S.Returned(w.manager, S.RowReturns(e.uploadID, w.book.records[e.uploadID]), owner) else 0
  }

  lemma ReturnedMap(w: World, u: string, owner: string)
    requires u in w.book.records && u !in w.manager.uploads && u !in w.manager.streams
    ensures
      var row, bytes := w.book.records[u], StreamBytes(w, owner);
      && u !in bytes
      && StreamBytes(RetryStep(w, u), owner)
         == if Streamed(w, u) && row.ownerID == owner && C.CountsTowardQuota(row.status) then bytes[u := row.size]
            else bytes
  {
    hide C.CountsTowardQuota;
  }

  /** No admission: an owner's streams use more by the whole row. */
  lemma RetryFits(w: World, e: Event, owner: string)
    requires e.Retry? && S.StreamsOK(w.manager) && S.Balanced(w.manager, owner)
    ensures S.Balanced(RetryStep(w, e.uploadID).manager, owner)
    ensures StreamUse(RetryStep(w, e.uploadID), owner) == StreamUse(w, owner) + Returned(w, e, owner)
    ensures S.Quota(RetryStep(w, e.uploadID).manager, owner) == S.Quota(w.manager, owner)
  {
    var u := e.uploadID;
    if u in w.book.records && u !in w.manager.uploads && u !in w.manager.streams {
      ReturnedMap(w, u, owner);
      assert S.Reserved(RetryStep(w, u).manager, owner) == S.Reserved(w.manager, owner);
      hide StreamBytes, S.Balanced, S.StreamsOK, S.Finished, C.CountsTowardQuota;
      S.PutBackKeeps(w.manager, u, w.book.records[u], owner);
      SumPut(StreamBytes(w, owner), u, w.book.records[u].size);
    }
  }

  // --- A restart -------------------------------------------------------------

  /** The rows of an owner's streams that will count after a restart. */
  function Surviving(w: World, missing: set<string>, owner: string): map<string, nat> {
    map u | u in w.book.records && Streamed(w, u) && w.book.records[u].ownerID == owner &&
            C.CountsTowardQuota(w.book.records[u].status) && !Broken(w.book.records[u], u in missing) ::
      w.book.records[u].size
  }

  /** Those of them that memory had given up: a failure it could not record. */
  function Revived(w: World, missing: set<string>, owner: string): map<string, nat> {
    map u | u in Surviving(w, missing, owner) && u !in StreamBytes(w, owner) :: w.book.records[u].size
  }

  lemma RestartFits(limits: Limits, w: World, missing: set<string>, kept: set<string>, quotas: map<string, int>,
                    owner: string)
    ensures
      var w' := RestartStep(limits, w, missing, kept, quotas);
      S.Balanced(w'.manager, owner) && StreamUse(w', owner) == Sum(Surviving(w, missing, owner))
  {
    var w' := RestartStep(limits, w, missing, kept, quotas);
    assert S.InFlight(w'.manager, owner) == map[];
    assert StreamBytes(w', owner) == Surviving(w, missing, owner);
    hide StreamBytes, Surviving;
  }

  /** Nothing else is added: what memory still counted is no larger in its row. */
  lemma SurvivingRevived(w: World, missing: set<string>, owner: string)
    requires TablesOK(w) && S.Balanced(w.manager, owner)
    ensures Sum(Surviving(w, missing, owner)) <= StreamUse(w, owner) + Sum(Revived(w, missing, owner))
  {
    var rows, bytes, revived := Surviving(w, missing, owner), StreamBytes(w, owner), Revived(w, missing, owner);
    forall u | u in rows ensures u in bytes + revived && rows[u] <= (bytes + revived)[u] {
      assert ViewOK(ViewOf(w, u));
    }
    assert forall u :: u in bytes ==> u !in revived;
    hide Surviving, Revived, StreamBytes, S.InFlight, TablesOK;
    SumMonotone(bytes + revived, rows);
    SumUnion(bytes, revived);
  }

  /** One step of an owner's streams. Only a restart, which makes them what the rows say, and a
      repeated key, which brings one row back, take them beyond both what they used and the
      quota. */
  lemma StepStreams(limits: Limits, w: World, e: Event, owner: string)
    requires TablesOK(w) && S.Balanced(w.manager, owner)
    ensures
      var w' := Next(limits, w, e);
      && S.Balanced(w'.manager, owner)
      && if e.Restart? then StreamUse(w', owner) == Sum(Surviving(w, e.missing, owner))
         else if Returned(w, e, owner) > 0 then
           StreamUse(w', owner) == StreamUse(w, owner) + Returned(w, e, owner)
           && S.Quota(w'.manager, owner) == S.Quota(w.manager, owner)
         else StreamUse(w', owner) <= StreamUse(w, owner) || StreamUse(w', owner) <= S.Quota(w.manager, owner)
  {
    if e.Restart? {
      hide TablesOK, StreamUse, S.Balanced, S.Quota, Surviving, RestartStep;
      RestartFits(limits, w, e.missing, e.kept, e.quotas, owner);
    } else if e.Retry? {
      TablesStreams(w);
      hide TablesOK, StreamUse, S.Balanced, S.Quota, RetryStep, Returned;
      RetryFits(w, e, owner);
    } else {
      assert Returned(w, e, owner) == 0;
      hide TablesOK, StreamUse, S.Balanced, S.Quota, Next;
      StepFits(limits, w, e, owner);
    }
  }
}
