/** Removal of untracked objects under a journal: an operation is authorized before anything
    is touched, and whoever resumes it, after whatever crash, ends it the same way. */
module Orphan {
  import opened Wrappers

  /** An object's name inside one storage zone. */
  datatype Place = Place(zone: string, name: string)

  datatype Object = Object(size: nat, modifiedAt: Time, regular: bool)

  /** A digest of zone, name, size and modification time; it determines all four. */
  datatype Token = Token(place: Place, size: nat, modifiedAt: Time)

  datatype Status = Authorized | Completed | Failed

  datatype Operation = Operation(token: Token, authorizedAt: Time, status: Status, reason: string)

  datatype Outcome = Outcome(status: Status, reason: string)

  /** The directory and what the metadata tracks, the journal, the operations each running
      worker read from it and has yet to resume, and the outcomes that workers have reached but
      not yet recorded. A crash loses the last two. */
  datatype World = World(objects: map<Place, Object>, tracked: set<Place>, journal: map<string, Operation>,
                         listed: map<string, map<string, Token>>, pending: map<string, (string, Outcome)>)

  datatype Event =
    | Authorize(operationID: string, token: Token, now: Time)
    | Look(worker: string, operationIDs: set<string>)
    | Resume(worker: string, operationID: string)
    | Complete(worker: string)
    | Crash
    | Write(place: Place, written: Object)
    | Remove(place: Place)
    | Track(place: Place)
    | Untrack(place: Place)

  predicate ValidName(name: string) { name != "" && name != "." && name != ".." && '/' !in name }

  // --- Journal ---------------------------------------------------------------

  predicate HasToken(journal: map<string, Operation>, token: Token) {
    exists id :: id in journal && journal[id].token == token
  }

  function AuthorizeIn(journal: map<string, Operation>, id: string, token: Token, now: Time): map<string, Operation> {
    if id in journal || HasToken(journal, token) then journal
    else journal[id := Operation(token, now, Authorized, "administrator_reconciliation")]
  }

  predicate Completes(journal: map<string, Operation>, id: string) { id in journal && journal[id].status == Authorized }

  function CompleteIn(journal: map<string, Operation>, id: string, o: Outcome): map<string, Operation> {
    if !Completes(journal, id) then journal else journal[id := journal[id].(status := o.status, reason := o.reason)]
  }

  // --- Resuming --------------------------------------------------------------

  predicate Unchanged(objects: map<Place, Object>, t: Token) {
    t.place in objects && objects[t.place] == Object(t.size, t.modifiedAt, true)
  }

  /** The outcome of resuming an operation, by what is found in place of its object. */
  function Found(w: World, t: Token): Outcome {
    if !ValidName(t.place.name) then Outcome(Failed, "invalid_storage_identity")
    else if t.place in w.tracked then Outcome(Failed, "metadata_attached")
    else if t.place !in w.objects then Outcome(Completed, "object_absent_after_authorization")
    else if !Unchanged(w.objects, t) then Outcome(Failed, "revalidation_failed")
    else Outcome(Completed, "untracked_object_removed")
  }

  predicate Removes(w: World, t: Token) { ValidName(t.place.name) && t.place !in w.tracked && Unchanged(w.objects, t) }

  /** A worker reads open operations: the recovery loop a page of them, a request its own. */
  function LookStep(w: World, worker: string, ids: set<string>): World {
    w.(listed := w.listed[worker := map id | id in w.journal && id in ids && w.journal[id].status == Authorized ::
                            w.journal[id].token])
  }

  /** The worker has read the operation while it was open, and has not resumed it since. */
  predicate Listed(w: World, worker: string, id: string) { worker in w.listed && id in w.listed[worker] }

  /** Resuming does not look at the journal again. */
  function ResumeStep(w: World, worker: string, id: string): World {
    if !Listed(w, worker, id) then w
    else
      var t := w.listed[worker][id];
      w.(objects := if Removes(w, t) then w.objects - {t.place} else w.objects,
         listed := w.listed[worker := w.listed[worker] - {id}],
         pending := w.pending[worker := (id, Found(w, t))])
  }

  function CompleteStep(w: World, worker: string): World {
    if worker !in w.pending then w
    else w.(journal := CompleteIn(w.journal, w.pending[worker].0, w.pending[worker].1), pending := w.pending - {worker})
  }

  function Next(w: World, e: Event): World {
    match e
    case Authorize(id, t, now) => w.(journal := AuthorizeIn(w.journal, id, t, now))
    case Look(worker, ids) => LookStep(w, worker, ids)
    case Resume(worker, id) => ResumeStep(w, worker, id)
    case Complete(worker) => CompleteStep(w, worker)
    case Crash => w.(listed := map[], pending := map[])
    case Write(p, o) => w.(objects := w.objects[p := o])
    case Remove(p) => w.(objects := w.objects - {p})
    case Track(p) => w.(tracked := w.tracked + {p})
    case Untrack(p) => w.(tracked := w.tracked - {p})
  }

  function Run(w: World, events: seq<Event>): World {
    if events == [] then w else Next(Run(w, events[..|events| - 1]), events[|events| - 1])
  }

  // --- What a worker has read, and what it has to record -----------------------

  /** A listing holds what the worker's last reading found open among what it asked for, less
      what it has resumed since; an outcome waits from a resumption to its recording; and what
      is tracked is what was tracked and not untracked since. */
  lemma StepReads(w: World, e: Event, worker: string, id: string, p: Place)
    ensures Listed(Next(w, e), worker, id) <==>
            if e.Look? && e.worker == worker
            then id in e.operationIDs && id in w.journal && w.journal[id].status == Authorized
            else Listed(w, worker, id) && e != Crash && !(e.Resume? && e.worker == worker && e.operationID == id)
    ensures worker in Next(w, e).pending <==>
            || (e.Resume? && e.worker == worker && Listed(w, worker, e.operationID))
            || (worker in w.pending && e != Crash && !(e.Complete? && e.worker == worker))
    ensures p in Next(w, e).tracked <==> e == Track(p) || (p in w.tracked && e != Untrack(p))
  {
    hide Found, Removes, HasToken;
  }

  /** Event k reads the operation, which is open; and since then the worker has neither read
      again nor resumed it, and the process has not stopped. */
  ghost predicate ReadSince(w: World, events: seq<Event>, k: nat, worker: string, id: string) {
    && k < |events| && events[k].Look? && events[k].worker == worker && id in events[k].operationIDs
    && id in Run(w, events[..k]).journal && Run(w, events[..k]).journal[id].status == Authorized
    && forall j :: k < j < |events| ==> LeavesListed(events[j], worker, id)
  }

  predicate LeavesListed(e: Event, worker: string, id: string) {
    && e != Crash && !(e.Look? && e.worker == worker)
    && !(e.Resume? && e.worker == worker && e.operationID == id)
  }

  /** Over every run: a worker will resume an operation exactly if its last reading found it
      open, and it has not resumed it since; so each reading is acted on once at most. */
  lemma {:induction false} ListedIff(w: World, events: seq<Event>, worker: string, id: string)
    requires w.listed == map[]
    ensures Listed(Run(w, events), worker, id) <==> exists k: nat :: ReadSince(w, events, k, worker, id)
  {
    if events != [] {
      hide Next, Listed;
      var n := |events| - 1;
      var before := events[..n];
      ListedIff(w, before, worker, id);
      StepReads(Run(w, before), events[n], worker, id, Place("", ""));
      forall k: nat | k < n
        ensures ReadSince(w, events, k, worker, id) <==>
                ReadSince(w, before, k, worker, id) && LeavesListed(events[n], worker, id)
      {
        assert before[..k] == events[..k] && before[k] == events[k];
        assert ReadSince(w, events, k, worker, id) ==> LeavesListed(events[n], worker, id);
      }
      if k: nat :| ReadSince(w, before, k, worker, id) {
        assert LeavesListed(events[n], worker, id) ==> ReadSince(w, events, k, worker, id);
      }
      assert ReadSince(w, events, n, worker, id) <==>
             events[n].Look? && events[n].worker == worker && id in events[n].operationIDs &&
             id in Run(w, before).journal && Run(w, before).journal[id].status == Authorized;
    }
  }

  // --- One operation per token, completed at most once ------------------------

  predicate OnePerToken(journal: map<string, Operation>) {
    forall a, b :: a in journal && b in journal && journal[a].token == journal[b].token ==> a == b
  }

  lemma {:induction false} TokensStayUnique(w: World, events: seq<Event>)
    requires OnePerToken(w.journal)
    ensures OnePerToken(Run(w, events).journal)
  {
    if events != [] {
      TokensStayUnique(w, events[..|events| - 1]);
      StepKeepsTokens(Run(w, events[..|events| - 1]), events[|events| - 1]);
    }
  }

  lemma StepKeepsTokens(w: World, e: Event)
    requires OnePerToken(w.journal)
    ensures OnePerToken(Next(w, e).journal)
    ensures forall id :: id in w.journal ==>
              id in Next(w, e).journal && Next(w, e).journal[id].token == w.journal[id].token
    ensures forall id :: id in w.journal && w.journal[id].status != Authorized ==>
              Next(w, e).journal[id] == w.journal[id]
  {
    hide Found, Removes;
  }

  /** This event records the end of the operation. */
  predicate Ends(w: World, e: Event, id: string) {
    e.Complete? && e.worker in w.pending && w.pending[e.worker].0 == id && Completes(w.journal, id)
  }

  function EndsIn(w: World, events: seq<Event>, id: string): nat {
    if events == [] then 0
    else
      var before := events[..|events| - 1];
      EndsIn(w, before, id) + if Ends(Run(w, before), events[|events| - 1], id) then 1 else 0
  }

  predicate OutcomesFinal(w: World) {
    forall k :: k in w.pending ==> w.pending[k].1.status != Authorized
  }

  lemma StepFinal(w: World, e: Event, id: string)
    requires OutcomesFinal(w)
    ensures OutcomesFinal(Next(w, e))
    ensures Ends(w, e, id) ==> Next(w, e).journal[id].status != Authorized
  {
    hide Removes, HasToken;
  }

  /** However many workers resume it and however often the process stops, the end of an
      operation is recorded at most once, and then never changes. */
  lemma {:induction false} EndsOnce(w: World, events: seq<Event>, id: string)
    requires OnePerToken(w.journal) && OutcomesFinal(w) && id in w.journal
    ensures OutcomesFinal(Run(w, events)) && id in Run(w, events).journal
    ensures EndsIn(w, events, id) <= 1
    ensures w.journal[id].status == Authorized ==>
              (EndsIn(w, events, id) == 1 <==> Run(w, events).journal[id].status != Authorized)
    ensures EndsIn(w, events, id) == 1 ==> Run(w, events).journal[id].status != Authorized
    ensures w.journal[id].status != Authorized ==> Run(w, events).journal[id] == w.journal[id]
  {
    if events != [] {
      hide Next, Ends, OutcomesFinal, OnePerToken;
      var before, e := events[..|events| - 1], events[|events| - 1];
      EndsOnce(w, before, id);
      TokensStayUnique(w, before);
      StepKeepsTokens(Run(w, before), e);
      StepFinal(Run(w, before), e, id);
      if Ends(Run(w, before), e, id) {
        EndsNeedsAuthorized(Run(w, before), e, id);
      } else {
        StepUnended(Run(w, before), e, id);
      }
    }
  }

  lemma EndsNeedsAuthorized(w: World, e: Event, id: string)
    requires Ends(w, e, id)
    ensures w.journal[id].status == Authorized
  {}

  lemma StepUnended(w: World, e: Event, id: string)
    requires id in w.journal && !Ends(w, e, id)
    ensures id in Next(w, e).journal && Next(w, e).journal[id] == w.journal[id]
  {}

  // --- What resuming may remove ----------------------------------------------

  /** Resuming removes an object only if nothing tracks it and it is exactly the regular file,
      of that size and time, that an operation in the worker's listing was authorized for; and
      it removes nothing else. */
  lemma RemovesOnlyAuthorized(w: World, worker: string, id: string, p: Place)
    requires p in w.objects
    ensures p !in Next(w, Resume(worker, id)).objects <==>
              && Listed(w, worker, id) && w.listed[worker][id].place == p && p !in w.tracked && ValidName(p.name)
              && w.objects[p] == Object(w.listed[worker][id].size, w.listed[worker][id].modifiedAt, true)
    ensures p in Next(w, Resume(worker, id)).objects ==> Next(w, Resume(worker, id)).objects[p] == w.objects[p]
  {}

  /** Every listed operation is in the journal, for the same object. */
  ghost predicate ListingsOK(w: World) {
    forall worker, id :: Listed(w, worker, id) ==> id in w.journal && w.journal[id].token == w.listed[worker][id]
  }

  lemma StepListings(w: World, e: Event)
    requires ListingsOK(w)
    ensures ListingsOK(Next(w, e))
  {
    hide Removes, Found, HasToken;
    var w' := Next(w, e);
    forall worker, id | Listed(w', worker, id)
      ensures id in w'.journal && w'.journal[id].token == w'.listed[worker][id]
    {
      assert Listed(w, worker, id) || e.Look?;
    }
  }

  /** In every run from an empty process, whatever the listings' age. */
  lemma {:induction false} RunListings(w: World, events: seq<Event>)
    requires w.listed == map[]
    ensures ListingsOK(Run(w, events))
  {
    if events != [] {
      hide Next;
      RunListings(w, events[..|events| - 1]);
      StepListings(Run(w, events[..|events| - 1]), events[|events| - 1]);
    }
  }

  /** The worker goes on with its listing, up to this operation. */
  predicate KeepsListing(e: Event, worker: string, id: string) {
    e != Crash && !(e.Look? && e.worker == worker) && e != Resume(worker, id)
  }

  /** A listing may be stale. From the moment a worker has read an open operation until it
      resumes it, the operation is still open exactly when no one has recorded its end: so a
      removal happens under an operation that has ended exactly when another worker was
      quicker. */
  lemma RemovalOpenIff(w: World, worker: string, ids: set<string>, id: string, events: seq<Event>)
    requires OnePerToken(w.journal) && OutcomesFinal(w) && Completes(w.journal, id) && id in ids
    requires forall k :: 0 <= k < |events| ==> KeepsListing(events[k], worker, id)
    ensures
      var w1 := Next(w, Look(worker, ids));
      var w' := Run(w1, events);
      && Listed(w', worker, id) && w'.listed[worker][id] == w.journal[id].token
      && (Completes(w'.journal, id) <==> EndsIn(w1, events, id) == 0)
  {
    var w1 := Next(w, Look(worker, ids));
    StepKeepsTokens(w, Look(worker, ids));
    StepFinal(w, Look(worker, ids), id);
    hide Next, OnePerToken, OutcomesFinal, KeepsListing;
    EndsOnce(w1, events, id);
    ListingKept(w1, worker, id, events);
  }

  lemma {:induction false} ListingKept(w: World, worker: string, id: string, events: seq<Event>)
    requires Listed(w, worker, id) && forall k :: 0 <= k < |events| ==> KeepsListing(events[k], worker, id)
    ensures Listed(Run(w, events), worker, id) && Run(w, events).listed[worker][id] == w.listed[worker][id]
  {
    if events != [] {
      var n := |events| - 1;
      forall k | 0 <= k < n ensures KeepsListing(events[..n][k], worker, id) { assert events[..n][k] == events[k]; }
      ListingKept(w, worker, id, events[..n]);
      assert KeepsListing(events[n], worker, id);
      hide Found, Removes, HasToken;
    }
  }

  /** An input: two workers read the operation; one finds its object tracked and records a
      failure; the metadata goes; then the other removes the object, under an operation that
      has failed and stays so. */
  lemma StaleRemoval(t: Token)
    requires ValidName(t.place.name)
    ensures
      var w := World(map[t.place := Object(t.size, t.modifiedAt, true)], {t.place},
                     map["op" := Operation(t, 0, Authorized, "")], map[], map[]);
      var w1 := Next(Next(Next(Next(w, Look("a", {"op"})), Look("b", {"op"})), Resume("a", "op")), Complete("a"));
      var w2 := Next(Next(Next(w1, Untrack(t.place)), Resume("b", "op")), Complete("b"));
      && w1.journal["op"].status == Failed && t.place in w1.objects
      && w2.journal["op"] == w1.journal["op"] && t.place !in w2.objects
  {}

  /** The answer is completed exactly when the object is untracked and either gone already or
      removed just now. */
  lemma CompletedIff(w: World, worker: string, id: string)
    requires Listed(w, worker, id)
    ensures
      var t := w.listed[worker][id];
      var w' := Next(w, Resume(worker, id));
      w'.pending[worker] == (id, Found(w, t))
      && (Found(w, t).status == Completed <==>
          ValidName(t.place.name) && t.place !in w.tracked && t.place !in w'.objects)
  {}

  // --- A crash between removal and completion ---------------------------------

  /** Nothing at the place, nothing tracked there, and nobody about to report a failure. */
  ghost predicate Gone(w: World, id: string) {
    && id in w.journal && w.journal[id].status != Failed && ValidName(w.journal[id].token.place.name)
    && w.journal[id].token.place !in w.objects && w.journal[id].token.place !in w.tracked
    && (forall k :: k in w.pending && w.pending[k].0 == id ==> w.pending[k].1.status == Completed)
    && (forall k :: Listed(w, k, id) ==> w.listed[k][id] == w.journal[id].token)
  }

  /** The name is not used again: it is random, and no one writes or tracks it. */
  predicate LeavesAlone(e: Event, p: Place) {
    (e.Write? ==> e.place != p) && (e.Track? ==> e.place != p)
  }

  lemma StepGone(w: World, e: Event, id: string)
    requires Gone(w, id) && LeavesAlone(e, w.journal[id].token.place)
    ensures Gone(Next(w, e), id) && Next(w, e).journal[id].token == w.journal[id].token
  {
    hide HasToken;
  }

  lemma {:induction false} StaysGone(w: World, events: seq<Event>, id: string)
    requires Gone(w, id)
    requires forall i :: 0 <= i < |events| ==> LeavesAlone(events[i], w.journal[id].token.place)
    ensures Gone(Run(w, events), id) && Run(w, events).journal[id].token == w.journal[id].token
  {
    if events != [] {
      hide Next, Gone, LeavesAlone;
      var n := |events| - 1;
      GoneHasRow(w, id);
      forall i | 0 <= i < n ensures LeavesAlone(events[..n][i], w.journal[id].token.place) {
        assert events[..n][i] == events[i];
      }
      StaysGone(w, events[..n], id);
      GoneHasRow(Run(w, events[..n]), id);
      StepGone(Run(w, events[..n]), events[n], id);
    }
  }

  lemma GoneHasRow(w: World, id: string)
    requires Gone(w, id)
    ensures id in w.journal
  {}

  /** Crash recovery. Once a resumption has removed the object, with no failure for the same
      operation recorded or waiting to be, then whatever follows, crashes included, as long as
      the name is not used again: the operation never ends as failed, and the next time anyone
      reads, resumes and completes it, it is completed. */
  lemma RemovalIsCompleted(w: World, worker: string, id: string, events: seq<Event>, later: string)
    requires ListingsOK(w) && Listed(w, worker, id) && Removes(w, w.listed[worker][id])
    requires w.journal[id].status != Failed
    requires forall k :: k in w.pending && w.pending[k].0 == id ==> w.pending[k].1.status == Completed
    requires forall i :: 0 <= i < |events| ==> LeavesAlone(events[i], w.journal[id].token.place)
    ensures
      var w' := Run(Next(w, Resume(worker, id)), events);
      && id in w'.journal && w'.journal[id].status != Failed
      && var w'' := Next(Next(Next(w', Look(later, {id})), Resume(later, id)), Complete(later));
         id in w''.journal && w''.journal[id].status == Completed
  {
    RemovedIsGone(w, worker, id);
    hide Next, Run, LeavesAlone, Removes, Completes, Gone;
    StaysGone(Next(w, Resume(worker, id)), events, id);
    GoneCompletes(Run(Next(w, Resume(worker, id)), events), id, later);
  }

  lemma RemovedIsGone(w: World, worker: string, id: string)
    requires ListingsOK(w) && Listed(w, worker, id) && Removes(w, w.listed[worker][id])
    requires w.journal[id].status != Failed
    requires forall k :: k in w.pending && w.pending[k].0 == id ==> w.pending[k].1.status == Completed
    ensures Gone(Next(w, Resume(worker, id)), id) && Next(w, Resume(worker, id)).journal == w.journal
  {
    var w' := Next(w, Resume(worker, id));
    forall k | Listed(w', k, id) ensures w'.listed[k][id] == w'.journal[id].token { assert Listed(w, k, id); }
  }

  lemma GoneCompletes(w: World, id: string, worker: string)
    requires Gone(w, id)
    ensures id in w.journal && w.journal[id].status != Failed
    ensures
      var w' := Next(Next(Next(w, Look(worker, {id})), Resume(worker, id)), Complete(worker));
      id in w'.journal && w'.journal[id].status == Completed
  {}

  /** Of several outcomes for one operation the first to be recorded counts: it ends as failed
      exactly when that one was a failure, whatever has become of the object. */
  lemma FirstRecordedCounts(w: World, id: string, worker: string, events: seq<Event>)
    requires Completes(w.journal, id) && OnePerToken(w.journal) && OutcomesFinal(w)
    requires worker in w.pending && w.pending[worker].0 == id
    ensures
      var w' := Run(Next(w, Complete(worker)), events);
      id in w'.journal && (w'.journal[id].status == Failed <==> w.pending[worker].1.status == Failed)
  {
    hide Run, OnePerToken;
    StepKeepsTokens(w, Complete(worker));
    StepFinal(w, Complete(worker), id);
    EndsOnce(Next(w, Complete(worker)), events, id);
  }

  /** The premise about waiting failures is needed: a worker that looked while the object was
      tracked reports its failure after another worker has removed the object. */
  lemma StaleFailure(t: Token)
    requires ValidName(t.place.name)
    ensures
      var w := World(map[t.place := Object(t.size, t.modifiedAt, true)], {t.place},
                     map["op" := Operation(t, 0, Authorized, "")], map[], map[]);
      var w1 := Next(Next(Next(w, Look("a", {"op"})), Look("b", {"op"})), Resume("a", "op"));
      var w2 := Next(Next(Next(w1, Untrack(t.place)), Resume("b", "op")), Complete("a"));
      t.place !in w2.objects && w2.journal["op"].status == Failed
  {}
}
