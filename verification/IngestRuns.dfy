/** What the invariant means over whole runs: one version and one file per upload, storage
    only after acceptance, progress to an end; and the two ways in which a row may say less,
    or more, than is there. */
module IngestRuns {
  import opened Wrappers
  import opened IngestModel
  import opened IngestSafety

  ghost function FilesOf(w: World, u: string): set<string> {
    set f | f in w.files && w.files[f].upload == u
  }

  /** In every state of every run: an upload has at most one logical file; a row persisted as
      stored has committed metadata and exactly one file, which was registered with the
      committed version; and that version was written for this very upload. */
  lemma CrashSafe(events: seq<Event>, u: string)
    requires u in Run(events).uploads
    ensures
      var w := Run(events);
      var s := w.uploads[u];
      && (forall f, g :: f in FilesOf(w, u) && g in FilesOf(w, u) ==> f == g)
      && (s.row.Some? && s.row.value.status == Stored ==>
            && s.metadata.Some?
            && exists f ::
                 FilesOf(w, u) == {f} && w.files[f].first == s.metadata.value && w.files[f].ownerID == s.ownerID)
      && (s.metadata.Some? ==> WrittenFor(w, s.metadata.value, u))
  {
    RunKeeps(events);
    var w := Run(events);
    var s := w.uploads[u];
    assert Sound(w, u, s);
    hide Run, NotStuck, AcceptedFirst;
    if s.row.Some? && s.row.value.status == Stored {
      assert SaysStored(s);
      var f :| f in w.files && w.files[f].upload == u && w.files[f].first == s.metadata.value;
      assert FilesOf(w, u) == {f};
      assert FileOK(w, w.files[f]);
    }
  }

  // --- One effect ------------------------------------------------------------

  /** How many more effects a task can perform. */
  function Rank(t: Task): nat {
    match t
    case OpenObject => 22
    case Stream => 21
    case PersistReceived => 20
    case CleanObject => 3
    case CleanRow => 2
    case CleanMemory => 1
    case BeginInspection => 19
    case PersistInspecting => 18
    case Scan => 17
    case PersistVerdict(_) => 16
    case PublishVerdict(_) => 15
    case BeginProtection => 14
    case PersistEncrypting => 13
    case OpenPlaintext => 12
    case FindMetadata => 11
    case WriteObject => 10
    case CommitMetadata(_) => 9
    case RemoveOwnObject(_, _) => 8
    case RegisterFile(_) => 7
    case MarkStored => 6
    case PersistStored => 5
    case MarkFailed => 3
    case PersistFailed => 2
    case RemovePlaintext => 1
  }

  /** Each effect uses up the task, leaves committed metadata alone, commits only what it was
      about to commit, and records an acceptance only by persisting it. */
  predicate Advances(s: Upload, s': Upload) {
    && s'.ownerID == s.ownerID && s'.standing == s.standing
    && (s.metadata.Some? ==> s'.metadata == s.metadata)
    && (s.metadata == None && s'.metadata.Some? ==> s.task == Some(CommitMetadata(s'.metadata.value)))
    && (s'.accepted && !s.accepted ==> s'.row.Some? && s'.row.value.status == Accepted)
    && (s'.task.Some? ==> s.task.Some? && Rank(s'.task.value) < Rank(s.task.value))
  }

  lemma PersistAdvances(s: Upload, row: Row, a: Answer, success: Task, failure: Task)
    requires s.task.Some? && Rank(success) < Rank(s.task.value) && Rank(failure) < Rank(s.task.value)
    ensures Advances(s, PersistThen(s, row, a, success, failure))
  {
    hide Rank;
  }

  lemma ReceptionAdvances(s: Upload, a: Answer)
    requires s.memory.Some? && s.task.Some? && Receives(s.task.value)
    ensures Advances(s, Reception(s, s.task.value, a))
  {
    if s.task.value.PersistReceived? {
      PersistAdvances(s, s.memory.value, a, BeginInspection, CleanObject);
      hide Advances, PersistThen, Rank;
    } else {
      hide PersistThen;
    }
  }

  lemma InspectionAdvances(s: Upload, a: Answer)
    requires s.memory.Some? && s.task.Some? && Inspects(s.task.value)
    ensures Advances(s, Inspection(s, s.task.value, a))
  {
    if s.task.value.PersistInspecting? {
      PersistAdvances(s, s.memory.value, a, Scan, MarkFailed);
      hide Advances, PersistThen, Rank;
    } else if s.task.value.PersistVerdict? {
      PersistAdvances(s, s.memory.value.(status := s.task.value.verdict), a, PublishVerdict(s.task.value.verdict),
                      MarkFailed);
      hide Advances, PersistThen, Rank;
    } else {
      hide PersistThen;
    }
  }

  lemma FailingAdvances(s: Upload, a: Answer)
    requires s.memory.Some? && s.task.Some? && Fails(s.task.value)
    ensures Advances(s, Failing(s, s.task.value, a))
  {
    if s.task.value.PersistFailed? {
      PersistAdvances(s, s.memory.value, a, RemovePlaintext, RemovePlaintext);
      hide Advances, PersistThen, Rank;
    } else {
      hide PersistThen;
    }
  }

  predicate TouchesVersion(t: Task) { t.WriteObject? || t.CommitMetadata? || t.RemoveOwnObject? || t.RegisterFile? }

  lemma VersionAdvances(w: World, u: string, s: Upload, a: Answer)
    requires s.memory.Some? && s.task.Some? && TouchesVersion(s.task.value)
    ensures
      var (w', s') := Protection(w, u, s, s.task.value, a);
      w'.uploads == w.uploads && Advances(s, s')
  {
    hide Register, VersionUsed, Registrable;
    if s.task.value.RegisterFile? {
      RegisterLeavesUploads(w, u, s.ownerID, s.task.value.version, a.name);
    }
  }

  lemma ProtectionAdvances(w: World, u: string, s: Upload, a: Answer)
    requires s.memory.Some? && s.task.Some?
    requires !Receives(s.task.value) && !Inspects(s.task.value) && !Fails(s.task.value)
    ensures
      var (w', s') := Protection(w, u, s, s.task.value, a);
      w'.uploads == w.uploads && Advances(s, s')
  {
    if TouchesVersion(s.task.value) {
      hide Protection, Advances;
      VersionAdvances(w, u, s, a);
    } else if s.task.value.PersistEncrypting? {
      PersistAdvances(s, s.memory.value, a, OpenPlaintext, MarkFailed);
      hide Advances, PersistThen, Rank;
    } else if s.task.value.PersistStored? {
      PersistAdvances(s, s.memory.value, a, RemovePlaintext, MarkFailed);
      hide Advances, PersistThen, Rank;
    } else {
      hide PersistThen;
    }
  }

  lemma RegisterLeavesUploads(w: World, u: string, owner: string, v: string, name: string)
    ensures Register(w, u, owner, v, name).uploads == w.uploads
  {
    hide InHistory, Recognises;
  }

  lemma RestoreLeavesUploads(w: World, f: string, v: string)
    ensures RestoreFile(w, f, v).uploads == w.uploads
  {}

  lemma ListLeavesUploads(w: World, f: string, listed: bool)
    ensures ListFile(w, f, listed).uploads == w.uploads
  {}

  /** A step on one upload leaves every other alone. */
  lemma StepAdvances(w: World, u: string, a: Answer)
    requires u in w.uploads && w.uploads[u].memory.Some? && w.uploads[u].task.Some?
    ensures u in Step(w, u, a).uploads && Advances(w.uploads[u], Step(w, u, a).uploads[u])
    ensures forall x :: x != u ==> (x in Step(w, u, a).uploads <==> x in w.uploads)
    ensures forall x :: x != u && x in w.uploads ==> Step(w, u, a).uploads[x] == w.uploads[x]
  {
    hide Advances, Rank, Reception, Inspection, Failing, Protection, Receives, Inspects, Fails;
    var s := w.uploads[u];
    var t := s.task.value;
    if Receives(t) {
      ReceptionAdvances(s, a);
    } else if Inspects(t) {
      InspectionAdvances(s, a);
    } else if Fails(t) {
      FailingAdvances(s, a);
    } else {
      ProtectionAdvances(w, u, s, a);
    }
  }

  /** What any event does to one upload's metadata and acceptance. */
  lemma EventAdvances(w: World, e: Event, u: string)
    requires u in w.uploads
    ensures u in Next(w, e).uploads
    ensures
      var s, s' := w.uploads[u], Next(w, e).uploads[u];
      && s'.ownerID == s.ownerID && (s.metadata.Some? ==> s'.metadata == s.metadata)
      && (s.metadata == None && s'.metadata.Some? ==> s.task == Some(CommitMetadata(s'.metadata.value)))
      && (s'.accepted && !s.accepted ==> s'.row.Some? && s'.row.value.status == Accepted)
  {
    hide Step, Rank, VersionUsed, RestoreFile, ListFile;
    if e.RestoreVersion? { RestoreLeavesUploads(w, e.file, e.version); }
    if e.SetListed? { ListLeavesUploads(w, e.file, e.listed); }
    if e.Act? {
      if Idle(w, e.upload) { StepIdle(w, e.upload, e.answer); } else { StepAdvances(w, e.upload, e.answer); }
    }
  }

  predicate Idle(w: World, u: string) {
    u !in w.uploads || w.uploads[u].memory == None || w.uploads[u].task == None
  }

  lemma StepIdle(w: World, u: string, a: Answer)
    requires Idle(w, u)
    ensures Step(w, u, a) == w
  {}

  lemma EventAdmits(w: World, e: Event, u: string)
    requires u !in w.uploads && u in Next(w, e).uploads
    ensures Next(w, e).uploads[u].metadata == None && !Next(w, e).uploads[u].accepted
  {
    hide Step, VersionUsed, RestoreFile, ListFile;
    if e.RestoreVersion? { RestoreLeavesUploads(w, e.file, e.version); }
    if e.SetListed? { ListLeavesUploads(w, e.file, e.listed); }
    if e.Act? {
      if Idle(w, e.upload) { StepIdle(w, e.upload, e.answer); } else { StepAdvances(w, e.upload, e.answer); }
    }
  }

  // --- From the recorded history to the run itself ----------------------------

  /** The persisted row of u said accepted after the first k events. */
  ghost predicate AcceptedAt(events: seq<Event>, k: nat, u: string) {
    && k <= |events| && u in Run(events[..k]).uploads
    && Run(events[..k]).uploads[u].row.Some? && Run(events[..k]).uploads[u].row.value.status == Accepted
  }

  lemma {:induction false} AcceptedWasPersisted(events: seq<Event>, u: string)
    requires u in Run(events).uploads && Run(events).uploads[u].accepted
    ensures exists k: nat :: AcceptedAt(events, k, u)
  {
    var before := events[..|events| - 1];
    hide Next;
    if u in Run(before).uploads && Run(before).uploads[u].accepted {
      AcceptedWasPersisted(before, u);
      var k: nat :| AcceptedAt(before, k, u);
      assert before[..k] == events[..k];
      assert AcceptedAt(events, k, u);
    } else {
      if u in Run(before).uploads {
        EventAdvances(Run(before), events[|events| - 1], u);
      } else {
        EventAdmits(Run(before), events[|events| - 1], u);
      }
      assert events[..|events|] == events;
      assert AcceptedAt(events, |events|, u);
    }
  }

  /** Event k is the scanner's answer about u: it could be asked, and it accepted the upload. */
  ghost predicate ScannedAt(events: seq<Event>, k: nat, u: string) {
    && k < |events| && events[k].Act? && events[k].upload == u
    && events[k].answer.ok && events[k].answer.verdict == Accepted
    && u in Run(events[..k]).uploads && Run(events[..k]).uploads[u].task == Some(Scan)
  }

  /** The upload was accepted, or is about to be. */
  predicate Accepting(w: World, u: string) {
    u in w.uploads && (w.uploads[u].accepted || w.uploads[u].task == Some(PersistVerdict(Accepted)))
  }

  lemma InspectionAccepts(s: Upload, a: Answer)
    requires AcceptedFirst(s) && s.memory.Some? && s.task.Some? && Inspects(s.task.value)
    requires !s.accepted && s.task != Some(PersistVerdict(Accepted))
    ensures
      var s' := Inspection(s, s.task.value, a);
      s'.accepted || s'.task == Some(PersistVerdict(Accepted)) ==> s.task == Some(Scan) && a.ok && a.verdict == Accepted
  {}

  lemma ReceptionAccepts(s: Upload, a: Answer)
    requires AcceptedFirst(s) && s.memory.Some? && s.task.Some? && !s.accepted
    ensures
      Receives(s.task.value) ==>
        var s' := Reception(s, s.task.value, a);
        !s'.accepted && s'.task != Some(PersistVerdict(Accepted))
    ensures
      Fails(s.task.value) ==>
        var s' := Failing(s, s.task.value, a);
        !s'.accepted && s'.task != Some(PersistVerdict(Accepted))
  {}

  lemma ProtectionAccepts(w: World, u: string, s: Upload, a: Answer)
    requires AcceptedFirst(s) && s.memory.Some? && s.task.Some? && !s.accepted
    requires !Receives(s.task.value) && !Inspects(s.task.value) && !Fails(s.task.value)
    ensures
      var s' := Protection(w, u, s, s.task.value, a).1;
      !s'.accepted && s'.task != Some(PersistVerdict(Accepted))
  {
    hide Register, VersionUsed, Registrable;
  }

  /** An upload turns towards acceptance by the scanner's answer alone. */
  lemma StepAccepts(w: World, u: string, a: Answer)
    requires Inv(w) && !Idle(w, u) && !Accepting(w, u) && Accepting(Step(w, u, a), u)
    ensures w.uploads[u].task == Some(Scan) && a.ok && a.verdict == Accepted
  {
    var s := w.uploads[u];
    assert Sound(w, u, s);
    hide Inv, Sound, AcceptedFirst, Reception, Inspection, Failing, Protection, Receives, Inspects, Fails;
    var t := s.task.value;
    if Receives(t) || Fails(t) {
      ReceptionAccepts(s, a);
    } else if Inspects(t) {
      InspectionAccepts(s, a);
    } else {
      ProtectionAccepts(w, u, s, a);
    }
  }

  lemma EventAccepts(w: World, e: Event, u: string)
    requires Inv(w) && !Accepting(w, u) && Accepting(Next(w, e), u)
    ensures e.Act? && e.upload == u && u in w.uploads && w.uploads[u].task == Some(Scan)
    ensures e.answer.ok && e.answer.verdict == Accepted
  {
    hide Inv, Step, VersionUsed, RestoreFile, ListFile;
    if e.RestoreVersion? { RestoreLeavesUploads(w, e.file, e.version); }
    if e.SetListed? { ListLeavesUploads(w, e.file, e.listed); }
    if e.Act? {
      if Idle(w, e.upload) { StepIdle(w, e.upload, e.answer); } else { StepAdvances(w, e.upload, e.answer); }
      if e.upload == u && !Idle(w, u) { StepAccepts(w, u, e.answer); }
    }
  }

  lemma {:induction false} AcceptedWasScanned(events: seq<Event>, u: string)
    requires Accepting(Run(events), u)
    ensures exists k: nat :: ScannedAt(events, k, u)
  {
    var n := |events| - 1;
    var before := events[..n];
    hide Next, Inv, Accepting;
    if Accepting(Run(before), u) {
      AcceptedWasScanned(before, u);
      var k: nat :| ScannedAt(before, k, u);
      assert before[..k] == events[..k];
      assert ScannedAt(events, k, u);
    } else {
      RunKeeps(before);
      EventAccepts(Run(before), events[n], u);
      assert ScannedAt(events, n, u);
    }
  }

  /** An acceptance is never persisted unless the scanner was asked about that upload before,
      and accepted it. */
  lemma PersistedOnlyIfScanned(events: seq<Event>, u: string)
    requires u in Run(events).uploads && Run(events).uploads[u].accepted
    ensures exists k: nat, j: nat :: k < j && ScannedAt(events, k, u) && AcceptedAt(events, j, u)
  {
    AcceptedWasPersisted(events, u);
    var j: nat :| AcceptedAt(events, j, u);
    RunKeeps(events[..j]);
    assert Sound(Run(events[..j]), u, Run(events[..j]).uploads[u]);
    hide Run, Inv;
    AcceptedWasScanned(events[..j], u);
    var k: nat :| ScannedAt(events[..j], k, u);
    assert events[..j][..k] == events[..k];
    assert ScannedAt(events, k, u);
  }

  /** Nothing is ever protected unless the scanner accepted that upload, and its acceptance
      was persisted after that. */
  lemma ProtectedOnlyIfAccepted(events: seq<Event>, u: string)
    requires u in Run(events).uploads && Run(events).uploads[u].metadata.Some?
    ensures exists k: nat, j: nat :: k < j && ScannedAt(events, k, u) && AcceptedAt(events, j, u)
  {
    RunKeeps(events);
    assert Sound(Run(events), u, Run(events).uploads[u]);
    hide Run, Inv;
    PersistedOnlyIfScanned(events, u);
  }

  /** The committed version's object was in place at the step that committed it. */
  ghost predicate CommittedAt(events: seq<Event>, k: nat, u: string, v: string) {
    && k < |events| && v in Run(events[..k]).objects && u in Run(events[..k]).uploads &&
       Run(events[..k]).uploads[u].metadata == None
    && u in Run(events[..k + 1]).uploads && Run(events[..k + 1]).uploads[u].metadata == Some(v)
  }

  /** At most one protected version: whatever happens later, the committed one stays. */
  lemma {:induction false} OneVersion(events: seq<Event>, k: nat, u: string)
    requires k <= |events| && u in Run(events[..k]).uploads && Run(events[..k]).uploads[u].metadata.Some?
    ensures u in Run(events).uploads && Run(events).uploads[u].metadata == Run(events[..k]).uploads[u].metadata
    decreases |events|
  {
    hide Next;
    if k == |events| {
      assert events[..k] == events;
    } else {
      var before := events[..|events| - 1];
      assert before[..k] == events[..k];
      OneVersion(before, k, u);
      EventAdvances(Run(before), events[|events| - 1], u);
    }
  }

  /** Committed metadata implies that its ciphertext object had been written. */
  lemma {:induction false} CommittedAfterWrite(events: seq<Event>, u: string)
    requires u in Run(events).uploads && Run(events).uploads[u].metadata.Some?
    ensures exists k: nat :: CommittedAt(events, k, u, Run(events).uploads[u].metadata.value)
  {
    var n := |events| - 1;
    var before := events[..n];
    var v := Run(events).uploads[u].metadata.value;
    hide Next, Inv;
    if u in Run(before).uploads && Run(before).uploads[u].metadata.Some? {
      EventAdvances(Run(before), events[n], u);
      CommittedAfterWrite(before, u);
      var k: nat :| CommittedAt(before, k, u, v);
      CommittedLater(events, k, u, v);
    } else {
      CommitStep(before, events[n], u, v);
      CommittedNow(events, u, v);
    }
  }

  lemma CommittedLater(events: seq<Event>, k: nat, u: string, v: string)
    requires events != [] && CommittedAt(events[..|events| - 1], k, u, v)
    ensures CommittedAt(events, k, u, v)
  {
    hide Run;
    var before := events[..|events| - 1];
    assert before[..k] == events[..k] && before[..k + 1] == events[..k + 1];
  }

  lemma CommittedNow(events: seq<Event>, u: string, v: string)
    requires events != [] && u in Run(events).uploads && Run(events).uploads[u].metadata == Some(v)
    requires
      var w := Run(events[..|events| - 1]);
      v in w.objects && u in w.uploads && w.uploads[u].metadata == None
    ensures CommittedAt(events, |events| - 1, u, v)
  {
    hide Run;
    assert events[..|events| - 1 + 1] == events;
  }

  lemma CommitStep(before: seq<Event>, e: Event, u: string, v: string)
    requires !(u in Run(before).uploads && Run(before).uploads[u].metadata.Some?)
    requires u in Next(Run(before), e).uploads && Next(Run(before), e).uploads[u].metadata == Some(v)
    ensures v in Run(before).objects && u in Run(before).uploads && Run(before).uploads[u].metadata == None
  {
    hide Next, Inv, Run;
    var w := Run(before);
    if u !in w.uploads { EventAdmits(w, e, u); }
    EventAdvances(w, e, u);
    RunKeeps(before);
    ObjectBeforeCommit(w, u, v);
  }

  lemma ObjectBeforeCommit(w: World, u: string, v: string)
    requires Inv(w) && u in w.uploads && w.uploads[u].task == Some(CommitMetadata(v))
    ensures v in w.objects
  {
    assert Sound(w, u, w.uploads[u]);
  }

  // --- Progress --------------------------------------------------------------

  function Left(w: World, u: string): nat {
    if u in w.uploads && w.uploads[u].task.Some? then Rank(w.uploads[u].task.value) else 0
  }

  lemma StepProgresses(w: World, u: string, a: Answer)
    requires Inv(w)
    ensures Left(Step(w, u, a), u) <= if Left(w, u) > 0 then Left(w, u) - 1 else 0
  {
    hide Step, Rank;
    if Idle(w, u) {
      if u in w.uploads { assert Sound(w, u, w.uploads[u]); }
      StepIdle(w, u, a);
    } else {
      StepAdvances(w, u, a);
    }
  }

  function Acts(w: World, u: string, answers: seq<Answer>): World {
    if answers == [] then w else Step(Acts(w, u, answers[..|answers| - 1]), u, answers[|answers| - 1])
  }

  /** Without a crash every task ends after at most 22 effects, whatever the answers, and
      then readers see a final status, or nothing at all if reception was undone, or the
      upload had no task to begin with, since its row had come back with a repeated key. */
  lemma {:induction false} TaskEnds(w: World, u: string, answers: seq<Answer>)
    requires Inv(w) && u in w.uploads
    ensures Inv(Acts(w, u, answers)) && u in Acts(w, u, answers).uploads
    ensures Left(Acts(w, u, answers), u) <= if Left(w, u) > |answers| then Left(w, u) - |answers| else 0
    ensures |answers| >= 22 ==>
              var s := Acts(w, u, answers).uploads[u];
              s.task == None
              && (s.memory.Some? && !Terminal(s.memory.value.status) ==> w.uploads[u].standing.Returned?)
    ensures Acts(w, u, answers).uploads[u].standing == w.uploads[u].standing
  {
    hide Inv, Step, Left;
    if answers != [] {
      var before := Acts(w, u, answers[..|answers| - 1]);
      TaskEnds(w, u, answers[..|answers| - 1]);
      StepProgresses(before, u, answers[|answers| - 1]);
      ActKeeps(before, u, answers[|answers| - 1]);
      EventAdvances(before, Act(u, answers[|answers| - 1]), u);
      StandingKept(before, u, answers[|answers| - 1]);
    }
    LeftBound(w, u);
    LeftNone(Acts(w, u, answers), u);
  }

  /** What is left of an upload that the scanner did not accept: readers see it rejected if
      the scanner answered and that verdict was persisted, and failed otherwise; it commits
      nothing. */
  predicate NotAccepted(from: Upload, s: Upload, status: Status) {
    && s.memory.Some? && s.accepted == from.accepted && s.metadata == from.metadata
    && match s.task
       case None => s.memory.value.status == status
       case Some(PublishVerdict(v)) => v == status
       case Some(MarkFailed) => status == Failed
       case Some(PersistFailed) => status == Failed && s.memory.value.status == Failed
       case Some(RemovePlaintext) => s.memory.value.status == status
       case _ => false
  }

  lemma NotAcceptedInspects(from: Upload, s: Upload, a: Answer, status: Status)
    requires NotAccepted(from, s, status) && status != Accepted && s.task.Some?
    ensures Inspects(s.task.value) ==> NotAccepted(from, Inspection(s, s.task.value, a), status)
    ensures Fails(s.task.value) ==> NotAccepted(from, Failing(s, s.task.value, a), status)
    ensures Inspects(s.task.value) || Fails(s.task.value)
  {}

  lemma {:induction false} NotAcceptedEnds(w: World, u: string, answers: seq<Answer>, from: Upload, status: Status)
    requires u in w.uploads && NotAccepted(from, w.uploads[u], status) && status != Accepted
    ensures u in Acts(w, u, answers).uploads && NotAccepted(from, Acts(w, u, answers).uploads[u], status)
  {
    if answers != [] {
      var w' := Acts(w, u, answers[..|answers| - 1]);
      NotAcceptedEnds(w, u, answers[..|answers| - 1], from, status);
      if !Idle(w', u) { NotAcceptedInspects(from, w'.uploads[u], answers[|answers| - 1], status); }
      hide NotAccepted, Reception, Inspection, Failing, Protection;
    }
  }

  /** A scan that answers anything but an acceptance, and what becomes of the task without a
      crash: after the verdict was persisted readers see the upload rejected, and failed if
      the scanner did not answer or the verdict could not be persisted; no metadata comes of
      it, and no acceptance. */
  lemma OtherVerdictEnds(w: World, u: string, a: Answer, persisted: Answer, answers: seq<Answer>)
    requires Inv(w) && u in w.uploads && w.uploads[u].task == Some(Scan)
    requires !a.ok || a.verdict != Accepted
    requires |answers| >= 22
    ensures
      var w' := Acts(Step(Step(w, u, a), u, persisted), u, answers);
      && u in w'.uploads && w'.uploads[u].task == None && w'.uploads[u].memory.Some?
      && w'.uploads[u].metadata == w.uploads[u].metadata && w'.uploads[u].accepted == w.uploads[u].accepted
      && w'.uploads[u].memory.value.status
         == if a.ok && persisted.ok && w.uploads[u].row.Some? then Rejected else Failed
  {
    var s := w.uploads[u];
    assert Sound(w, u, s);
    var w1 := Step(w, u, a);
    var w2 := Step(w1, u, persisted);
    var status := if a.ok && persisted.ok && s.row.Some? then Rejected else Failed;
    ScanThenPersist(w, u, a, persisted);
    hide Step, NotAccepted, Inv, Sound;
    ActKeeps(w, u, a);
    ActKeeps(w1, u, persisted);
    NotAcceptedEnds(w2, u, answers, s, status);
    TaskEnds(w2, u, answers);
    NotAcceptedEnd(s, Acts(w2, u, answers).uploads[u], status);
  }

  lemma NotAcceptedEnd(from: Upload, s: Upload, status: Status)
    requires NotAccepted(from, s, status) && s.task == None
    ensures s.memory.Some? && s.metadata == from.metadata && s.accepted == from.accepted &&
            s.memory.value.status == status
  {}

  lemma ScanThenPersist(w: World, u: string, a: Answer, persisted: Answer)
    requires u in w.uploads && w.uploads[u].task == Some(Scan) && w.uploads[u].memory.Some?
    requires !a.ok || a.verdict != Accepted
    ensures
      var s := w.uploads[u];
      var w' := Step(Step(w, u, a), u, persisted);
      && u in w'.uploads
      && NotAccepted(s, w'.uploads[u], if a.ok && persisted.ok && s.row.Some? then Rejected else Failed)
  {
    hide Reception, Failing, Protection;
  }

  lemma StandingKept(w: World, u: string, a: Answer)
    requires u in w.uploads && u in Step(w, u, a).uploads
    ensures Step(w, u, a).uploads[u].standing == w.uploads[u].standing
  {
    hide Step, Rank;
    if Idle(w, u) { StepIdle(w, u, a); } else { StepAdvances(w, u, a); }
  }

  /** Readers see an upload that is not finished, and nobody works on it. */
  predicate NobodyWorks(s: Upload) { s.memory.Some? && !Terminal(s.memory.value.status) && s.task == None }

  /** Event k brings upload u's row back into memory, and the process has not stopped since. */
  ghost predicate PutBackSince(events: seq<Event>, k: nat, u: string) {
    && k < |events| && events[k] == Retry(u)
    && u in Run(events[..k]).uploads && Dropped(Run(events[..k]).uploads[u])
    && forall j :: k < j < |events| ==> events[j] != Crash
  }

  /** After every run: an upload is left like that exactly when its key was repeated after its
      reception had been undone in memory alone, and the process has run on since. */
  lemma StuckIff(events: seq<Event>, u: string)
    requires u in Run(events).uploads
    ensures NobodyWorks(Run(events).uploads[u]) <==> exists k: nat :: PutBackSince(events, k, u)
  {
    ReturnedSince(events, u);
    RunKeeps(events);
    assert Sound(Run(events), u, Run(events).uploads[u]);
  }

  lemma {:induction false} ReturnedSince(events: seq<Event>, u: string)
    requires u in Run(events).uploads
    ensures Run(events).uploads[u].standing.Returned? <==> exists k: nat :: PutBackSince(events, k, u)
  {
    var n := |events| - 1;
    var before, e := events[..n], events[n];
    hide Next, Dropped;
    StandingSteps(Run(before), e, u);
    if u in Run(before).uploads { ReturnedSince(before, u); }
    forall k: nat | k < n ensures PutBackSince(events, k, u) <==> PutBackSince(before, k, u) && e != Crash {
      assert before[..k] == events[..k];
      assert PutBackSince(events, k, u) ==> events[n] != Crash;
    }
    if k: nat :| PutBackSince(events, k, u) {
      if k < n { PutBackKnown(before, k, u); }
    } else {
      assert !PutBackSince(events, n, u);
    }
  }

  /** Uploads never go. */
  lemma {:induction false} PutBackKnown(events: seq<Event>, k: nat, u: string)
    requires PutBackSince(events, k, u)
    ensures u in Run(events).uploads
    decreases |events|
  {
    hide Next, Dropped;
    var n := |events| - 1;
    assert events[..n][..k] == events[..k];
    if k < n {
      PutBackKnown(events[..n], k, u);
    } else {
      assert events[..n] == events[..k];
    }
    EventAdvances(Run(events[..n]), events[n], u);
  }

  lemma StandingSteps(w: World, e: Event, u: string)
    requires u in Next(w, e).uploads
    ensures
      var known := u in w.uploads;
      Next(w, e).uploads[u].standing.Returned? <==>
      known && ((e == Retry(u) && Dropped(w.uploads[u])) || (w.uploads[u].standing.Returned? && e != Crash))
  {
    hide Step, Rank, VersionUsed, RestoreFile, ListFile;
    if e.RestoreVersion? { RestoreLeavesUploads(w, e.file, e.version); }
    if e.SetListed? { ListLeavesUploads(w, e.file, e.listed); }
    if e.Act? {
      if Idle(w, e.upload) {
        StepIdle(w, e.upload, e.answer);
      } else {
        StepAdvances(w, e.upload, e.answer);
      }
    }
  }

  lemma LeftBound(w: World, u: string)
    ensures Left(w, u) <= 22
  {}

  lemma LeftNone(w: World, u: string)
    requires Inv(w) && u in w.uploads
    ensures Left(w, u) == 0 ==>
            w.uploads[u].task == None && (w.uploads[u].memory.Some? && !Terminal(w.uploads[u].memory.value.status) ==>
                                          w.uploads[u].standing.Returned?)
  {
    assert Sound(w, u, w.uploads[u]);
  }

  // --- A row that says stored, and no object ----------------------------------

  /** Event k commits v for upload u, and is answered with an error. */
  ghost predicate DoubtfulAt(events: seq<Event>, k: nat, u: string, v: string) {
    && k < |events| && events[k].Act? && events[k].upload == u && !events[k].answer.ok && events[k].answer.applied
    && !Idle(Run(events[..k]), u)
    && Run(events[..k]).uploads[u].task == Some(CommitMetadata(v)) && Run(events[..k]).uploads[u].metadata == None
  }

  /** Event j removes the object that upload u wrote for v. */
  ghost predicate RemovedAt(events: seq<Event>, j: nat, u: string, v: string) {
    && j < |events| && events[j].Act? && events[j].upload == u && events[j].answer.ok
    && !Idle(Run(events[..j]), u) && Removing(Run(events[..j]).uploads[u], v)
  }

  predicate Removing(s: Upload, v: string) {
    s.task.Some? && s.task.value.RemoveOwnObject? && s.task.value.version == v
  }

  ghost predicate LostBy(events: seq<Event>, u: string, v: string) {
    exists k: nat, j: nat :: k < j && DoubtfulAt(events, k, u, v) && RemovedAt(events, j, u, v)
  }

  predicate Committing(s: Upload, v: string) {
    s.metadata == None && s.task == Some(CommitMetadata(v))
  }

  /** What one effect may do to the doubts and to the objects. */
  lemma StepShared(w: World, u: string, a: Answer, v: string)
    requires !Idle(w, u)
    ensures v in Step(w, u, a).doubted && v !in w.doubted ==> Committing(w.uploads[u], v) && !a.ok && a.applied
    ensures v in w.objects && v !in Step(w, u, a).objects ==> Removing(w.uploads[u], v) && a.ok
    ensures Removing(w.uploads[u], v) && a.ok ==> v !in Step(w, u, a).objects
    ensures v !in w.objects && v in w.written ==> v !in Step(w, u, a).objects
    ensures v in w.written ==> v in Step(w, u, a).written && Step(w, u, a).written[v] == w.written[v]
  {
    hide Reception, Inspection, Failing, Registrable, Register, PersistThen;
    if w.uploads[u].task.value.RegisterFile? {
      RegisterOnlyFiles(w, u, w.uploads[u].ownerID, w.uploads[u].task.value.version, a.name);
    }
  }

  lemma RegisterOnlyFiles(w: World, u: string, owner: string, v: string, name: string)
    ensures Register(w, u, owner, v, name) == w.(files := Register(w, u, owner, v, name).files)
  {
    hide InHistory, Recognises;
  }

  /** The same of any event. */
  lemma EventShared(w: World, e: Event, v: string)
    ensures v in Next(w, e).doubted && v !in w.doubted ==>
              e.Act? && !Idle(w, e.upload) && Committing(w.uploads[e.upload], v) && !e.answer.ok && e.answer.applied
    ensures v in w.objects && v !in Next(w, e).objects ==>
              e.Act? && !Idle(w, e.upload) && Removing(w.uploads[e.upload], v) && e.answer.ok
    ensures v !in w.objects && v in w.written ==> v !in Next(w, e).objects
    ensures v in w.written ==> v in Next(w, e).written && Next(w, e).written[v] == w.written[v]
  {
    hide Step, Recovered, Idle;
    if e.Act? {
      if Idle(w, e.upload) { StepIdle(w, e.upload, e.answer); } else { StepShared(w, e.upload, e.answer, v); }
    }
  }

  lemma OwnVersion(w: World, u: string, u': string, v: string)
    requires Inv(w) && u' in w.uploads && (Committing(w.uploads[u'], v) || Removing(w.uploads[u'], v))
    ensures v in w.written && (WrittenFor(w, v, u) ==> u' == u)
  {
    assert Sound(w, u', w.uploads[u']);
  }

  lemma DoubtsWritten(w: World, v: string)
    requires Inv(w) && v in w.doubted
    ensures v in w.written
  {}

  lemma {:induction false} DoubtWasDoubtful(events: seq<Event>, u: string, v: string)
    requires v in Run(events).doubted && WrittenFor(Run(events), v, u)
    ensures exists k: nat :: DoubtfulAt(events, k, u, v)
  {
    var n := |events| - 1;
    var before := events[..n];
    hide Next, Inv;
    RunKeeps(before);
    EventShared(Run(before), events[n], v);
    if v in Run(before).doubted {
      DoubtsWritten(Run(before), v);
      DoubtWasDoubtful(before, u, v);
      var k: nat :| DoubtfulAt(before, k, u, v);
      assert before[..k] == events[..k];
      assert DoubtfulAt(events, k, u, v);
    } else {
      OwnVersion(Run(before), u, events[n].upload, v);
      assert DoubtfulAt(events, n, u, v);
    }
  }

  lemma LostEarlier(events: seq<Event>, n: nat, u: string, v: string)
    requires n <= |events| && LostBy(events[..n], u, v)
    ensures LostBy(events, u, v)
  {
    hide Run;
    var k: nat, j: nat :| k < j && DoubtfulAt(events[..n], k, u, v) && RemovedAt(events[..n], j, u, v);
    assert events[..n][..k] == events[..k] && events[..n][..j] == events[..j];
    assert DoubtfulAt(events, k, u, v) && RemovedAt(events, j, u, v);
  }

  /** Removing the object that committed metadata names: only after a doubtful commit. */
  lemma RemovalOfCommitted(w: World, u: string, u': string, v: string)
    requires Inv(w) && u in w.uploads && w.uploads[u].metadata == Some(v) && u' in w.uploads &&
             Removing(w.uploads[u'], v)
    ensures u' == u && v in w.doubted && WrittenFor(w, v, u)
  {
    assert Sound(w, u, w.uploads[u]) && Sound(w, u', w.uploads[u']);
    hide AcceptedFirst, NotStuck, SaysStored;
  }

  lemma {:induction false} MissingIsLost(events: seq<Event>, u: string, v: string)
    requires u in Run(events).uploads && Run(events).uploads[u].metadata == Some(v) && v !in Run(events).objects
    ensures LostBy(events, u, v)
  {
    var n := |events| - 1;
    var before, e := events[..n], events[n];
    var w := Run(before);
    hide Next, Inv, LostBy;
    RunKeeps(before);
    EventShared(w, e, v);
    if u in w.uploads && w.uploads[u].metadata.Some? {
      EventAdvances(w, e, u);
      if v !in w.objects {
        MissingIsLost(before, u, v);
        LostEarlier(events, n, u, v);
      } else {
        RemovalOfCommitted(w, u, e.upload, v);
        DoubtWasDoubtful(before, u, v);
        var k: nat :| DoubtfulAt(before, k, u, v);
        LostNow(events, u, v, k);
      }
    } else {
      CommitStep(before, e, u, v);
      EventAdvances(w, e, u);
      CommitKeepsObject(w, u, e, v);
    }
  }

  /** The commit itself removes nothing. */
  lemma CommitKeepsObject(w: World, u: string, e: Event, v: string)
    requires Inv(w) && u in w.uploads && Committing(w.uploads[u], v) && v in w.objects
    ensures v in Next(w, e).objects
  {
    hide Next;
    EventShared(w, e, v);
    assert Sound(w, u, w.uploads[u]);
    if v !in Next(w, e).objects { OwnVersion(w, u, e.upload, v); }
  }

  lemma LostNow(events: seq<Event>, u: string, v: string, k: nat)
    requires events != [] && RemovedAt(events, |events| - 1, u, v) && DoubtfulAt(events[..|events| - 1], k, u, v)
    ensures LostBy(events, u, v)
  {
    hide Run;
    var n := |events| - 1;
    assert events[..n][..k] == events[..k];
    assert DoubtfulAt(events, k, u, v);
  }

  lemma {:induction false} RemovedIsGone(events: seq<Event>, j: nat, n: nat, u: string, v: string)
    requires RemovedAt(events, j, u, v) && j < n <= |events|
    ensures v in Run(events[..n]).written && v !in Run(events[..n]).objects
  {
    hide Next, Inv, Idle, Removing;
    assert events[..n][..n - 1] == events[..n - 1] && events[..n][n - 1] == events[n - 1];
    var w := Run(events[..n - 1]);
    EventShared(w, events[n - 1], v);
    if n == j + 1 {
      RunKeeps(events[..j]);
      RemovalRemoves(w, events[j], u, v);
    } else {
      RemovedIsGone(events, j, n - 1, u, v);
    }
  }

  lemma RemovalRemoves(w: World, e: Event, u: string, v: string)
    requires Inv(w) && e.Act? && e.upload == u && e.answer.ok && !Idle(w, u) && Removing(w.uploads[u], v)
    ensures v in Next(w, e).written && v !in Next(w, e).objects
  {
    assert u in w.uploads;
    hide Step, Inv, Idle;
    StepShared(w, u, e.answer, v);
    OwnVersion(w, u, u, v);
  }

  /** After any run, the object of an upload's committed version is missing exactly when its
      commit took effect but was answered with an error and the removal that follows such an
      answer succeeded. That goes for a row that says stored as for any other. */
  lemma ObjectMissingIff(events: seq<Event>, u: string)
    requires u in Run(events).uploads && Run(events).uploads[u].metadata.Some?
    ensures
      var v := Run(events).uploads[u].metadata.value;
      v !in Run(events).objects <==> LostBy(events, u, v)
  {
    var v := Run(events).uploads[u].metadata.value;
    hide Run, DoubtfulAt, RemovedAt;
    if LostBy(events, u, v) {
      var k: nat, j: nat :| k < j && DoubtfulAt(events, k, u, v) && RemovedAt(events, j, u, v);
      RemovedIndex(events, j, u, v);
      RemovedIsGone(events, j, |events|, u, v);
      assert events[..|events|] == events;
    } else if v !in Run(events).objects {
      MissingIsLost(events, u, v);
    }
  }

  lemma RemovedIndex(events: seq<Event>, j: nat, u: string, v: string)
    requires RemovedAt(events, j, u, v)
    ensures j < |events|
  {}

  // --- A row that says failed, and a file ------------------------------------

  /** When protection registers an upload, as it does again after a crash, and the database
      answers, the upload goes on to fail exactly when its file is there already and has
      moved on from the committed version or is no longer listed. Either way it has one
      file. */
  lemma RegisterRefusedIff(w: World, u: string, v: string, a: Answer)
    requires Inv(w) && u in w.uploads && w.uploads[u].task == Some(RegisterFile(v)) && w.uploads[u].memory.Some?
    requires a.ok && a.name !in w.files
    ensures u in Step(w, u, a).uploads
    ensures Step(w, u, a).uploads[u].task == Some(if Passed(w, u, v) then MarkFailed else MarkStored)
    ensures exists f :: FilesOf(Step(w, u, a), u) == {f} && (Passed(w, u, v) ==> f in FilesOf(w, u))
  {
    hide Inv, Step, Passed, FilesOf;
    RegisterStep(w, u, v, a);
    RegistrableIff(w, u, v);
    ActKeeps(w, u, a);
    RegisterGives(w, u, v, a.name);
    var w' := Step(w, u, a);
    FilesOnly(Register(w, u, w.uploads[u].ownerID, v, a.name), w', u);
    var f :| f in FilesOf(w', u) && (Passed(w, u, v) ==> f in FilesOf(w, u));
    OneFile(w', u, f);
  }

  lemma FilesOnly(w: World, w': World, u: string)
    requires w'.files == w.files
    ensures FilesOf(w', u) == FilesOf(w, u)
  {}

  lemma RegisterStep(w: World, u: string, v: string, a: Answer)
    requires Inv(w) && u in w.uploads && w.uploads[u].task == Some(RegisterFile(v)) && w.uploads[u].memory.Some?
    requires a.ok && a.name !in w.files
    ensures w.uploads[u].metadata == Some(v) && u in Step(w, u, a).uploads
    ensures Step(w, u, a).files == Register(w, u, w.uploads[u].ownerID, v, a.name).files
    ensures Step(w, u, a).uploads[u].task == Some(if Registrable(w, w.uploads[u].ownerID, v) then MarkStored
                                                  else MarkFailed)
  {
    assert Sound(w, u, w.uploads[u]);
    hide Inv, Register, Registrable, Sound;
  }

  /** The upload has a file that no longer answers to the committed version. */
  ghost predicate Passed(w: World, u: string, v: string) {
    exists f :: f in FilesOf(w, u) && (w.files[f].current != v || !w.files[f].listed)
  }

  lemma OneFile(w: World, u: string, f: string)
    requires Inv(w) && f in FilesOf(w, u)
    ensures FilesOf(w, u) == {f}
  {
    hide Sound, VersionsOK;
  }

  lemma RegistrableIff(w: World, u: string, v: string)
    requires Inv(w) && u in w.uploads && w.uploads[u].metadata == Some(v)
    ensures Registrable(w, w.uploads[u].ownerID, v) <==> !Passed(w, u, v)
  {
    var owner := w.uploads[u].ownerID;
    if f :| f in FilesOf(w, u) {
      OneFile(w, u, f);
      OwnFile(w, u, v, f);
      hide Inv;
      forall g | g in w.files && v in w.files[g].versions ensures g == f {
        RecognisedIsOwn(w, u, v, g);
        assert g in FilesOf(w, u);
      }
      forall g | g in w.files && Recognises(w, g, owner, v) ensures g == f { CurrentInHistory(w, g); }
    } else {
      hide Inv;
      forall g | g in w.files ensures v !in w.files[g].versions {
        assert g !in FilesOf(w, u);
        if v in w.files[g].versions { RecognisedIsOwn(w, u, v, g); }
      }
      forall g | g in w.files ensures !Recognises(w, g, owner, v) { CurrentInHistory(w, g); }
    }
  }

  lemma OwnFile(w: World, u: string, v: string, f: string)
    requires Inv(w) && u in w.uploads && w.uploads[u].metadata == Some(v) && f in FilesOf(w, u)
    ensures v in w.files[f].versions && w.files[f].ownerID == w.uploads[u].ownerID
  {
    assert FileOK(w, w.files[f]);
  }

  lemma RegisterGives(w: World, u: string, v: string, name: string)
    requires Inv(w) && u in w.uploads && w.uploads[u].metadata == Some(v) && name !in w.files
    ensures
      var w' := Register(w, u, w.uploads[u].ownerID, v, name);
      exists f :: f in FilesOf(w', u) && (Passed(w, u, v) ==> f in FilesOf(w, u))
  {
    var w' := Register(w, u, w.uploads[u].ownerID, v, name);
    if f :| f in FilesOf(w, u) {
      OwnFile(w, u, v, f);
      assert InHistory(w, v);
      assert f in FilesOf(w', u);
    } else {
      hide Inv;
      forall g | g in w.files ensures v !in w.files[g].versions {
        assert g !in FilesOf(w, u);
        if v in w.files[g].versions { RecognisedIsOwn(w, u, v, g); }
      }
      forall g | g in w.files ensures !Recognises(w, g, w.uploads[u].ownerID, v) { CurrentInHistory(w, g); }
      assert name in FilesOf(w', u);
    }
  }

  /** Event k asks the catalogue for upload u's file, and the request takes effect, whatever
      its answer. */
  ghost predicate RegisteredAt(events: seq<Event>, k: nat, u: string) {
    && k < |events| && events[k].Act? && events[k].upload == u
    && !Idle(Run(events[..k]), u) && Registering(Run(events[..k]), u, events[k].answer)
  }

  predicate Registering(w: World, u: string, a: Answer)
    requires u in w.uploads && w.uploads[u].task.Some?
  {
    w.uploads[u].task.value.RegisterFile? && (a.ok || a.applied) && a.name !in w.files
  }

  /** Files never go; a new one comes from its upload's registration. */
  lemma EventFiles(w: World, e: Event, u: string)
    ensures FilesOf(w, u) <= FilesOf(Next(w, e), u)
    ensures FilesOf(Next(w, e), u) == FilesOf(w, u) ||
            (e.Act? && e.upload == u && !Idle(w, u) && Registering(w, u, e.answer))
  {
    hide Step, Recovered, Idle;
    if e.Act? {
      if Idle(w, e.upload) { StepIdle(w, e.upload, e.answer); } else { StepFiles(w, e.upload, e.answer, u); }
    }
  }

  lemma StepFiles(w: World, u: string, a: Answer, x: string)
    requires !Idle(w, u)
    ensures FilesOf(w, x) <= FilesOf(Step(w, u, a), x)
    ensures FilesOf(Step(w, u, a), x) == FilesOf(w, x) || (x == u && Registering(w, u, a))
  {
    hide Reception, Inspection, Failing, Registrable, PersistThen, InHistory, Recognises;
  }

  lemma RegistrationFiles(w: World, u: string, a: Answer)
    requires Inv(w) && !Idle(w, u) && Registering(w, u, a)
    ensures FilesOf(Step(w, u, a), u) != {}
  {
    var v := w.uploads[u].task.value.version;
    assert Sound(w, u, w.uploads[u]) && w.uploads[u].metadata == Some(v);
    RegisterGives(w, u, v, a.name);
    FilesOnly(Register(w, u, w.uploads[u].ownerID, v, a.name), Step(w, u, a), u);
  }

  lemma {:induction false} FileWasRegistered(events: seq<Event>, u: string)
    ensures FilesOf(Run(events), u) != {} <==> exists k: nat :: RegisteredAt(events, k, u)
  {
    if events == [] {
    } else {
      var n := |events| - 1;
      var before, e := events[..n], events[n];
      hide Next, FilesOf, Registering, Inv;
      FileWasRegistered(before, u);
      EventFiles(Run(before), e, u);
      forall k: nat | RegisteredAt(before, k, u) ensures RegisteredAt(events, k, u) {
        assert before[..k] == events[..k];
      }
      if RegisteredAt(events, n, u) {
        RunKeeps(before);
        RegistrationFiles(Run(before), u, e.answer);
        NextActs(Run(before), e);
      } else if k: nat :| RegisteredAt(events, k, u) {
        assert before[..k] == events[..k];
        assert RegisteredAt(before, k, u);
      }
    }
  }

  lemma NextActs(w: World, e: Event)
    requires e.Act?
    ensures Next(w, e) == Step(w, e.upload, e.answer)
  {}

  /** Over all runs an upload has a file, and then exactly one, exactly when a registration of it
      took effect, at whatever time, with whatever answer, and whatever its row says now. */
  lemma FileIff(events: seq<Event>, u: string)
    ensures (exists f :: FilesOf(Run(events), u) == {f}) <==> (exists k: nat :: RegisteredAt(events, k, u))
    ensures FilesOf(Run(events), u) == {} <==> !exists k: nat :: RegisteredAt(events, k, u)
  {
    FileWasRegistered(events, u);
    RunKeeps(events);
    hide Run, FilesOf, RegisteredAt;
    if f :| f in FilesOf(Run(events), u) { OneFile(Run(events), u, f); }
  }

  /** So a row that says failed has a file exactly then. */
  lemma FailedFileIff(events: seq<Event>, u: string)
    requires u in Run(events).uploads
    requires Run(events).uploads[u].row.Some? && Run(events).uploads[u].row.value.status == Failed
    ensures (exists f :: FilesOf(Run(events), u) == {f}) <==> (exists k: nat :: RegisteredAt(events, k, u))
  {
    hide Run;
    FileIff(events, u);
  }

  /** The upload is on its way to a row that says failed. */
  predicate GoingToFail(s: Upload) {
    && s.task.Some? && s.memory.Some?
    && (s.task.value.MarkFailed? || s.task.value.PersistFailed? ||
        (s.task.value.RemovePlaintext? && s.memory.value.status == Failed))
  }

  /** And when that happens: without a crash, an upload whose registration takes effect goes on
      to fail exactly when the answer is an error, or its file has moved on or is no longer
      listed, or the row that says stored cannot be persisted. */
  lemma RegisteredFailsIff(w: World, u: string, v: string, a: Answer, m: Answer, p: Answer)
    requires Inv(w) && u in w.uploads && w.uploads[u].task == Some(RegisterFile(v)) && w.uploads[u].memory.Some?
    requires w.uploads[u].row.Some? && Registering(w, u, a)
    ensures
      var w' := Step(Step(Step(w, u, a), u, m), u, p);
      && u in w'.uploads && FilesOf(w', u) != {}
      && (GoingToFail(w'.uploads[u]) <==> !a.ok || Passed(w, u, v) || !p.ok)
  {
    hide Inv, Passed, FilesOf, Register, Registrable;
    SameMetadata(w, u, v);
    RegistrableIff(w, u, v);
    RegistrationFiles(w, u, a);
    var w1 := Step(w, u, a);
    var s := w.uploads[u];
    var t := if a.ok && Registrable(w, s.ownerID, v) then MarkStored else MarkFailed;
    RegisterLeavesUploads(w, u, s.ownerID, v, a.name);
    assert u in w1.uploads && w1.uploads[u] == Go(s, t);
    hide Step;
    TwoMore(w1, u, m, p);
    EventFiles(w1, Act(u, m), u);
    EventFiles(Step(w1, u, m), Act(u, p), u);
  }

  lemma SameMetadata(w: World, u: string, v: string)
    requires Inv(w) && u in w.uploads && w.uploads[u].task == Some(RegisterFile(v))
    ensures w.uploads[u].metadata == Some(v)
  {
    assert Sound(w, u, w.uploads[u]);
  }

  lemma MarkStep(w: World, u: string, m: Answer)
    requires u in w.uploads && w.uploads[u].memory.Some?
    requires w.uploads[u].task == Some(MarkStored) || w.uploads[u].task == Some(MarkFailed)
    ensures
      var s, stored := w.uploads[u], w.uploads[u].task == Some(MarkStored);
      && u in Step(w, u, m).uploads
      && Step(w, u, m).uploads[u]
         == Go(SetStatus(s, if stored then Stored else Failed), if stored then PersistStored else PersistFailed)
  {
    hide Reception, Inspection;
  }

  lemma EndStep(w: World, u: string, p: Answer)
    requires u in w.uploads && w.uploads[u].memory.Some? && w.uploads[u].row.Some?
    requires w.uploads[u].task == Some(PersistStored) || w.uploads[u].task == Some(PersistFailed)
    ensures
      var s, stored := w.uploads[u], w.uploads[u].task == Some(PersistStored);
      && u in Step(w, u, p).uploads
      && Step(w, u, p).uploads[u]
         == PersistThen(s, s.memory.value, p, RemovePlaintext, if stored then MarkFailed else RemovePlaintext)
  {
    hide Reception, Inspection, PersistThen;
  }

  lemma TwoMore(w: World, u: string, m: Answer, p: Answer)
    requires u in w.uploads && w.uploads[u].memory.Some? && w.uploads[u].row.Some?
    requires w.uploads[u].task == Some(MarkStored) || w.uploads[u].task == Some(MarkFailed)
    ensures
      var w' := Step(Step(w, u, m), u, p);
      && u in w'.uploads
      && (GoingToFail(w'.uploads[u]) <==> w.uploads[u].task == Some(MarkFailed) || !p.ok)
  {
    hide Step;
    MarkStep(w, u, m);
    EndStep(Step(w, u, m), u, p);
  }

  // --- Traces ----------------------------------------------------------------

  const YES: Answer := Answer(true, true, true, 1, Accepted, "")

  ghost predicate Reachable(w: World) { exists events :: Run(events) == w }

  lemma Onward(w: World, e: Event)
    requires Reachable(w)
    ensures Reachable(Next(w, e))
  {
    var events :| Run(events) == w;
    var more := events + [e];
    assert more[..|more| - 1] == events;
    assert Run(more) == Next(w, e);
  }

  /** The upload under the only ID in use, nothing protected yet. */
  function Only(s: Upload): World { World(map["u" := s], {}, map[], map[], {}) }

  /** A crash-free upload up to its acceptance. */
  lemma TraceAccepted() returns (w: World)
    ensures Reachable(w)
    ensures w == Only(Upload("ann", Some(Row(1, Accepted)), true, None, Some(Row(1, Accepted)), Some(BeginProtection),
                             true))
  {
    hide Reachable;
    w := EmptyWorld();
    EmptyReachable();
    Onward(w, Admit("u", "ann"));
    w := Next(w, Admit("u", "ann"));
    assert w == Only(Admitted("ann"));
    w := TraceYes(w, Upload("ann", Some(Row(0, Quarantined)), true, None, Some(Row(0, Quarantined)), Some(Stream),
                            false));
    w := TraceYes(w, Upload("ann", Some(Row(0, Quarantined)), true, None, Some(Row(1, Quarantined)),
                            Some(PersistReceived), false));
    w := TraceYes(w, Upload("ann", Some(Row(1, Quarantined)), true, None, Some(Row(1, Quarantined)),
                            Some(BeginInspection), false));
    w := TraceYes(w, Upload("ann", Some(Row(1, Quarantined)), true, None, Some(Row(1, Inspecting)),
                            Some(PersistInspecting), false));
    w := TraceYes(w, Upload("ann", Some(Row(1, Inspecting)), true, None, Some(Row(1, Inspecting)), Some(Scan), false));
    w := TraceYes(w, Upload("ann", Some(Row(1, Inspecting)), true, None, Some(Row(1, Inspecting)),
                            Some(PersistVerdict(Accepted)), false));
    w := TraceYes(w, Upload("ann", Some(Row(1, Accepted)), true, None, Some(Row(1, Inspecting)),
                            Some(PublishVerdict(Accepted)), true));
    w := TraceYes(w, Upload("ann", Some(Row(1, Accepted)), true, None, Some(Row(1, Accepted)), Some(BeginProtection),
                            true));
  }

  const NO: Answer := Answer(false, false, false, 0, Failed, "")

  /** An input: the upload's object cannot be created, its row cannot be removed, memory drops
      it, and the owner tries again: the upload is shown as quarantined and nobody works on it. */
  lemma ShownAndForgotten()
    ensures exists w :: Reachable(w) && "u" in w.uploads && NobodyWorks(w.uploads["u"])
  {
    hide Reachable;
    var w0 := EmptyWorld();
    EmptyReachable();
    Onward(w0, Admit("u", "ann"));
    var w1 := Next(w0, Admit("u", "ann"));
    var s := Admitted("ann");
    assert w1 == Only(s);
    var w2 := Undone(w1, s, NO, CleanObject);
    var w3 := Undone(w2, s.(task := Some(CleanObject)), NO, CleanRow);
    var w4 := Undone(w3, s.(task := Some(CleanRow)), NO, CleanMemory);
    Onward(w4, Act("u", YES));
    var w5 := Next(w4, Act("u", YES));
    assert w5 == Only(s.(task := None, memory := None));
    Onward(w5, Retry("u"));
    var w6 := Next(w5, Retry("u"));
    assert w6.uploads["u"].memory == Some(Row(0, Quarantined));
  }

  /** One more effect of the clean-up. */
  lemma Undone(w: World, s: Upload, a: Answer, t: Task) returns (w': World)
    requires Reachable(w) && w == Only(s) && s.memory.Some? && s.task.Some?
    requires Receives(s.task.value) && Reception(s, s.task.value, a) == Go(s, t)
    ensures Reachable(w') && w' == Only(Go(s, t))
  {
    hide Reception, Reachable;
    Onward(w, Act("u", a));
    w' := Next(w, Act("u", a));
    hide Inspects, Fails, Protection, Inspection, Failing;
    assert w'.uploads == map["u" := Go(s, t)];
  }

  lemma EmptyReachable()
    ensures Reachable(EmptyWorld())
  {
    assert Run([]) == EmptyWorld();
  }

  /** One more effect, answered yes, that concerns the upload alone. */
  lemma TraceYes(w: World, s: Upload) returns (w': World)
    requires Reachable(w) && "u" in w.uploads
    requires Step(w, "u", YES) == Put(w, "u", s)
    ensures Reachable(w') && w' == Put(w, "u", s)
  {
    Onward(w, Act("u", YES));
    w' := Next(w, Act("u", YES));
  }

  /** From the start of protection, first or repeated, to the look-up of metadata. */
  lemma TraceProtection(w: World, s: Upload) returns (w': World, s': Upload)
    requires Reachable(w) && "u" in w.uploads && w.uploads["u"] == s && s.quarantined && s.row.Some?
    requires s.task == Some(BeginProtection) && s.memory.Some? &&
             (s.memory.value.status == Accepted || s.memory.value.status == Encrypting)
    ensures Reachable(w') && w' == Put(w, "u", s')
    ensures s' == s.(task := Some(FindMetadata), memory := Some(s.memory.value.(status := Encrypting)),
                     row := Some(s.memory.value.(status := Encrypting)))
  {
    hide Reachable, Reception, Inspection, Failing, Protection;
    var m := s.memory.value.(status := Encrypting);
    var s1 := s.(task := Some(PersistEncrypting), memory := Some(m));
    var s2 := s1.(task := Some(OpenPlaintext), row := Some(m));
    s' := s2.(task := Some(FindMetadata));
    ProtectionPasses(w, s);
    var w1 := TraceYes(w, s1);
    ProtectionPasses(w1, s1);
    var w2 := TraceYes(w1, s2);
    ProtectionPasses(w2, s2);
    var w3 := TraceYes(w2, s');
    assert w3.uploads == w.uploads["u" := s'];
    w' := w3;
  }

  /** The first three effects of protection, answered yes. */
  lemma ProtectionPasses(w: World, s: Upload)
    requires s.quarantined && s.row.Some? && s.memory.Some? && s.task.Some?
    requires s.memory.value.status == Accepted || s.memory.value.status == Encrypting
    ensures s.task.value.BeginProtection? ==>
              Protection(w, "u", s, s.task.value, YES)
              == (w, s.(task := Some(PersistEncrypting), memory := Some(s.memory.value.(status := Encrypting))))
    ensures s.task.value.PersistEncrypting? && s.memory.value.status == Encrypting ==>
              Protection(w, "u", s, s.task.value, YES) == (w, s.(task := Some(OpenPlaintext), row := s.memory))
    ensures s.task.value.OpenPlaintext? ==>
            Protection(w, "u", s, s.task.value, YES) == (w, s.(task := Some(FindMetadata)))
  {}

  /** Up to the commit of the metadata. */
  lemma TraceWritten() returns (w: World, s: Upload)
    ensures Reachable(w)
    ensures s == Again(true).(metadata := None, task := Some(FindMetadata))
    ensures w == World(map["u" := s.(task := Some(CommitMetadata("v1")))], {"v1"}, map[], map["v1" := "u"], {})
  {
    hide Reachable, Reception, Inspection, Failing, PersistThen;
    var w0 := TraceAccepted();
    var w1;
    w1, s := TraceProtection(w0, w0.uploads["u"]);
    var w2 := TraceYes(w1, s.(task := Some(WriteObject)));
    assert w2 == Only(s.(task := Some(WriteObject)));
    w := TraceWrite(w2, s);
  }

  lemma TraceRegistered() returns (w: World)
    ensures Reachable(w)
    ensures w == World(map["u" := Again(true).(task := Some(MarkStored))],
                       {"v1"}, map["f1" := CatalogFile("ann", "u", "v1", "v1", {"v1"}, true)], map["v1" := "u"], {})
  {
    hide Reachable, Step;
    var w3, s := TraceWritten();
    var w4 := TraceCommit(w3, s);
    w := TraceRegister(w4, "f1");
  }

  lemma TraceWrite(w: World, s: Upload) returns (w': World)
    requires Reachable(w) && w == Only(s.(task := Some(WriteObject))) && s.memory.Some?
    ensures Reachable(w')
    ensures w' == World(map["u" := s.(task := Some(CommitMetadata("v1")))], {"v1"}, map[], map["v1" := "u"], {})
  {
    hide Reachable, Reception, Inspection, Failing, PersistThen;
    Onward(w, Act("u", YES.(name := "v1")));
    w' := Next(w, Act("u", YES.(name := "v1")));
  }

  lemma TraceCommit(w: World, s: Upload) returns (w': World)
    requires Reachable(w) && s.memory.Some? && s.metadata == None
    requires w == World(map["u" := s.(task := Some(CommitMetadata("v1")))], {"v1"}, map[], map["v1" := "u"], {})
    ensures Reachable(w')
    ensures w' == w.(uploads := map["u" := s.(task := Some(RegisterFile("v1")), metadata := Some("v1"))])
  {
    hide Reachable, Reception, Inspection, Failing, PersistThen;
    Onward(w, Act("u", YES));
    w' := Next(w, Act("u", YES));
  }

  /** Registration as a new file, when there is none. */
  lemma TraceRegister(w: World, name: string) returns (w': World)
    requires Reachable(w) && "u" in w.uploads && w.uploads["u"].task == Some(RegisterFile("v1")) &&
             w.uploads["u"].memory.Some?
    requires w.files == map[]
    ensures Reachable(w')
    ensures w' == w.(uploads := w.uploads["u" := w.uploads["u"].(task := Some(MarkStored))],
                     files := map[name := CatalogFile(w.uploads["u"].ownerID, "u", "v1", "v1", {"v1"}, true)])
  {
    hide Reachable, Reception, Inspection, Failing, PersistThen;
    Onward(w, Act("u", YES.(name := name)));
    w' := Next(w, Act("u", YES.(name := name)));
  }

  lemma TraceFound(w: World, s: Upload) returns (w': World)
    requires Reachable(w) && "u" in w.uploads && w.uploads["u"] == s && s.memory.Some?
    requires s.task == Some(FindMetadata) && s.metadata == Some("v1")
    ensures Reachable(w') && w' == Put(w, "u", s.(task := Some(RegisterFile("v1"))))
  {
    hide Reachable;
    w' := TraceYes(w, s.(task := Some(RegisterFile("v1"))));
  }

  /** The upload whose protection begins again after a crash. */
  function Again(quarantined: bool): Upload {
    Upload("ann", Some(Row(1, Encrypting)), quarantined, Some("v1"), Some(Row(1, Encrypting)), Some(BeginProtection),
           true)
  }

  lemma TraceRestored(w: World) returns (w': World)
    requires w.files == map["f1" := CatalogFile("ann", "u", "v1", "v1", {"v1"}, true)]
    requires w.objects == {"v1"} && w.written == map["v1" := "u"]
    ensures w' == Next(w, RestoreVersion("f1", "v2"))
    ensures w' == w.(files := map["f1" := CatalogFile("ann", "u", "v1", "v2", {"v1", "v2"}, true)],
                     objects := {"v1", "v2"},
                     written := map["v1" := "u", "v2" := "u"])
  {
    w' := Next(w, RestoreVersion("f1", "v2"));
    assert w'.files["f1"].versions == {"v1", "v2"};
  }

  /** The same upload after a crash, a restore of its file to v2, and recovery. */
  lemma TraceRecovered() returns (w: World)
    ensures Reachable(w)
    ensures w == World(map["u" := Again(true)], {"v1", "v2"},
                       map["f1" := CatalogFile("ann", "u", "v1", "v2", {"v1", "v2"}, true)],
                       map["v1" := "u", "v2" := "u"], {})
  {
    hide Reachable, Step;
    var w0 := TraceRegistered();
    Onward(w0, Crash);
    var w1 := Next(w0, Crash);
    assert w1 == w0.(uploads := map["u" := Forgotten(w0.uploads["u"])]);
    Onward(w1, RestoreVersion("f1", "v2"));
    var w2 := TraceRestored(w1);
    Onward(w2, Recover("u", YES));
    w := Next(w2, Recover("u", YES));
  }

  lemma TraceRefused(w: World, s: Upload) returns (w': World)
    requires Reachable(w) && "u" in w.uploads && w.uploads["u"] == s && s.memory.Some? &&
             s.task == Some(RegisterFile("v1"))
    requires w.files == map["f1" := CatalogFile("ann", "u", "v1", "v2", {"v1", "v2"}, true)]
    ensures Reachable(w') && w' == Put(w, "u", s.(task := Some(MarkFailed)))
  {
    hide Reachable, Reception, Inspection, Failing;
    assert "v1" in w.files["f1"].versions;
    assert InHistory(w, "v1") && !Registrable(w, s.ownerID, "v1");
    w' := TraceYes(w, s.(task := Some(MarkFailed)));
  }

  /** The last two effects of either ending: persist the row, and remove the plaintext. */
  lemma TraceClosed(w: World, s: Upload) returns (w': World)
    requires Reachable(w) && "u" in w.uploads && w.uploads["u"] == s && s.memory.Some? && s.row.Some?
    requires s.task == Some(PersistFailed) || s.task == Some(PersistStored)
    requires s.memory.value.status != Accepted
    ensures Reachable(w') && w' == Put(w, "u", s.(row := s.memory, quarantined := false, task := None))
  {
    hide Reachable, Reception, Inspection;
    var s1 := s.(row := s.memory, task := Some(RemovePlaintext));
    var w1 := TraceYes(w, s1);
    var w2 := TraceYes(w1, s1.(quarantined := false, task := None));
    assert w2.uploads == w.uploads["u" := s.(row := s.memory, quarantined := false, task := None)];
    w' := w2;
  }

  /** Mark, persist and clean up, as both failure paths do. */
  lemma TraceFailed(w: World, s: Upload) returns (w': World)
    requires Reachable(w) && "u" in w.uploads && w.uploads["u"] == s && s.memory.Some? && s.row.Some? &&
             s.task == Some(MarkFailed)
    ensures
      var m := s.memory.value.(status := Failed);
      Reachable(w') && w' == Put(w, "u", s.(memory := Some(m), row := Some(m), quarantined := false, task := None))
  {
    hide Reachable, Reception, Inspection, Protection;
    var s1 := s.(memory := Some(s.memory.value.(status := Failed)), task := Some(PersistFailed));
    var w1 := TraceYes(w, s1);
    hide Step;
    w' := TraceClosed(w1, s1);
    PutTwice(w, s1, s1.(row := s1.memory, quarantined := false, task := None));
  }

  lemma PutTwice(w: World, s: Upload, s': Upload)
    ensures Put(Put(w, "u", s), "u", s') == Put(w, "u", s')
  {
    assert w.uploads["u" := s]["u" := s'] == w.uploads["u" := s'];
  }

  /** Register, crash, restore the file to another version, and recover: the upload ends as
      failed and its plaintext is removed, although its file is in the catalogue. */
  lemma FailedWithFile()
    ensures exists w :: Reachable(w) && "u" in w.uploads && w.uploads["u"].row == Some(Row(1, Failed)) &&
              w.uploads["u"].task == None
                        && !w.uploads["u"].quarantined && FilesOf(w, "u") == {"f1"} && w.files["f1"].listed
  {
    hide Reachable, Step, Put;
    var w0 := TraceRecovered();
    var w1, s := TraceProtection(w0, w0.uploads["u"]);
    PutOnly(w0, "u", s);
    var w2 := TraceFound(w1, s);
    PutOnly(w1, "u", s.(task := Some(RegisterFile("v1"))));
    var w3 := TraceRefused(w2, w2.uploads["u"]);
    PutOnly(w2, "u", w2.uploads["u"].(task := Some(MarkFailed)));
    var w4 := TraceFailed(w3, w3.uploads["u"]);
    var m := Row(1, Failed);
    PutOnly(w3, "u", w3.uploads["u"].(memory := Some(m), row := Some(m), quarantined := false, task := None));
    assert FilesOf(w4, "u") == {"f1"};
  }

  lemma PutOnly(w: World, u: string, s: Upload)
    ensures Put(w, u, s).files == w.files && Put(w, u, s).objects == w.objects
    ensures u in Put(w, u, s).uploads && Put(w, u, s).uploads[u] == s
  {}

  /** A commit that takes effect and reports an error, and the removal that follows. */
  lemma TraceLost(w: World, s: Upload) returns (w': World)
    requires Reachable(w) && s.memory.Some? && s.metadata == None
    requires w == World(map["u" := s.(task := Some(CommitMetadata("v1")))], {"v1"}, map[], map["v1" := "u"], {})
    ensures Reachable(w')
    ensures w' == World(map["u" := s.(task := Some(MarkFailed), metadata := Some("v1"))], {}, map[], map["v1" := "u"],
                        {"v1"})
  {
    hide Reachable, Reception, Inspection, Failing, PersistThen;
    var doubtful := YES.(ok := false);
    Onward(w, Act("u", doubtful));
    var w1 := Next(w, Act("u", doubtful));
    assert w1 == World(map["u" := s.(task := Some(RemoveOwnObject("v1", None)), metadata := Some("v1"))], {"v1"}, map[],
                       map["v1" := "u"], {"v1"});
    Onward(w1, Act("u", YES));
    w' := Next(w1, Act("u", YES));
  }

  /** A crash before the failure is persisted, and recovery. */
  lemma TraceBack(w: World) returns (w': World)
    requires Reachable(w) && w.uploads == map["u" := Again(true).(task := Some(MarkFailed))]
    ensures Reachable(w') && w' == w.(uploads := map["u" := Again(true)])
  {
    hide Reachable, Step;
    Onward(w, Crash);
    var w1 := Next(w, Crash);
    assert w1 == w.(uploads := map["u" := Forgotten(w.uploads["u"])]);
    Onward(w1, Recover("u", YES));
    w' := Next(w1, Recover("u", YES));
  }

  /** The last three effects of an upload that is registered. */
  lemma TraceStored(w: World, s: Upload) returns (w': World)
    requires Reachable(w) && "u" in w.uploads && w.uploads["u"] == s && s.memory.Some? && s.row.Some? &&
             s.task == Some(MarkStored)
    ensures
      var m := s.memory.value.(status := Stored);
      Reachable(w') && w' == Put(w, "u", s.(memory := Some(m), row := Some(m), quarantined := false, task := None))
  {
    hide Reachable, Reception, Inspection, Failing;
    var s1 := s.(memory := Some(s.memory.value.(status := Stored)), task := Some(PersistStored));
    var w1 := TraceYes(w, s1);
    hide Step;
    w' := TraceClosed(w1, s1);
    PutTwice(w, s1, s1.(row := s1.memory, quarantined := false, task := None));
  }

  /** The commit is doubtful, its object is removed, the process stops and recovers: the row
      ends as stored, with a listed file at the committed version, while the object is gone
      and so is the plaintext. */
  lemma StoredWithoutObject()
    ensures exists w :: Reachable(w) && "u" in w.uploads && w.uploads["u"].row == Some(Row(1, Stored)) &&
              w.uploads["u"].task == None
                        && w.uploads["u"].metadata == Some("v1") && "v1" !in w.objects && !w.uploads["u"].quarantined
                        && FilesOf(w, "u") == {"f1"} && w.files["f1"].current == "v1" && w.files["f1"].listed
  {
    hide Reachable, Step, Put;
    var w3, s := TraceWritten();
    var w4 := TraceLost(w3, s);
    var w5 := TraceBack(w4);
    var w6, again := TraceProtection(w5, w5.uploads["u"]);
    PutOnly(w5, "u", again);
    var w7 := TraceFound(w6, again);
    PutOnly(w6, "u", again.(task := Some(RegisterFile("v1"))));
    var w8 := TraceRegister(w7, "f1");
    var w9 := TraceStored(w8, w8.uploads["u"]);
    var m := Row(1, Stored);
    PutOnly(w8, "u", w8.uploads["u"].(memory := Some(m), row := Some(m), quarantined := false, task := None));
    assert FilesOf(w9, "u") == {"f1"};
  }
}
