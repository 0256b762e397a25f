/** Where an upload ends: stored when every effect is answered, undone or failed from the
    first refusal on, and what the persisted row says meanwhile. */
module IngestEndings {
  import opened Wrappers
  import opened IngestModel
  import opened IngestSafety
  import opened IngestRuns

  // --- Every effect answered ---------------------------------------------------

  /** The effect succeeds: bytes come in, the scanner accepts them, and names are fresh. */
  predicate Smooth(w: World, u: string, a: Answer, size: nat) {
    && a.ok && a.size == size && size > 0 && a.verdict == Accepted
    && (u in w.uploads && w.uploads[u].task == Some(WriteObject) ==> !VersionUsed(w, a.name))
    && (u in w.uploads && w.uploads[u].task.Some? && w.uploads[u].task.value.RegisterFile? ==> a.name !in w.files)
  }

  ghost predicate AllSmooth(w: World, u: string, answers: seq<Answer>, size: nat) {
    forall i :: 0 <= i < |answers| ==> Smooth(Acts(w, u, answers[..i]), u, answers[i], size)
  }

  /** The upload's own file, listed, at the version that was committed for it. */
  ghost predicate Listed(w: World, u: string, s: Upload) {
    && s.metadata.Some? && s.metadata.value in w.objects
    && exists f :: f in w.files &&
         w.files[f] == CatalogFile(s.ownerID, u, s.metadata.value, s.metadata.value, {s.metadata.value}, true)
  }

  /** On the way to its file: what holds before each effect. */
  ghost predicate OnTrack(w: World, u: string, s: Upload, size: nat) {
    match s.task
    case None =>
      s.memory == Some(Row(size, Stored)) && s.row == s.memory && !s.quarantined && Listed(w, u, s)
    case Some(t) =>
      && s.memory.Some? && s.row.Some? && (s.quarantined <==> t != OpenObject)
      && match t
         case OpenObject => s.metadata == None
         case Stream => s.metadata == None
         case PersistReceived => s.metadata == None && s.memory.value.size == size
         case PersistVerdict(v) => s.metadata == None && s.memory.value.size == size && v == Accepted
         case PublishVerdict(v) => s.metadata == None && s.memory.value.size == size && v == Accepted
         case BeginProtection => s.metadata == None && s.memory == Some(Row(size, Accepted))
         case CommitMetadata(v) =>
           s.metadata == None && s.memory.value.size == size && v in w.objects && !InHistory(w, v)
         case RegisterFile(v) =>
           && s.metadata == Some(v) && s.memory.value.size == size && v in w.objects && !InHistory(w, v)
         case MarkStored => s.memory.value.size == size && Listed(w, u, s)
         case PersistStored => s.memory == Some(Row(size, Stored)) && Listed(w, u, s)
         case RemovePlaintext => s.memory == Some(Row(size, Stored)) && s.row == s.memory && Listed(w, u, s)
         case _ => s.metadata == None && s.memory.value.size == size && !Receives(t) && !Fails(t) && !t.RemoveOwnObject?
  }

  /** A version nobody has written is in no history. */
  lemma UnwrittenIsNew(w: World, v: string)
    requires Inv(w) && v !in w.written
    ensures !InHistory(w, v)
  {}

  lemma ReceivedOnTrack(w: World, w': World, u: string, s: Upload, a: Answer, size: nat)
    requires s.task.Some? && (Receives(s.task.value) || Inspects(s.task.value) || Fails(s.task.value))
    requires OnTrack(w, u, s, size) && a.ok && a.size == size && size > 0 && a.verdict == Accepted
    requires w'.files == w.files && w'.objects == w.objects
    ensures Receives(s.task.value) ==> OnTrack(w', u, Reception(s, s.task.value, a), size)
    ensures Inspects(s.task.value) ==> OnTrack(w', u, Inspection(s, s.task.value, a), size)
    ensures Fails(s.task.value) ==> OnTrack(w', u, Failing(s, s.task.value, a), size)
  {}

  /** Registering a version that is new to the catalogue makes a file of it. */
  lemma RegisteredOnTrack(w: World, u: string, s: Upload, v: string, a: Answer)
    requires Inv(w) && !InHistory(w, v) && a.ok && a.name !in w.files
    ensures Registrable(w, s.ownerID, v)
    ensures Register(w, u, s.ownerID, v, a.name)
         == w.(files := w.files[a.name := CatalogFile(s.ownerID, u, v, v, {v}, true)])
  {
    forall f | f in w.files ensures !Recognises(w, f, s.ownerID, v) {
      assert FileOK(w, w.files[f]);
      assert !(f in w.files && v in w.files[f].versions);
    }
  }

  lemma VersionOnTrack(w: World, u: string, s: Upload, a: Answer, size: nat)
    requires Inv(w) && u in w.uploads && w.uploads[u] == s && s.task.Some? && OnTrack(w, u, s, size)
    requires Smooth(w, u, a, size) && TouchesVersion(s.task.value)
    ensures
      var (w', s') := Protection(w, u, s, s.task.value, a);
      OnTrack(w', u, s', size)
  {
    hide Inv;
    var (w', s') := Protection(w, u, s, s.task.value, a);
    if s.task.value.WriteObject? {
      UnwrittenIsNew(w, a.name);
      assert w'.files == w.files;
      assert !InHistory(w', a.name);
    }
    if s.task.value.RegisterFile? {
      var v := s.task.value.version;
      RegisteredOnTrack(w, u, s, v, a);
      hide Registrable, Register, InHistory;
      assert a.name in w'.files && w'.files[a.name] == CatalogFile(s.ownerID, u, v, v, {v}, true);
    }
  }

  lemma ProtectedOnTrack(w: World, u: string, s: Upload, a: Answer, size: nat)
    requires s.task.Some? && OnTrack(w, u, s, size) && a.ok && !TouchesVersion(s.task.value)
    requires !Receives(s.task.value) && !Inspects(s.task.value) && !Fails(s.task.value)
    ensures
      var (w', s') := Protection(w, u, s, s.task.value, a);
      w' == w && OnTrack(w, u, s', size)
  {}

  /** What holds before an effect looks at the objects and the catalogue alone. */
  lemma OnTrackElsewhere(w: World, w': World, u: string, s: Upload, size: nat)
    requires OnTrack(w, u, s, size) && w'.files == w.files && w'.objects == w.objects
    ensures OnTrack(w', u, s, size)
  {
    assert forall v :: InHistory(w', v) <==> InHistory(w, v);
  }

  lemma SmoothStep(w: World, u: string, a: Answer, size: nat)
    requires Inv(w) && u in w.uploads && OnTrack(w, u, w.uploads[u], size) && Smooth(w, u, a, size)
    ensures
      var w' := Step(w, u, a);
      Inv(w') && u in w'.uploads && w'.uploads[u].ownerID == w.uploads[u].ownerID && OnTrack(w', u, w'.uploads[u], size)
  {
    ActKeeps(w, u, a);
    EventAdvances(w, Act(u, a), u);
    var s := w.uploads[u];
    if s.task.Some? {
      var t := s.task.value;
      assert s.memory.Some?;
      hide OnTrack, Inv, Reception, Inspection, Failing, Protection;
      if Receives(t) || Inspects(t) || Fails(t) {
        ReceivedOnTrack(w, Step(w, u, a), u, s, a, size);
      } else {
        if TouchesVersion(t) { VersionOnTrack(w, u, s, a, size); } else { ProtectedOnTrack(w, u, s, a, size); }
        var (w', s') := Protection(w, u, s, t, a);
        OnTrackElsewhere(w', Put(w', u, s'), u, s', size);
      }
    }
  }

  lemma {:induction false} SmoothRun(w: World, u: string, answers: seq<Answer>, size: nat)
    requires Inv(w) && u in w.uploads && OnTrack(w, u, w.uploads[u], size) && AllSmooth(w, u, answers, size)
    ensures
      var w' := Acts(w, u, answers);
      Inv(w') && u in w'.uploads && w'.uploads[u].ownerID == w.uploads[u].ownerID && OnTrack(w', u, w'.uploads[u], size)
  {
    hide OnTrack, Inv, Step, Smooth;
    if answers != [] {
      var n := |answers| - 1;
      forall i | 0 <= i < n ensures Smooth(Acts(w, u, answers[..n][..i]), u, answers[..n][i], size) {
        assert answers[..n][..i] == answers[..i];
      }
      SmoothRun(w, u, answers[..n], size);
      SmoothStep(Acts(w, u, answers[..n]), u, answers[n], size);
    }
  }

  /** An admitted upload whose every effect succeeds ends as stored, for its readers and in
      its row, under the size that was received; its one version's object is in place and is
      what its listed file holds; and its plaintext is gone. */
  lemma SmoothStores(w: World, u: string, owner: string, answers: seq<Answer>, size: nat)
    requires Inv(w) && u !in w.uploads && |answers| >= 22
    requires AllSmooth(Next(w, Admit(u, owner)), u, answers, size)
    ensures
      var w' := Acts(Next(w, Admit(u, owner)), u, answers);
      && u in w'.uploads
      && var s := w'.uploads[u];
         && s.row == Some(Row(size, Stored)) && s.memory == s.row && s.task == None && !s.quarantined
         && s.metadata.Some? && s.metadata.value in w'.objects
         && exists f :: f in w'.files && FilesOf(w', u) == {f} &&
              w'.files[f] == CatalogFile(owner, u, s.metadata.value, s.metadata.value, {s.metadata.value}, true)
  {
    var w0 := Next(w, Admit(u, owner));
    AdmitKeeps(w, u, owner);
    AdmittedOnTrack(w0, u, owner, size);
    hide OnTrack, Inv, Next, AllSmooth, Acts;
    SmoothRun(w0, u, answers, size);
    TaskEnds(w0, u, answers);
    EndOnTrack(Acts(w0, u, answers), u, size);
  }

  lemma AdmittedOnTrack(w: World, u: string, owner: string, size: nat)
    ensures OnTrack(w, u, Admitted(owner), size)
  {}

  lemma EndOnTrack(w: World, u: string, size: nat)
    requires Inv(w) && u in w.uploads && w.uploads[u].task == None && OnTrack(w, u, w.uploads[u], size)
    ensures
      var s := w.uploads[u];
      && s.row == Some(Row(size, Stored)) && s.memory == s.row && !s.quarantined
      && s.metadata.Some? && s.metadata.value in w.objects
      && exists f :: f in w.files && FilesOf(w, u) == {f} &&
           w.files[f] == CatalogFile(s.ownerID, u, s.metadata.value, s.metadata.value, {s.metadata.value}, true)
  {
    var s := w.uploads[u];
    var f :| f in w.files &&
      w.files[f] == CatalogFile(s.ownerID, u, s.metadata.value, s.metadata.value, {s.metadata.value}, true);
    assert FilesOf(w, u) == {f};
  }

  // --- One effect refused ------------------------------------------------------

  predicate AllAnswered(answers: seq<Answer>) { forall i :: 0 <= i < |answers| ==> answers[i].ok }

  /** While reception is undone: the object goes, then the row, then what readers see. */
  predicate Undoing(from: Upload, s: Upload) {
    && s.metadata == from.metadata && s.ownerID == from.ownerID
    && match s.task
       case Some(CleanObject) => s.memory.Some?
       case Some(CleanRow) => s.memory.Some? && !s.quarantined
       case Some(CleanMemory) => s.memory.Some? && !s.quarantined && s.row == None
       case None => s.memory == None && !s.quarantined && s.row == None
       case _ => false
  }

  /** While a task fails: readers see it, then the row says it, then the plaintext goes. */
  predicate FailingOut(from: Upload, s: Upload) {
    && s.metadata == from.metadata && s.ownerID == from.ownerID && s.row.Some?
    && s.memory.Some? && from.memory.Some? && s.memory.value.size == from.memory.value.size
    && match s.task
       case Some(PersistVerdict(v)) => v == Failed
       case Some(PublishVerdict(v)) => v == Failed && s.row == Some(s.memory.value.(status := Failed))
       case Some(MarkFailed) => true
       case Some(PersistFailed) => s.memory.value.status == Failed
       case Some(RemovePlaintext) => s.memory.value.status == Failed && s.row == s.memory
       case None => s.memory.value.status == Failed && s.row == s.memory && !s.quarantined
       case _ => false
  }

  lemma EndingStep(from: Upload, s: Upload, a: Answer)
    requires s.task.Some? && a.ok && s.memory.Some?
    requires Undoing(from, s) || FailingOut(from, s)
    ensures Receives(s.task.value) || Inspects(s.task.value) || Fails(s.task.value)
    ensures Undoing(from, s) && Receives(s.task.value) ==> Undoing(from, Reception(s, s.task.value, a))
    ensures FailingOut(from, s) && Inspects(s.task.value) ==> FailingOut(from, Inspection(s, s.task.value, a))
    ensures FailingOut(from, s) && Fails(s.task.value) ==> FailingOut(from, Failing(s, s.task.value, a))
    ensures Undoing(from, s) ==> Receives(s.task.value)
    ensures FailingOut(from, s) ==> !Receives(s.task.value)
  {}

  lemma {:induction false} EndingRun(w: World, u: string, answers: seq<Answer>, from: Upload, undone: bool)
    requires u in w.uploads && AllAnswered(answers)
    requires if undone then Undoing(from, w.uploads[u]) else FailingOut(from, w.uploads[u])
    ensures
      var w' := Acts(w, u, answers);
      && u in w'.uploads && w'.files == w.files && w'.objects == w.objects
      && if undone then Undoing(from, w'.uploads[u]) else FailingOut(from, w'.uploads[u])
  {
    if answers != [] {
      var n := |answers| - 1;
      EndingRun(w, u, answers[..n], from, undone);
      var w1 := Acts(w, u, answers[..n]);
      if !Idle(w1, u) { EndingStep(from, w1.uploads[u], answers[n]); }
      hide Undoing, FailingOut, Reception, Inspection, Failing, Protection, Receives, Inspects, Fails;
    }
  }

  /** The effects that can be refused, other than the last ones of either ending. */
  predicate Refusable(t: Task) {
    || t.OpenObject? || t.Stream? || t.PersistReceived?
    || t.PersistInspecting? || t.Scan? || t.PersistVerdict?
    || t.PersistEncrypting? || t.OpenPlaintext? || t.FindMetadata? || t.WriteObject? || t.RegisterFile?
    || t.PersistStored?
  }

  lemma RefusedAlone(s: Upload, a: Answer)
    requires s.task.Some? && Refusable(s.task.value) && s.memory.Some? && s.row.Some? && !a.ok && !a.applied
    ensures Receives(s.task.value) ==> Undoing(s, Reception(s, s.task.value, a))
    ensures Inspects(s.task.value) ==> FailingOut(s, Inspection(s, s.task.value, a))
    ensures !Fails(s.task.value)
  {}

  lemma RefusedProtection(w: World, u: string, s: Upload, a: Answer)
    requires s.task.Some? && Refusable(s.task.value) && s.memory.Some? && s.row.Some? && !a.ok && !a.applied
    requires !Receives(s.task.value) && !Inspects(s.task.value)
    ensures
      var (w', s') := Protection(w, u, s, s.task.value, a);
      w' == w && FailingOut(s, s')
  {
    hide VersionUsed, Registrable, Register;
  }

  lemma RefusedStep(w: World, u: string, a: Answer)
    requires u in w.uploads && w.uploads[u].task.Some? && Refusable(w.uploads[u].task.value)
    requires w.uploads[u].memory.Some? && w.uploads[u].row.Some? && !a.ok && !a.applied
    ensures
      var s, w' := w.uploads[u], Step(w, u, a);
      && u in w'.uploads && w'.files == w.files && w'.objects == w.objects
      && if Receives(s.task.value) then Undoing(s, w'.uploads[u]) else FailingOut(s, w'.uploads[u])
  {
    var s := w.uploads[u];
    RefusedAlone(s, a);
    if !Receives(s.task.value) && !Inspects(s.task.value) { RefusedProtection(w, u, s, a); }
    hide Refusable, Undoing, FailingOut, Reception, Inspection, Failing, Protection;
  }

  /** From the first refused effect on, everything else being answered: an upload that was
      being received is undone, with nothing left of it; one that was being inspected or
      protected ends as failed, for its readers and in its row, without its plaintext, with
      the metadata and the files there were, and no other. */
  lemma RefusedEnds(w: World, u: string, a: Answer, answers: seq<Answer>)
    requires Inv(w) && u in w.uploads && w.uploads[u].task.Some? && Refusable(w.uploads[u].task.value)
    requires w.uploads[u].row.Some? && !a.ok && !a.applied && AllAnswered(answers) && |answers| >= 22
    ensures
      var s, w' := w.uploads[u], Acts(Step(w, u, a), u, answers);
      && s.memory.Some? && u in w'.uploads && w'.files == w.files && w'.objects == w.objects
      && var s' := w'.uploads[u];
         && s'.task == None && !s'.quarantined && s'.metadata == s.metadata
         && (s.task.value.OpenObject? || s.task.value.Stream? || s.task.value.PersistReceived? ==>
               s'.row == None && s'.memory == None)
         && (!s.task.value.OpenObject? && !s.task.value.Stream? && !s.task.value.PersistReceived? ==>
               s'.row == Some(Row(s.memory.value.size, Failed)) && s'.memory == s'.row)
  {
    var s := w.uploads[u];
    assert Sound(w, u, s);
    RefusedStep(w, u, a);
    ActKeeps(w, u, a);
    hide Step, Inv, Sound, Undoing, FailingOut;
    var undone := Receives(s.task.value);
    EndingRun(Step(w, u, a), u, answers, s, undone);
    TaskEnds(Step(w, u, a), u, answers);
    EndIs(s, Acts(Step(w, u, a), u, answers).uploads[u], undone);
  }

  lemma EndIs(from: Upload, s: Upload, undone: bool)
    requires s.task == None && if undone then Undoing(from, s) else FailingOut(from, s)
    ensures !s.quarantined && s.metadata == from.metadata
    ensures undone ==> s.row == None && s.memory == None
    ensures !undone ==> from.memory.Some? && s.row == Some(Row(from.memory.value.size, Failed)) && s.memory == s.row
  {}

  /** An empty body is undone like a refused one, and a commit that is refused takes its own
      object with it: the removal is its next effect. */
  lemma EmptyOrUncommittedEnds(w: World, u: string, a: Answer, answers: seq<Answer>)
    requires Inv(w) && u in w.uploads && w.uploads[u].task.Some? && w.uploads[u].row.Some?
    requires AllAnswered(answers) && |answers| >= 22
    ensures w.uploads[u].task == Some(Stream) && a.size == 0 ==>
              var w' := Acts(Step(w, u, a), u, answers);
              && u in w'.uploads && w'.uploads[u].task == None && w'.uploads[u].row == None
              && w'.uploads[u].memory == None && !w'.uploads[u].quarantined
    ensures w.uploads[u].task.value.CommitMetadata? && !a.ok && !a.applied ==>
              var v := w.uploads[u].task.value.version;
              var w' := Acts(Step(Step(w, u, a), u, a.(ok := true)), u, answers);
              && v in w.objects && w'.objects == w.objects - {v} && w'.files == w.files
              && u in w'.uploads && w'.uploads[u].task == None && w.uploads[u].memory.Some?
              && w'.uploads[u].row == Some(Row(w.uploads[u].memory.value.size, Failed))
              && w'.uploads[u].metadata == w.uploads[u].metadata && !w'.uploads[u].quarantined
  {
    var s := w.uploads[u];
    assert Sound(w, u, s);
    ActKeeps(w, u, a);
    hide Inv, Sound;
    if s.task == Some(Stream) && a.size == 0 {
      EmptyStep(w, u, a);
      hide Step, Undoing, FailingOut;
      EndingRun(Step(w, u, a), u, answers, s, true);
      TaskEnds(Step(w, u, a), u, answers);
      EndIs(s, Acts(Step(w, u, a), u, answers).uploads[u], true);
    }
    if s.task.value.CommitMetadata? && !a.ok && !a.applied {
      UncommittedStep(w, u, a);
      var w2 := Step(Step(w, u, a), u, a.(ok := true));
      ActKeeps(Step(w, u, a), u, a.(ok := true));
      hide Step, Undoing, FailingOut;
      EndingRun(w2, u, answers, s, false);
      TaskEnds(w2, u, answers);
      EndIs(s, Acts(w2, u, answers).uploads[u], false);
    }
  }

  lemma EmptyStep(w: World, u: string, a: Answer)
    requires u in w.uploads && w.uploads[u].task == Some(Stream) && w.uploads[u].memory.Some? && a.size == 0
    ensures u in Step(w, u, a).uploads && Undoing(w.uploads[u], Step(w, u, a).uploads[u])
  {}

  lemma UncommittedStep(w: World, u: string, a: Answer)
    requires u in w.uploads && w.uploads[u].task.Some? && w.uploads[u].task.value.CommitMetadata?
    requires w.uploads[u].memory.Some? && w.uploads[u].row.Some? && !a.ok && !a.applied
    ensures
      var s, w' := w.uploads[u], Step(Step(w, u, a), u, a.(ok := true));
      && u in w'.uploads && w'.files == w.files && w'.objects == w.objects - {s.task.value.version}
      && FailingOut(s, w'.uploads[u])
  {
    hide Reception, Inspection, Failing;
    var s := w.uploads[u];
    var v := s.task.value.version;
    var s1 := s.(task := Some(RemoveOwnObject(v, None)));
    assert Protection(w, u, s, s.task.value, a) == (w, s1);
    var w1 := Step(w, u, a);
    assert w1 == Put(w, u, s1);
    assert Protection(w1, u, s1, s1.task.value, a.(ok := true))
           == (w1.(objects := w1.objects - {v}), s1.(task := Some(MarkFailed)));
    hide Protection;
  }

  // --- What the row says -------------------------------------------------------

  /** The status that a persisting effect writes. */
  function Writes(t: Task): Option<Status> {
    match t
    case PersistReceived => Some(Quarantined)
    case PersistInspecting => Some(Inspecting)
    case PersistVerdict(verdict) => Some(verdict)
    case PersistEncrypting => Some(Encrypting)
    case PersistStored => Some(Stored)
    case PersistFailed => Some(Failed)
    case _ => None
  }

  /** The row that one effect leaves. */
  function RowAfter(s: Upload, a: Answer): Option<Row>
    requires s.task.Some? && s.memory.Some?
  {
    if !a.ok && !a.applied then s.row
    else if s.task.value.CleanRow? then None
    else if s.row.Some? && Writes(s.task.value).Some? then Some(Row(s.memory.value.size, Writes(s.task.value).value))
    else s.row
  }

  /** Whether the plaintext is there: it comes with the first effect, and goes with a removal
      that is answered. */
  predicate PlaintextAfter(s: Upload, a: Answer)
    requires s.task.Some?
  {
    if a.ok && s.task.value.OpenObject? then true
    else if a.ok && (s.task.value.CleanObject? || s.task.value.RemovePlaintext?) then false
    else s.quarantined
  }

  lemma RowAlone(s: Upload, a: Answer)
    requires NotStuck(s) && s.task.Some? && s.memory.Some?
    ensures Receives(s.task.value) ==>
              var s' := Reception(s, s.task.value, a);
              s'.row == RowAfter(s, a) && s'.quarantined == PlaintextAfter(s, a)
    ensures Inspects(s.task.value) ==>
              var s' := Inspection(s, s.task.value, a);
              s'.row == RowAfter(s, a) && s'.quarantined == PlaintextAfter(s, a)
    ensures Fails(s.task.value) ==>
              var s' := Failing(s, s.task.value, a);
              s'.row == RowAfter(s, a) && s'.quarantined == PlaintextAfter(s, a)
  {
    hide Placed;
  }

  lemma RowProtected(w: World, u: string, s: Upload, a: Answer)
    requires NotStuck(s) && s.task.Some? && s.memory.Some?
    requires !Receives(s.task.value) && !Inspects(s.task.value) && !Fails(s.task.value)
    ensures
      var s' := Protection(w, u, s, s.task.value, a).1;
      s'.row == RowAfter(s, a) && s'.quarantined == PlaintextAfter(s, a)
  {
    hide Placed, VersionUsed, Registrable, Register;
  }

  /** One effect changes the row only if it is a persisting one that takes effect, which
      writes the received size with that effect's own status, or the removal of the row; and
      a row that is gone is not written. The plaintext goes by an answered removal alone. */
  lemma RowIsWritten(w: World, u: string, a: Answer)
    requires Inv(w) && u in w.uploads && w.uploads[u].task.Some?
    ensures w.uploads[u].memory.Some? && u in Step(w, u, a).uploads
    ensures Step(w, u, a).uploads[u].row == RowAfter(w.uploads[u], a)
    ensures Step(w, u, a).uploads[u].quarantined == PlaintextAfter(w.uploads[u], a)
  {
    var s := w.uploads[u];
    assert Sound(w, u, s);
    assert NotStuck(s) && s.memory.Some?;
    hide Inv, Sound, NotStuck;
    RowAlone(s, a);
    if !Receives(s.task.value) && !Inspects(s.task.value) && !Fails(s.task.value) { RowProtected(w, u, s, a); }
    hide RowAfter, PlaintextAfter, Reception, Inspection, Failing, Protection, Receives, Inspects, Fails;
  }
}
