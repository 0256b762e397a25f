/** Upload ingestion with crashes: rows that survive, process memory that does not, and one
    task per upload that performs one effect at a time. Between any two effects the process
    may stop. */
module IngestModel {
  import opened Wrappers

  datatype Status = Quarantined | Inspecting | Accepted | Encrypting | Stored | Rejected | Failed

  predicate Terminal(s: Status) { s == Stored || s == Rejected || s == Failed }

  datatype Row = Row(size: nat, status: Status)

  /** A logical file: the version it was registered with, the one it points at now, all it
      ever had, and whether it is listed, that is, neither in the trash nor purged. */
  datatype CatalogFile = CatalogFile(
    ownerID: string, upload: string, first: string, current: string, versions: set<string>, listed: bool)

  /** What an upload's task does next. */
  datatype Task =
    | OpenObject | Stream | PersistReceived
    | CleanObject | CleanRow | CleanMemory
    | BeginInspection | PersistInspecting | Scan | PersistVerdict(verdict: Status) | PublishVerdict(verdict: Status)
    | BeginProtection | PersistEncrypting | OpenPlaintext | FindMetadata | WriteObject
    | CommitMetadata(version: string) | RemoveOwnObject(version: string, committed: Option<string>)
    | RegisterFile(version: string) | MarkStored | PersistStored
    | MarkFailed | PersistFailed | RemovePlaintext

  /** Whether the process looks after an upload: it does from its admission or from the
      start-up loop on; it does not between a crash and that loop, nor once a row has come back
      into memory with a repeated key. */
  datatype Standing = Attended | Unloaded | Returned

  /** Everything about one upload ID. The persisted row, the quarantine object and the
      committed metadata survive a crash; the record in memory and the task do not.
      `accepted` records whether an acceptance was ever persisted. */
  datatype Upload = Upload(
    ownerID: string, row: Option<Row>, quarantined: bool, metadata: Option<string>,
    memory: Option<Row>, task: Option<Task>, accepted: bool, standing: Standing := Attended)

  /** Ciphertext objects and the catalogue are shared. `written` records which upload each
      version was made for, `doubted` which commits took effect but reported an error. */
  datatype World = World(
    uploads: map<string, Upload>, objects: set<string>, files: map<string, CatalogFile>,
    written: map<string, string>, doubted: set<string>)

  /** How the environment answers one effect. A write may take effect and still report an
      error; one that reports success has taken effect. `removed` says whether a file that is
      removed in passing is gone. */
  datatype Answer = Answer(ok: bool, applied: bool, removed: bool, size: nat, verdict: Status, name: string)

  datatype Event =
    | Admit(upload: string, ownerID: string)
    | Retry(upload: string)
    | Act(upload: string, answer: Answer)
    | Crash
    | Recover(upload: string, answer: Answer)
    | RestoreVersion(file: string, version: string)
    | SetListed(file: string, listed: bool)

  // --- Effects on one upload -------------------------------------------------

  function Go(s: Upload, t: Task): Upload { s.(task := Some(t)) }

  function Done(s: Upload): Upload { s.(task := None) }

  function SetStatus(s: Upload, status: Status): Upload
    requires s.memory.Some?
  {
    s.(memory := Some(s.memory.value.(status := status)))
  }

  /** An update of the upload's row; it fails when there is no row. */
  function Update(s: Upload, row: Row, a: Answer): Upload {
    if s.row.Some? && (a.ok || a.applied)
    then s.(row := Some(row), accepted := s.accepted || row.status == Accepted)
    else s
  }

  predicate Updated(s: Upload, a: Answer) { a.ok && s.row.Some? }

  /** Persist this row, then go on to one task or the other. */
  function PersistThen(s: Upload, row: Row, a: Answer, success: Task, failure: Task): Upload {
    Go(Update(s, row, a), if Updated(s, a) then success else failure)
  }

  predicate Receives(t: Task) {
    t.OpenObject? || t.Stream? || t.PersistReceived? || t.CleanObject? || t.CleanRow? || t.CleanMemory?
  }

  function Reception(s: Upload, t: Task, a: Answer): Upload
    requires s.memory.Some?
  {
    match t
    case OpenObject => if a.ok then Go(s.(quarantined := true), Stream) else Go(s, CleanObject)
    case Stream =>
      if a.ok && a.size > 0 then Go(s.(memory := Some(s.memory.value.(size := a.size))), PersistReceived)
      else Go(s, CleanObject)
    case PersistReceived => PersistThen(s, s.memory.value, a, BeginInspection, CleanObject)
    case CleanObject => Go(if a.ok then s.(quarantined := false) else s, CleanRow)
    case CleanRow => Go(if a.ok || a.applied then s.(row := None) else s, CleanMemory)
    case CleanMemory => Done(s.(memory := None))
    case _ => s
  }

  predicate Inspects(t: Task) {
    t.BeginInspection? || t.PersistInspecting? || t.Scan? || t.PersistVerdict? || t.PublishVerdict?
  }

  function Inspection(s: Upload, t: Task, a: Answer): Upload
    requires s.memory.Some?
  {
    match t
    case BeginInspection => Go(SetStatus(s, Inspecting), PersistInspecting)
    case PersistInspecting => PersistThen(s, s.memory.value, a, Scan, MarkFailed)
    case Scan => Go(s, PersistVerdict(if !a.ok then Failed else if a.verdict == Accepted then Accepted else Rejected))
    case PersistVerdict(v) => PersistThen(s, s.memory.value.(status := v), a, PublishVerdict(v), MarkFailed)
    case PublishVerdict(v) => Go(SetStatus(s, v), if v == Accepted then BeginProtection else RemovePlaintext)
    case _ => s
  }

  predicate Fails(t: Task) { t.MarkFailed? || t.PersistFailed? || t.RemovePlaintext? }

  /** Both failure paths: mark, try to persist, remove the plaintext whatever came of it. */
  function Failing(s: Upload, t: Task, a: Answer): Upload
    requires s.memory.Some?
  {
    match t
    case MarkFailed => Go(SetStatus(s, Failed), PersistFailed)
    case PersistFailed => PersistThen(s, s.memory.value, a, RemovePlaintext, RemovePlaintext)
    case RemovePlaintext => Done(if a.ok then s.(quarantined := false) else s)
    case _ => s
  }

  // --- Protection: effects on the shared store -------------------------------

  /** A version ID already in use: fresh random IDs never are. */
  predicate VersionUsed(w: World, v: string) { v in w.written || v in w.objects }

  predicate Recognises(w: World, f: string, ownerID: string, v: string) {
    f in w.files && w.files[f].ownerID == ownerID && w.files[f].current == v
  }

  /** Some file has, or once had, the version; the catalogue takes each version once. */
  predicate InHistory(w: World, v: string) { exists f :: f in w.files && v in w.files[f].versions }

  /** Whether registration reports success: the file recognised by its current version must
      be listed; if there is none, the version must be new to the catalogue. */
  predicate Registrable(w: World, ownerID: string, v: string) {
    if exists f :: f in w.files && Recognises(w, f, ownerID, v)
    then exists f :: f in w.files && Recognises(w, f, ownerID, v) && w.files[f].listed
    else !InHistory(w, v)
  }

  /** What registration does: it adds a file for a version that is new to the catalogue. */
  function Register(w: World, u: string, owner: string, v: string, newFile: string): World {
    if newFile in w.files || InHistory(w, v) || exists f :: f in w.files && Recognises(w, f, owner, v) then w
    else w.(files := w.files[newFile := CatalogFile(owner, u, v, v, {v}, true)])
  }

  function Put(w: World, u: string, s: Upload): World { w.(uploads := w.uploads[u := s]) }

  /** What the effect does to the shared state, and the upload afterwards. */
  function Protection(w: World, u: string, s: Upload, t: Task, a: Answer): (World, Upload)
    requires s.memory.Some?
  {
    match t
    case BeginProtection =>
      if s.memory.value.status != Accepted && s.memory.value.status != Encrypting then (w, Done(s))
      else (w, Go(SetStatus(s, Encrypting), PersistEncrypting))
    case PersistEncrypting => (w, PersistThen(s, s.memory.value, a, OpenPlaintext, MarkFailed))
    case OpenPlaintext => (w, Go(s, if a.ok && s.quarantined then FindMetadata else MarkFailed))
    case FindMetadata =>
      (w, Go(s, if !a.ok then MarkFailed else if s.metadata.Some? then RegisterFile(s.metadata.value) else WriteObject))
    case WriteObject =>
      if !a.ok || VersionUsed(w, a.name) then (w, Go(s, MarkFailed))
      else (w.(objects := w.objects + {a.name}, written := w.written[a.name := u]), Go(s, CommitMetadata(a.name)))
    case CommitMetadata(v) =>
      if s.metadata.Some? then (w, Go(s, RemoveOwnObject(v, if a.ok then s.metadata else None)))
      else if a.ok then (w, Go(s.(metadata := Some(v)), RegisterFile(v)))
      else if a.applied then (w.(doubted := w.doubted + {v}), Go(s.(metadata := Some(v)), RemoveOwnObject(v, None)))
      else (w, Go(s, RemoveOwnObject(v, None)))
    case RemoveOwnObject(v, committed) =>
      (if a.ok then w.(objects := w.objects - {v}) else w,
       Go(s, if committed.Some? then RegisterFile(committed.value) else MarkFailed))
    case RegisterFile(v) =>
      (if a.ok || a.applied then Register(w, u, s.ownerID, v, a.name) else w,
       Go(s, if a.ok && a.name !in w.files && Registrable(w, s.ownerID, v) then MarkStored else MarkFailed))
    case MarkStored => (w, Go(SetStatus(s, Stored), PersistStored))
    case PersistStored => (w, PersistThen(s, s.memory.value, a, RemovePlaintext, MarkFailed))
    case _ => (w, s)
  }

  function Step(w: World, u: string, a: Answer): World {
    if u !in w.uploads || w.uploads[u].task == None || w.uploads[u].memory == None then w
    else
      var s := w.uploads[u];
      var t := s.task.value;
      if Receives(t) then Put(w, u, Reception(s, t, a))
      else if Inspects(t) then Put(w, u, Inspection(s, t, a))
      else if Fails(t) then Put(w, u, Failing(s, t, a))
      else
        var (w', s') := Protection(w, u, s, t, a);
        Put(w', u, s')
  }

  // --- Crashes and recovery --------------------------------------------------

  function Forgotten(s: Upload): Upload { s.(memory := None, task := None, standing := Unloaded) }

  function Loaded(s: Upload, row: Row): Upload { s.(memory := Some(row), standing := Attended) }

  /** One row of the start-up loop. When persisting fails, start-up stops there. */
  function Recovered(s: Upload, a: Answer): Upload {
    if s.row == None || !s.standing.Unloaded? then s
    else
      var row := s.row.value;
      var failed := row.(status := Failed);
      if row.status == Quarantined && row.size == 0 then
        var s' := Update(s, failed, a);
        if !Updated(s, a) then s' else Loaded(s', failed).(quarantined := s'.quarantined && !a.removed)
      else if Terminal(row.status) then Loaded(s, row)
      else if !s.quarantined then
        var s' := Update(s, failed, a);
        if !Updated(s, a) then s' else Loaded(s', failed)
      else
        Go(Loaded(s, row), if row.status == Quarantined || row.status == Inspecting then BeginInspection
           else BeginProtection)
  }

  function Admitted(owner: string): Upload {
    Upload(owner, Some(Row(0, Quarantined)), false, None, Some(Row(0, Quarantined)), Some(OpenObject), false)
  }

  /** Memory has dropped the upload, and the repository still has its row. */
  predicate Dropped(s: Upload) { s.row.Some? && s.memory == None && s.task == None && s.standing.Attended? }

  /** Its owner repeats the key: the row comes back into memory as it is, and nobody works on
      it. */
  function TakenBack(s: Upload): Upload {
    if Dropped(s) then s.(memory := s.row, standing := Returned) else s
  }

  function RestoreFile(w: World, f: string, v: string): World {
    if f !in w.files || !w.files[f].listed || VersionUsed(w, v) then w
    else w.(files := w.files[f := w.files[f].(current := v, versions := w.files[f].versions + {v})],
            objects := w.objects + {v}, written := w.written[v := w.files[f].upload])
  }

  function ListFile(w: World, f: string, listed: bool): World {
    if f !in w.files then w else w.(files := w.files[f := w.files[f].(listed := listed)])
  }

  function Next(w: World, e: Event): World {
    match e
    case Admit(u, owner) => if u in w.uploads then w else Put(w, u, Admitted(owner))
    case Retry(u) => if u in w.uploads then Put(w, u, TakenBack(w.uploads[u])) else w
    case Act(u, a) => Step(w, u, a)
    case Crash => w.(uploads := map u | u in w.uploads :: Forgotten(w.uploads[u]))
    case Recover(u, a) => if u in w.uploads then Put(w, u, Recovered(w.uploads[u], a)) else w
    case RestoreVersion(f, v) => RestoreFile(w, f, v)
    case SetListed(f, listed) => ListFile(w, f, listed)
  }

  function EmptyWorld(): World { World(map[], {}, map[], map[], {}) }

  function Run(events: seq<Event>): World {
    if events == [] then EmptyWorld() else Next(Run(events[..|events| - 1]), events[|events| - 1])
  }
}
