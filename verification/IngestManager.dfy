/** The start-up loop: it goes over the persisted rows and puts every unfinished upload back
    to work, or fails it when its bytes are gone. */
module IngestManager {
  import opened Wrappers
  import opened IngestModel
  import opened IngestSafety

  class Manager {
    var uploads: map<string, Upload>
    var objects: set<string>
    var files: map<string, CatalogFile>
    var written: map<string, string>
    var doubted: set<string>

    ghost function State(): World
      reads this
    {
      World(uploads, objects, files, written, doubted)
    }

    /** Persists a row; the answer decides whether it took and what was reported. */
    method Persist(u: string, row: Row, a: Answer) returns (ok: bool)
      requires u in uploads
      modifies this`uploads
      ensures uploads == old(uploads)[u := Update(old(uploads)[u], row, a)]
      ensures ok == Updated(old(uploads)[u], a)
    {
      var s := uploads[u];
      if s.row == None { uploads := uploads[u := s]; return false; }
      if a.ok || a.applied {
        uploads := uploads[u := s.(row := Some(row), accepted := s.accepted || row.status == Accepted)];
      } else {
        uploads := uploads[u := s];
      }
      return a.ok;
    }

    /** One row of the loop. */
    method RecoverOne(u: string, a: Answer) returns (ok: bool)
      requires u in uploads && uploads[u].row.Some? && uploads[u].memory == None && uploads[u].task == None
      requires uploads[u].standing.Unloaded?
      modifies this`uploads
      ensures uploads == old(uploads)[u := Recovered(old(uploads)[u], a)]
      ensures ok ==>
                && uploads[u].memory.Some?
                && (!Terminal(uploads[u].memory.value.status) ==> uploads[u].task.Some? && uploads[u].quarantined)
      ensures
        var s, row, s' := old(uploads)[u], old(uploads)[u].row.value, uploads[u];
        var ended := row.status == Stored || row.status == Rejected || row.status == Failed;
        var empty := row.status == Quarantined && row.size == 0;
        var lost := !ended && !s.quarantined;
        && s'.ownerID == s.ownerID && s'.metadata == s.metadata
        && (if empty || lost then ok == a.ok else ok)
        && (empty || lost ==> s'.row == if a.ok || a.applied then Some(Row(row.size, Failed)) else s.row)
        && (!empty && !lost ==> s'.row == s.row)
        && (ok ==>
              && s'.memory == s'.row
              && s'.quarantined == (s.quarantined && !(empty && a.removed))
              && s'.task == if empty || lost || ended then None
                            else if row.status == Quarantined || row.status == Inspecting then Some(BeginInspection)
                            else Some(BeginProtection))
    {
      var row := uploads[u].row.value;
      var failed := row.(status := Failed);
      if row.status == Quarantined && row.size == 0 {
        ok := Persist(u, failed, a);
        if ok {
          uploads := uploads[u := Loaded(uploads[u], failed).(quarantined := uploads[u].quarantined && !a.removed)];
        }
        return;
      }
      if !Terminal(row.status) && !uploads[u].quarantined {
        ok := Persist(u, failed, a);
        if ok {
          uploads := uploads[u := Loaded(uploads[u], failed)];
        }
        return;
      }
      uploads := uploads[u := Loaded(uploads[u], row)];
      if row.status == Quarantined || row.status == Inspecting {
        uploads := uploads[u := Go(uploads[u], BeginInspection)];
      } else if row.status == Accepted || row.status == Encrypting {
        uploads := uploads[u := Go(uploads[u], BeginProtection)];
      }
      return true;
    }

    /** Start-up after a crash. Whatever it is answered, the invariant of ingestion is kept;
        and when it gets through, every persisted upload is in memory, and each that is not
        finished has its bytes and a task. */
    method Restart(answers: map<string, Answer>) returns (started: bool)
      requires Inv(State()) && uploads.Keys <= answers.Keys
      requires forall u :: u in uploads ==> uploads[u].standing.Unloaded?
      modifies this`uploads
      ensures Inv(State()) && uploads.Keys == old(uploads).Keys
      ensures forall u :: u in uploads ==>
                uploads[u] == old(uploads)[u] || uploads[u] == Recovered(old(uploads)[u], answers[u])
      ensures started ==> forall u :: u in uploads ==> uploads[u] == Recovered(old(uploads)[u], answers[u])
      ensures started ==> forall u :: u in uploads && old(uploads)[u].row.Some? ==>
                && uploads[u].memory.Some?
                && (!Terminal(uploads[u].memory.value.status) ==> uploads[u].task.Some? && uploads[u].quarantined)
    {
      hide Inv, Recovered, Terminal;
      var rest := uploads.Keys;
      while rest != {}
        invariant rest <= uploads.Keys == old(uploads).Keys && Inv(State())
        invariant forall u :: u in rest ==> uploads[u] == old(uploads)[u]
        invariant forall u :: u in uploads && u !in rest ==>
                    && uploads[u] == Recovered(old(uploads)[u], answers[u])
                    && (old(uploads)[u].row.Some? ==>
                          && uploads[u].memory.Some?
                          && (!Terminal(uploads[u].memory.value.status) ==>
                              uploads[u].task.Some? && uploads[u].quarantined))
        decreases |rest|
      {
        var u :| u in rest;
        rest := rest - {u};
        NotLoaded(State(), u);
        RecoverKeeps(State(), u, answers[u]);
        if uploads[u].row.Some? {
          var ok := RecoverOne(u, answers[u]);
          if !ok { return false; }
        } else {
          RecoveredNothing(uploads[u], answers[u]);
        }
      }
      return true;
    }
  }

  lemma NotLoaded(w: World, u: string)
    requires Inv(w) && u in w.uploads && w.uploads[u].standing.Unloaded?
    ensures w.uploads[u].memory == None && w.uploads[u].task == None
  {
    assert Sound(w, u, w.uploads[u]);
  }

  lemma RecoveredNothing(s: Upload, a: Answer)
    requires s.row == None
    ensures Recovered(s, a) == s
  {}
}
