/** The in-memory repository as written keeps each file's row twice, and a restore updates
    only one of them. This is what that does to the file's current version; everywhere else
    the model keeps one row per file, as the SQL repository does. */
module StoreTwoCopies {
  import opened Wrappers

  datatype Logical = Logical(ownerID: string, currentVersionID: string, updatedAt: Time)

  datatype Lifecycle = Lifecycle(row: Logical, deletedAt: Option<Time>)

  datatype Rows = Rows(files: map<string, Logical>, lifecycle: map<string, Lifecycle>)

  datatype Action =
    | Register(file: string, owner: string, version: string, at: Time)
    | Restore(file: string, version: string, at: Time)
    | Trash(file: string, at: Time)
    | Untrash(file: string, at: Time)

  function Do(s: Rows, a: Action): Rows {
    match a
    case Register(f, o, v, t) =>
      if f in s.files || f in s.lifecycle then s
      else Rows(s.files[f := Logical(o, v, t)], s.lifecycle[f := Lifecycle(Logical(o, v, t), None)])
    case Restore(f, v, t) =>
      if f !in s.files then s
      else s.(files := s.files[f := s.files[f].(currentVersionID := v, updatedAt := t)])
    case Trash(f, t) =>
      if f !in s.lifecycle || s.lifecycle[f].deletedAt.Some? then s
      else
        var l := Lifecycle(s.lifecycle[f].row.(updatedAt := t), Some(t));
        Rows(s.files[f := l.row], s.lifecycle[f := l])
    case Untrash(f, t) =>
      if f !in s.lifecycle || s.lifecycle[f].deletedAt == None then s
      else
        var l := Lifecycle(s.lifecycle[f].row.(updatedAt := t), None);
        Rows(s.files[f := l.row], s.lifecycle[f := l])
  }

  function DoAll(actions: seq<Action>): Rows {
    if actions == [] then Rows(map[], map[])
    else Do(DoAll(actions[..|actions| - 1]), actions[|actions| - 1])
  }

  /** The version named by the file's registration, and by its latest restore. */
  function Registered(actions: seq<Action>, f: string): Option<string> {
    if actions == [] then None
    else
      var earlier := Registered(actions[..|actions| - 1], f);
      var a := actions[|actions| - 1];
      if earlier == None && a.Register? && a.file == f then Some(a.version) else earlier
  }

  function Pointed(actions: seq<Action>, f: string): Option<string> {
    if actions == [] then None
    else
      var earlier := Pointed(actions[..|actions| - 1], f);
      var a := actions[|actions| - 1];
      if earlier == None && a.Register? && a.file == f then Some(a.version)
      else if earlier.Some? && a.Restore? && a.file == f then Some(a.version)
      else earlier
  }

  /** The second copy never learns of a restore: it names the registered version for ever. */
  lemma {:induction false} SecondCopyIsStale(actions: seq<Action>, f: string)
    ensures
      var s := DoAll(actions);
      && (f in s.files) == (f in s.lifecycle) == Registered(actions, f).Some? == Pointed(actions, f).Some?
      && (f in s.lifecycle ==> Registered(actions, f) == Some(s.lifecycle[f].row.currentVersionID))
  {
    if actions != [] { SecondCopyIsStale(actions[..|actions| - 1], f); }
  }

  /** So a move to the trash, or back, makes the registered version current again. Nothing is
      lost exactly when that is the current version already. */
  lemma TrashKeepsCurrentIff(actions: seq<Action>, f: string, a: Action)
    requires (a.Trash? || a.Untrash?) && a.file == f && f in DoAll(actions).files
    requires Do(DoAll(actions), a) != DoAll(actions)
    ensures f in Do(DoAll(actions), a).files
    ensures Do(DoAll(actions), a).files[f].currentVersionID == DoAll(actions).files[f].currentVersionID
       <==> Registered(actions, f) == Some(DoAll(actions).files[f].currentVersionID)
  {
    SecondCopyIsStale(actions, f);
  }

  /** A trace: after a restore to v2, trashing and untrashing the file lands on v1 again. */
  lemma RestoreIsLost()
    ensures
      var actions := [Register("f1", "ann", "v1", 1), Restore("f1", "v2", 2), Trash("f1", 3), Untrash("f1", 4)];
      && "f1" in DoAll(actions).files && DoAll(actions).files["f1"].currentVersionID == "v1"
      && Pointed(actions, "f1") == Some("v2")
  {
    var a1 := [Register("f1", "ann", "v1", 1)];
    var a2 := a1 + [Restore("f1", "v2", 2)];
    var a3 := a2 + [Trash("f1", 3)];
    var a4 := a3 + [Untrash("f1", 4)];
    assert a4 == [Register("f1", "ann", "v1", 1), Restore("f1", "v2", 2), Trash("f1", 3), Untrash("f1", 4)];
    assert a1[..0] == [] && a2[..1] == a1 && a3[..2] == a2 && a4[..3] == a3;
    assert Pointed(a1, "f1") == Some("v1") && Pointed(a2, "f1") == Some("v2") && Pointed(a3, "f1") == Some("v2");
    assert DoAll(a1).files["f1"].currentVersionID == "v1" && DoAll(a2).lifecycle["f1"].row.currentVersionID == "v1";
    assert DoAll(a3).lifecycle["f1"].deletedAt == Some(3);
  }
}
