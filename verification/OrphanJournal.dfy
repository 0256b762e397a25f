/** The journal and the storage directory in place: scanning for candidates, authorizing,
    resuming and completing. */
module OrphanJournal {
  import opened Wrappers
  import opened Orphan

  datatype Candidate = Candidate(token: Token, eligible: bool)

  class Journal {
    var reconciliations: map<string, Operation>

    constructor ()
      ensures reconciliations == map[]
    {
      reconciliations := map[];
    }

    /** One operation per token: a second request finds the first one's operation. */
    method Authorize(id: string, token: Token, now: Time) returns (found: string, created: bool)
      requires id !in reconciliations
      modifies this
      ensures reconciliations == AuthorizeIn(old(reconciliations), id, token, now)
      ensures found in reconciliations && reconciliations[found].token == token
      ensures created == !HasToken(old(reconciliations), token)
      ensures created <==> forall k :: k in old(reconciliations) ==> old(reconciliations)[k].token != token
      ensures reconciliations == if created
                                 then old(reconciliations)[id := Operation(token, now, Authorized,
                                                                           "administrator_reconciliation")]
                                 else old(reconciliations)
      ensures created ==> found == id
    {
      var rest := reconciliations.Keys;
      while rest != {}
        invariant rest <= reconciliations.Keys
        invariant forall k :: k in reconciliations && k !in rest ==> reconciliations[k].token != token
        decreases |rest|
      {
        var k :| k in rest;
        if reconciliations[k].token == token { return k, false; }
        rest := rest - {k};
      }
      reconciliations := reconciliations[id := Operation(token, now, Authorized, "administrator_reconciliation")];
      return id, true;
    }

    method Complete(id: string, o: Outcome) returns (updated: bool)
      modifies this
      ensures reconciliations == CompleteIn(old(reconciliations), id, o)
      ensures updated == Completes(old(reconciliations), id)
      ensures updated <==> id in old(reconciliations) && old(reconciliations)[id].status == Authorized
      ensures reconciliations == if updated
                                 then old(reconciliations)[id := old(reconciliations)[id].(status := o.status,
                                                                                           reason := o.reason)]
                                 else old(reconciliations)
    {
      if id !in reconciliations || reconciliations[id].status != Authorized { return false; }
      reconciliations := reconciliations[id := reconciliations[id].(status := o.status, reason := o.reason)];
      return true;
    }
  }

  /** Different objects, the oldest first. */
  ghost predicate OldestFirst(found: seq<Candidate>) {
    forall i, j :: 0 <= i < j < |found| ==>
      found[i].token.place != found[j].token.place && found[i].token.modifiedAt <= found[j].token.modifiedAt
  }

  lemma OldestInsert(found: seq<Candidate>, k: nat, c: Candidate)
    requires OldestFirst(found) && k <= |found| && forall i :: 0 <= i < |found| ==>
             found[i].token.place != c.token.place
    requires forall i :: k <= i < |found| ==> c.token.modifiedAt < found[i].token.modifiedAt
    requires k > 0 ==> found[k - 1].token.modifiedAt <= c.token.modifiedAt
    ensures OldestFirst(found[..k] + [c] + found[k..])
  {
    var more := found[..k] + [c] + found[k..];
    forall i | 0 <= i < |more| ensures more[i] == if i < k then found[i] else if i == k then c else found[i - 1] {}
  }

  /** One step of the sort: behind everything that is no younger. */
  method Insert(found: seq<Candidate>, c: Candidate) returns (more: seq<Candidate>)
    requires OldestFirst(found) && forall x :: x in found ==> x.token.place != c.token.place
    ensures OldestFirst(more)
    ensures forall x :: x in more <==> x in found || x == c
  {
    var k := |found|;
    while k > 0 && found[k - 1].token.modifiedAt > c.token.modifiedAt
      invariant 0 <= k <= |found|
      invariant forall i :: k <= i < |found| ==> c.token.modifiedAt < found[i].token.modifiedAt
    {
      k := k - 1;
    }
    more := found[..k] + [c] + found[k..];
    forall i | 0 <= i < |found| ensures found[i] in found {}
    OldestInsert(found, k, c);
    hide OldestFirst;
    assert found == found[..k] + found[k..];
  }

  class Directory {
    var objects: map<Place, Object>

    ghost predicate Lists(zone: string, tracked: set<Place>, minimumAge: Time, now: Time, x: Candidate)
      reads this
    {
      var p := x.token.place;
      && p in objects && p.zone == zone && p !in tracked && objects[p].regular
      && x == Candidate(Token(p, objects[p].size, objects[p].modifiedAt), objects[p].modifiedAt <= now - minimumAge)
    }

    /** Everything in the zone that is a regular file and untracked, once, the oldest first;
        eligible when it is at least as old as the safety window. */
    method List(zone: string, tracked: set<Place>, minimumAge: Time, now: Time) returns (found: seq<Candidate>)
      ensures OldestFirst(found)
      ensures forall x :: x in found <==> Lists(zone, tracked, minimumAge, now, x)
    {
      found := [];
      var rest := objects.Keys;
      while rest != {}
        invariant rest <= objects.Keys && OldestFirst(found)
        invariant forall x :: x in found <==> Lists(zone, tracked, minimumAge, now, x) && x.token.place !in rest
        decreases |rest|
      {
        hide OldestFirst;
        var p :| p in rest;
        if p.zone == zone && p !in tracked && objects[p].regular {
          found := Insert(found, Candidate(Token(p, objects[p].size, objects[p].modifiedAt),
                                           objects[p].modifiedAt <= now - minimumAge));
        }
        rest := rest - {p};
      }
    }

    /** Ends one operation on the directory itself. */
    method ResumeOperation(t: Token, tracked: set<Place>) returns (o: Outcome)
      modifies this
      ensures
        var w := World(old(objects), tracked, map[], map[], map[]);
        o == Found(w, t) && objects == if Removes(w, t) then old(objects) - {t.place} else old(objects)
      ensures
        var named := t.place.name != "" && t.place.name != "." && t.place.name != ".." && '/' !in t.place.name;
        var there := t.place in old(objects);
        var same := there && old(objects)[t.place].regular && old(objects)[t.place].size == t.size &&
                    old(objects)[t.place].modifiedAt == t.modifiedAt;
        && o == (if !named then Outcome(Failed, "invalid_storage_identity")
                 else if t.place in tracked then Outcome(Failed, "metadata_attached")
                 else if !there then Outcome(Completed, "object_absent_after_authorization")
                 else if !same then Outcome(Failed, "revalidation_failed")
                 else Outcome(Completed, "untracked_object_removed"))
        && objects == if named && t.place !in tracked && same then old(objects) - {t.place} else old(objects)
    {
      if !ValidName(t.place.name) { return Outcome(Failed, "invalid_storage_identity"); }
      if t.place in tracked { return Outcome(Failed, "metadata_attached"); }
      if t.place !in objects { return Outcome(Completed, "object_absent_after_authorization"); }
      var info := objects[t.place];
      if !info.regular || info.size != t.size || info.modifiedAt != t.modifiedAt {
        return Outcome(Failed, "revalidation_failed");
      }
      objects := objects - {t.place};
      return Outcome(Completed, "untracked_object_removed");
    }
  }
}
