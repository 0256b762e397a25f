/** Who may read what: grants are unambiguous, listings agree with the authorization rule,
    and a move to the trash ends all shared access. */
module StoreAccess {
  import opened Wrappers
  import opened Envelope
  import opened StoreModel
  import opened StoreInvariant
  import opened StoreSteps
  import opened StoreHistory

  // --- Grants ----------------------------------------------------------------

  /** The search through the grants, in whatever order, can only ever find one. */
  lemma OneGrantDecides(cfg: Config, w: World, f: string, who: string, a: string, b: string,
                        capability: Permission, capability': Permission, now: Time, now': Time)
    requires Inv(cfg, w) && a in w.repo.grants && b in w.repo.grants
    requires Allows(w.repo.grants[a], f, who, capability, now) && Allows(w.repo.grants[b], f, who, capability', now')
    ensures a == b
  {
    hide EntriesOK, CleaningOK, Readable, RestoresFaithful, Lineage, Aimed, HistoriesOK, LifecycleOK;
  }

  /** The grants a recipient's listing is made from. */
  function SharedWith(r: Repo, who: string, now: Time): set<string> {
    set id | id in r.grants && r.grants[id].fileID in r.files && r.files[r.grants[id].fileID].Active()
             && r.grants[id].recipientID == who && r.grants[id].revokedAt == None
             && (r.grants[id].expiresAt == None || After(r.grants[id].expiresAt, now))
  }

  /** The listing shows exactly the files that the authorization rule lets this recipient
      read as a recipient, each through one grant, the one that rule finds. */
  lemma ListingAgrees(cfg: Config, w: World, who: string, f: string, now: Time)
    requires Inv(cfg, w)
    ensures (exists id :: id in SharedWith(w.repo, who, now) && w.repo.grants[id].fileID == f)
       <==> Authorized(w.repo, who, f, Read, now) && w.repo.files[f].ownerID != who
    ensures forall a, b | a in SharedWith(w.repo, who, now) && b in SharedWith(w.repo, who, now) ::
              w.repo.grants[a].fileID == w.repo.grants[b].fileID ==> a == b
    ensures forall a, b | a in SharedWith(w.repo, who, now) && b in w.repo.grants && w.repo.grants[a].fileID == f ::
              Allows(w.repo.grants[b], f, who, Read, now) ==> w.repo.grants[a].permission == w.repo.grants[b].permission
  {
    hide EntriesOK, CleaningOK, Readable, RestoresFaithful, Lineage, Aimed, HistoriesOK, LifecycleOK;
    var r := w.repo;
    if Authorized(r, who, f, Read, now) && r.files[f].ownerID != who {
      var id :| id in r.grants && Allows(r.grants[id], f, who, Read, now);
      assert id in SharedWith(r, who, now);
    }
  }

  /** Download permission implies read: whoever may download may read, never less. */
  lemma DownloadImpliesRead(r: Repo, who: string, f: string, now: Time)
    requires Authorized(r, who, f, Download, now)
    ensures Authorized(r, who, f, Read, now)
  {
    if r.files[f].ownerID != who {
      var id :| id in r.grants && Allows(r.grants[id], f, who, Download, now);
      assert Allows(r.grants[id], f, who, Read, now);
    }
  }

  // --- Access after the trash ------------------------------------------------

  ghost predicate HasGrant(r: Repo, f: string, who: string) {
    exists id :: id in r.grants && Unrevoked(r, id, f, who)
  }

  lemma AccessNeedsGrant(r: Repo, who: string, f: string, capability: Permission, now: Time)
    requires Authorized(r, who, f, capability, now) && r.files[f].ownerID != who
    ensures HasGrant(r, f, who)
  {
    var id :| id in r.grants && Allows(r.grants[id], f, who, capability, now);
    assert Unrevoked(r, id, f, who);
  }

  lemma GrantsOtherwiseStay(cfg: Config, w: World, e: Event)
    requires !e.Share? && !e.Unshare? && !e.Trash? && !e.PurgeFile?
    ensures Next(cfg, w, e).repo.grants == w.repo.grants
  {
    hide CheckRequest, Open, Finds, FreshVersion, Tracked, Wrap, NewMetadata, Live, RewrapMatches, Unwrap,
         WrappingIdentity, Recognised, Catalogued, RestoreGuard, HasOperation;
  }

  lemma RevokingGrantsNone(grants: map<string, Grant>, g: string, now: Time, r: Repo, r': Repo, f: string, who: string)
    requires r.grants == grants && r'.grants == RevokeAll(grants, g, now) && HasGrant(r', f, who)
    ensures HasGrant(r, f, who)
  {
    var id :| id in r'.grants && Unrevoked(r', id, f, who);
    assert Unrevoked(r, id, f, who);
  }

  /** Only sharing the file with that recipient, while it is active, gives a new grant. */
  lemma StepGrants(cfg: Config, w: World, e: Event, f: string, who: string)
    requires HasGrant(Next(cfg, w, e).repo, f, who) && !HasGrant(w.repo, f, who)
    ensures e.Share? && e.file == f && e.recipient == who && MayGrant(w.repo, e.owner, f, who)
  {
    var r, r' := w.repo, Next(cfg, w, e).repo;
    if e.Trash? || e.PurgeFile? {
      hide HasGrant, RevokeAll, Erased, ErasedObjects, PurgeGuard, TrashGuard, Destroy;
      if r'.grants != r.grants {
        RevokingGrantsNone(r.grants, if e.Trash? then e.file else e.op.file, e.now, r, r', f, who);
      }
      else { SameGrants(r, r', f, who); }
    } else if e.Share? {
      ShareGrants(r, e, f, who);
    } else if e.Unshare? {
      hide HasGrant;
      UnshareGrantsNone(r, e, f, who);
    } else {
      hide Next, HasGrant;
      GrantsOtherwiseStay(cfg, w, e);
      SameGrants(r, r', f, who);
    }
  }

  lemma UnshareGrantsNone(r: Repo, e: Event, f: string, who: string)
    requires e.Unshare? && HasGrant(RevokeGrant(r, e.owner, e.file, e.grantID, e.now), f, who)
    ensures HasGrant(r, f, who)
  {
    var r' := RevokeGrant(r, e.owner, e.file, e.grantID, e.now);
    var id :| id in r'.grants && Unrevoked(r', id, f, who);
    assert Unrevoked(r, id, f, who);
  }

  lemma ShareGrants(r: Repo, e: Event, f: string, who: string)
    requires e.Share? && GrantSlot(r, e.file, e.recipient, e.slot) && !HasGrant(r, f, who)
    requires HasGrant(CreateGrant(r, e.owner, e.file, e.recipient, e.permission, e.expiresAt, e.now, e.slot), f, who)
    ensures e.file == f && e.recipient == who && MayGrant(r, e.owner, f, who)
  {
    var r' := CreateGrant(r, e.owner, e.file, e.recipient, e.permission, e.expiresAt, e.now, e.slot);
    var id :| id in r'.grants && Unrevoked(r', id, f, who);
    if id != e.slot { assert !Unrevoked(r, id, f, who); }
  }

  lemma SameGrants(r: Repo, r': Repo, f: string, who: string)
    requires r'.grants == r.grants
    ensures HasGrant(r', f, who) <==> HasGrant(r, f, who)
  {
    if HasGrant(r', f, who) {
      var id :| id in r'.grants && Unrevoked(r', id, f, who);
      assert Unrevoked(r, id, f, who);
    }
    if HasGrant(r, f, who) {
      var id :| id in r.grants && Unrevoked(r, id, f, who);
      assert Unrevoked(r', id, f, who);
    }
  }

  /** The owner shares the file with this recipient at position k of the run, while active. */
  ghost predicate SharedAt(cfg: Config, w: World, events: seq<Event>, k: nat, f: string, who: string) {
    && k < |events| && events[k].Share? && events[k].file == f && events[k].recipient == who
    && MayGrant(Run(cfg, w, events[..k]).repo, events[k].owner, f, who)
  }

  lemma {:induction false} GrantsAreShared(cfg: Config, w: World, events: seq<Event>, f: string, who: string)
    requires !HasGrant(w.repo, f, who) && HasGrant(Run(cfg, w, events).repo, f, who)
    ensures exists k: nat :: SharedAt(cfg, w, events, k, f, who)
  {
    hide Next, HasGrant, MayGrant;
    var n := |events| - 1;
    var before := events[..n];
    if HasGrant(Run(cfg, w, before).repo, f, who) {
      GrantsAreShared(cfg, w, before, f, who);
      var k: nat :| SharedAt(cfg, w, before, k, f, who);
      assert before[..k] == events[..k];
      assert SharedAt(cfg, w, events, k, f, who);
    } else {
      StepGrants(cfg, Run(cfg, w, before), events[n], f, who);
      assert SharedAt(cfg, w, events, n, f, who);
    }
  }

  /** Once a file is in the trash no recipient can read it, and none ever can again unless,
      later in the run, the owner shares it with that recipient anew while it is active, that
      is, after it has been restored. */
  lemma TrashEndsAccess(cfg: Config, w: World, events: seq<Event>, f: string, who: string, capability: Permission,
                        now: Time)
    requires Inv(cfg, w) && f in w.repo.files && w.repo.files[f].deletedAt.Some?
    requires Authorized(Run(cfg, w, events).repo, who, f, capability, now) && w.repo.files[f].ownerID != who
    ensures exists k: nat :: SharedAt(cfg, w, events, k, f, who)
  {
    hide Run, EntriesOK, CleaningOK, Readable, RestoresFaithful, Lineage, Aimed, LifecycleOK, SharedAt, Grows;
    assert !HasGrant(w.repo, f, who);
    assert f in w.repo.versions;
    hide Inv, HasGrant;
    RunGrows(cfg, w, events, f);
    AccessNeedsGrant(Run(cfg, w, events).repo, who, f, capability, now);
    GrantsAreShared(cfg, w, events, f, who);
  }

  // --- What the event log says about one recipient ----------------------------

  /** This is an unrevoked grant on the file for that recipient, with these terms. */
  predicate HeldBy(r: Repo, id: string, f: string, who: string, permission: Permission, expiresAt: Option<Time>) {
    && id in r.grants && r.grants[id].fileID == f && r.grants[id].recipientID == who && r.grants[id].revokedAt == None
    && r.grants[id].permission == permission && r.grants[id].expiresAt == expiresAt
  }

  ghost predicate Holds(r: Repo, f: string, who: string, permission: Permission, expiresAt: Option<Time>) {
    exists id :: HeldBy(r, id, f, who, permission, expiresAt)
  }

  /** The owner of an active file shares it with someone else. */
  predicate Shares(r: Repo, e: Event, f: string, who: string) {
    && e.Share? && e.file == f && e.recipient == who && GrantSlot(r, f, who, e.slot)
    && f in r.files && r.files[f].ownerID == e.owner && who != e.owner
    && r.files[f].deletedAt == None && r.files[f].purgedAt == None
  }

  /** The owner revokes the recipient's grant, or moves the active file to the trash, which
      neither a hold nor a deadline ahead allows. */
  predicate Withdraws(r: Repo, e: Event, f: string, who: string) {
    || (e.Unshare? && e.file == f && e.grantID in r.grants && r.grants[e.grantID].fileID == f
        && r.grants[e.grantID].recipientID == who && r.grants[e.grantID].ownerID == e.owner
        && r.grants[e.grantID].revokedAt == None)
    || (e.Trash? && e.file == f && f in r.files && r.files[f].ownerID == e.owner && !r.files[f].legalHold
        && (r.files[f].retentionUntil.Some? ==> r.files[f].retentionUntil.value <= e.now))
  }

  /** The slot is the recipient's grant if there is one, and free otherwise. */
  lemma SlotHeld(r: Repo, f: string, who: string, slot: string, id: string, permission: Permission,
                 expiresAt: Option<Time>)
    requires GrantsOK(r.files, r.grants) && GrantSlot(r, f, who, slot)
    ensures HeldBy(r, id, f, who, permission, expiresAt) ==> id == slot
    ensures slot in r.grants ==>
              r.grants[slot].fileID == f && r.grants[slot].recipientID == who && r.grants[slot].revokedAt == None
  {
    if HeldBy(r, id, f, who, permission, expiresAt) { assert Unrevoked(r, id, f, who); }
  }

  /** What is created, and what stays. */
  lemma Created(r: Repo, e: Event, id: string)
    requires e.Share? && MayGrant(r, e.owner, e.file, e.recipient)
    requires e.slot in r.grants ==> r.grants[e.slot].fileID == e.file && r.grants[e.slot].recipientID == e.recipient &&
                                    r.grants[e.slot].revokedAt == None
    ensures
      var r' := CreateGrant(r, e.owner, e.file, e.recipient, e.permission, e.expiresAt, e.now, e.slot);
      && HeldBy(r', e.slot, e.file, e.recipient, e.permission, e.expiresAt)
      && (id != e.slot ==> (id in r'.grants <==> id in r.grants))
      && (id != e.slot && id in r.grants ==> r'.grants[id] == r.grants[id])
  {}

  /** Sharing replaces the terms of the one grant there may be. */
  lemma ShareHeld(r: Repo, e: Event, id: string, f: string, who: string, permission: Permission,
                  expiresAt: Option<Time>)
    requires GrantsOK(r.files, r.grants) && e.Share? && GrantSlot(r, e.file, e.recipient, e.slot)
    ensures
      HeldBy(CreateGrant(r, e.owner, e.file, e.recipient, e.permission, e.expiresAt, e.now, e.slot), id, f, who,
             permission, expiresAt)
      <==> if Shares(r, e, f, who) then id == e.slot && e.permission == permission && e.expiresAt == expiresAt
           else HeldBy(r, id, f, who, permission, expiresAt)
  {
    SlotHeld(r, e.file, e.recipient, e.slot, id, permission, expiresAt);
    hide GrantSlot, GrantsOK;
    if MayGrant(r, e.owner, e.file, e.recipient) {
      Created(r, e, id);
      hide CreateGrant;
    }
  }

  lemma UnshareHeld(r: Repo, e: Event, id: string, f: string, who: string, permission: Permission,
                    expiresAt: Option<Time>)
    requires GrantsOK(r.files, r.grants) && e.Unshare?
    ensures
      HeldBy(RevokeGrant(r, e.owner, e.file, e.grantID, e.now), id, f, who, permission, expiresAt)
      <==> !Withdraws(r, e, f, who) && HeldBy(r, id, f, who, permission, expiresAt)
  {}

  lemma TrashHeld(r: Repo, e: Event, id: string, f: string, who: string, permission: Permission,
                  expiresAt: Option<Time>)
    requires GrantsOK(r.files, r.grants) && e.Trash?
    ensures
      HeldBy(MoveToTrash(r, e.owner, e.file, e.now, e.now + GRACE), id, f, who, permission, expiresAt)
      <==> !Withdraws(r, e, f, who) && HeldBy(r, id, f, who, permission, expiresAt)
  {}

  /** A purge finds no grants left, since the file is in the trash. */
  lemma PurgeHeld(r: Repo, op: PurgeID, now: Time, id: string, f: string, who: string, permission: Permission,
                  expiresAt: Option<Time>)
    requires GrantsOK(r.files, r.grants)
    ensures HeldBy(Purge(r, op, now), id, f, who, permission, expiresAt)
       <==> HeldBy(r, id, f, who, permission, expiresAt)
  {
    hide Erased, ErasedObjects, Destroy;
  }

  lemma StepHolds(cfg: Config, w: World, e: Event, f: string, who: string, permission: Permission,
                  expiresAt: Option<Time>)
    requires GrantsOK(w.repo.files, w.repo.grants)
    ensures
      Holds(Next(cfg, w, e).repo, f, who, permission, expiresAt)
      <==> if Shares(w.repo, e, f, who) then e.permission == permission && e.expiresAt == expiresAt
           else !Withdraws(w.repo, e, f, who) && Holds(w.repo, f, who, permission, expiresAt)
  {
    forall id
      ensures HeldBy(Next(cfg, w, e).repo, id, f, who, permission, expiresAt)
         <==> if Shares(w.repo, e, f, who) then id == e.slot && e.permission == permission && e.expiresAt == expiresAt
              else !Withdraws(w.repo, e, f, who) && HeldBy(w.repo, id, f, who, permission, expiresAt)
    {
      StepHeld(cfg, w, e, id, f, who, permission, expiresAt);
    }
    hide HeldBy, Next, Withdraws, GrantsOK;
    if Shares(w.repo, e, f, who) && e.permission == permission && e.expiresAt == expiresAt {
      assert HeldBy(Next(cfg, w, e).repo, e.slot, f, who, permission, expiresAt);
    }
  }

  lemma StepHeld(cfg: Config, w: World, e: Event, id: string, f: string, who: string, permission: Permission,
                 expiresAt: Option<Time>)
    requires GrantsOK(w.repo.files, w.repo.grants)
    ensures
      HeldBy(Next(cfg, w, e).repo, id, f, who, permission, expiresAt)
      <==> if Shares(w.repo, e, f, who) then id == e.slot && e.permission == permission && e.expiresAt == expiresAt
           else !Withdraws(w.repo, e, f, who) && HeldBy(w.repo, id, f, who, permission, expiresAt)
  {
    hide HeldBy, GrantsOK, CreateGrant, RevokeGrant, MoveToTrash, Purge, GrantSlot;
    if e.Share? {
      if GrantSlot(w.repo, e.file, e.recipient, e.slot) { ShareHeld(w.repo, e, id, f, who, permission, expiresAt); }
    } else if e.Unshare? {
      UnshareHeld(w.repo, e, id, f, who, permission, expiresAt);
    } else if e.Trash? {
      TrashHeld(w.repo, e, id, f, who, permission, expiresAt);
    } else if e.PurgeFile? {
      PurgeHeld(w.repo, e.op, e.now, id, f, who, permission, expiresAt);
    } else {
      hide Next;
      GrantsOtherwiseStay(cfg, w, e);
      SameHeld(w.repo, Next(cfg, w, e).repo, id, f, who, permission, expiresAt);
    }
  }

  lemma SameHeld(r: Repo, r': Repo, id: string, f: string, who: string, permission: Permission,
                 expiresAt: Option<Time>)
    requires r'.grants == r.grants
    ensures HeldBy(r', id, f, who, permission, expiresAt) <==> HeldBy(r, id, f, who, permission, expiresAt)
  {}

  /** Event k shares the file with that recipient, and nothing since has shared it with them
      again or withdrawn it from them. */
  ghost predicate LastShare(cfg: Config, ring: Keyring, events: seq<Event>, k: nat, f: string, who: string)
    ensures LastShare(cfg, ring, events, k, f, who) ==> k < |events| && events[k].Share?
  {
    && k < |events| && Shares(Run(cfg, EmptyWorld(ring), events[..k]).repo, events[k], f, who)
    && forall j: nat | k < j < |events| :: Undisturbed(cfg, ring, events, j, f, who)
  }

  ghost predicate Undisturbed(cfg: Config, ring: Keyring, events: seq<Event>, j: nat, f: string, who: string)
    requires j < |events|
  {
    var r := Run(cfg, EmptyWorld(ring), events[..j]).repo;
    !Shares(r, events[j], f, who) && !Withdraws(r, events[j], f, who)
  }

  lemma LastShareSteps(cfg: Config, ring: Keyring, events: seq<Event>, k: nat, f: string, who: string)
    requires events != []
    ensures
      var n := |events| - 1;
      var r := Run(cfg, EmptyWorld(ring), events[..n]).repo;
      LastShare(cfg, ring, events, k, f, who)
      <==> if k == n then Shares(r, events[n], f, who)
           else LastShare(cfg, ring, events[..n], k, f, who) && Undisturbed(cfg, ring, events, n, f, who)
  {
    hide Run, Shares, Withdraws;
    var n := |events| - 1;
    var before := events[..n];
    forall j: nat | j < n
      ensures before[..j] == events[..j] && before[j] == events[j]
      ensures Undisturbed(cfg, ring, before, j, f, who) <==> Undisturbed(cfg, ring, events, j, f, who)
    {
      assert before[..j] == events[..j];
    }
  }

  /** The terms in force are those of the last share. */
  lemma {:induction false} HoldsIffShared(cfg: Config, ring: Keyring, events: seq<Event>, f: string, who: string,
                                          permission: Permission, expiresAt: Option<Time>)
    requires ValidRing(ring)
    ensures Holds(Run(cfg, EmptyWorld(ring), events).repo, f, who, permission, expiresAt)
       <==> exists k: nat :: LastShare(cfg, ring, events, k, f, who)
                             && events[k].permission == permission && events[k].expiresAt == expiresAt
  {
    hide Next, Holds, Shares, Withdraws, LastShare, GrantsOK;
    if events == [] {
      assert !Holds(EmptyRepo(), f, who, permission, expiresAt) by { NoneHeld(f, who, permission, expiresAt); }
      assert forall k: nat :: !LastShare(cfg, ring, events, k, f, who);
    } else {
      var n := |events| - 1;
      var before := events[..n];
      var w := Run(cfg, EmptyWorld(ring), before);
      RunGrants(cfg, ring, before);
      StepHolds(cfg, w, events[n], f, who, permission, expiresAt);
      HoldsIffShared(cfg, ring, before, f, who, permission, expiresAt);
      forall k: nat ensures LastShare(cfg, ring, events, k, f, who) <==>
          if k == n then Shares(w.repo, events[n], f, who)
          else LastShare(cfg, ring, before, k, f, who) && Undisturbed(cfg, ring, events, n, f, who)
      {
        LastShareSteps(cfg, ring, events, k, f, who);
      }
    }
  }

  lemma NoneHeld(f: string, who: string, permission: Permission, expiresAt: Option<Time>)
    ensures !Holds(EmptyRepo(), f, who, permission, expiresAt)
  {}

  lemma RunGrants(cfg: Config, ring: Keyring, events: seq<Event>)
    requires ValidRing(ring)
    ensures
      var r := Run(cfg, EmptyWorld(ring), events).repo;
      GrantsOK(r.files, r.grants)
  {
    hide Run;
    RunKeeps(cfg, ring, events);
    hide EntriesOK, CleaningOK, Readable, RestoresFaithful, Lineage, Aimed, HistoriesOK, LifecycleOK, GrantsOK;
  }

  /** What a capability needs: to read, any permission will do; to download, that one. */
  lemma AuthorizedIff(r: Repo, who: string, f: string, capability: Permission, now: Time)
    requires f in r.files ==> r.files[f].ownerID != who
    ensures Authorized(r, who, f, capability, now) <==>
            && f in r.files && r.files[f].deletedAt == None && r.files[f].purgedAt == None
            && exists permission: Permission, expiresAt: Option<Time> ::
                 && Holds(r, f, who, permission, expiresAt)
                 && (expiresAt.Some? ==> now < expiresAt.value)
                 && (capability == Download ==> permission == Download)
  {
    if Authorized(r, who, f, capability, now) {
      var id :| id in r.grants && Allows(r.grants[id], f, who, capability, now);
      var permission, expiresAt := r.grants[id].permission, r.grants[id].expiresAt;
      assert HeldBy(r, id, f, who, permission, expiresAt);
      assert Holds(r, f, who, permission, expiresAt) && (expiresAt.Some? ==> now < expiresAt.value)
             && (capability == Download ==> permission == Download);
    }
    if permission: Permission, expiresAt: Option<Time> :|
      && Holds(r, f, who, permission, expiresAt)
      && (expiresAt.Some? ==> now < expiresAt.value)
      && (capability == Download ==> permission == Download)
      && f in r.files && r.files[f].Active()
    {
      var id :| HeldBy(r, id, f, who, permission, expiresAt);
      assert Allows(r.grants[id], f, who, capability, now);
    }
  }

  /** After every run, someone who is not the owner may download exactly if the file is active
      and was last shared with them for downloading, with no expiry or one still ahead, and
      nothing has withdrawn that since; for reading, sharing either way will do. */
  lemma AccessIff(cfg: Config, ring: Keyring, events: seq<Event>, who: string, f: string, capability: Permission,
                  now: Time)
    requires ValidRing(ring)
    requires
      var r := Run(cfg, EmptyWorld(ring), events).repo;
      f in r.files ==> r.files[f].ownerID != who
    ensures
      var r := Run(cfg, EmptyWorld(ring), events).repo;
      Authorized(r, who, f, capability, now) <==>
      && f in r.files && r.files[f].deletedAt == None && r.files[f].purgedAt == None
      && exists k: nat ::
           && LastShare(cfg, ring, events, k, f, who)
           && (events[k].expiresAt.Some? ==> now < events[k].expiresAt.value)
           && (capability == Download ==> events[k].permission == Download)
  {
    hide Run, Authorized, Holds, LastShare;
    var r := Run(cfg, EmptyWorld(ring), events).repo;
    AuthorizedIff(r, who, f, capability, now);
    forall permission: Permission, expiresAt: Option<Time>
      ensures Holds(r, f, who, permission, expiresAt)
         <==> exists k: nat :: LastShare(cfg, ring, events, k, f, who)
                               && events[k].permission == permission && events[k].expiresAt == expiresAt
    {
      HoldsIffShared(cfg, ring, events, f, who, permission, expiresAt);
    }
    if k: nat :| LastShare(cfg, ring, events, k, f, who)
                 && (events[k].expiresAt.Some? ==> now < events[k].expiresAt.value)
                 && (capability == Download ==> events[k].permission == Download)
    {
      assert Holds(r, f, who, events[k].permission, events[k].expiresAt);
    }
  }
}
