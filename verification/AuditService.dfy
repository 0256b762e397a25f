/** The audit service over its repository: the methods that change the chain, the write
    key and the outbox in place, each tied to the ledger steps it performs. */
module AuditService {
  import opened Wrappers
  import opened Encodings
  import opened AuditChain
  import opened AuditDelivery

  datatype AuditError = AppendFailed | KeyUnavailable

  /** What happens to one intent of a flush: the answers to its append and to its
      acknowledgement, and whether a failed append gets noted. A crash after the append is a
      refused acknowledgement: the row stays pending although the event is in the chain. */
  datatype Outcome = Outcome(append: Answer, acknowledge: Answer, noted: bool)
  {
    predicate Delivers() { append == Answered && acknowledge == Answered }

    /** The row is marked. */
    predicate Marks() { append == Answered && acknowledge != Refused }
  }

  const DELIVERS: Outcome := Outcome(Answered, Answered, true)

  ghost function Pending(l: Ledger): set<Text> {
    set id | id in l.outbox && l.outbox[id].dispatchedAt == None
  }

  /** Between 1 and 500 is honoured; anything else means 100. */
  function EffectiveLimit(limit: int): (n: nat)
    ensures 1 <= n <= 500
  {
    if limit < 1 || limit > 500 then 100 else limit
  }

  ghost predicate Distinct(page: seq<Text>) {
    forall i, j :: 0 <= i < j < |page| ==> page[i] != page[j]
  }

  function Age(l: Ledger, id: Text): Time {
    if id in l.outbox then l.outbox[id].intent.occurredAt else 0
  }

  /** The oldest pending rows, oldest first, as many as the limit allows. */
  ghost predicate IsPage(l: Ledger, limit: nat, page: seq<Text>) {
    && Distinct(page)
    && (forall id :: id in page ==> id in Pending(l))
    && |page| <= limit
    && (|page| < limit ==> forall id :: id in Pending(l) ==> id in page)
    && (forall i, j :: 0 <= i < j < |page| ==> Age(l, page[i]) <= Age(l, page[j]))
    && (forall id, k :: id in Pending(l) && id !in page && 0 <= k < |page| ==> Age(l, page[k]) <= Age(l, id))
  }

  /** The page, row by row. */
  lemma PageIs(l: Ledger, limit: nat, page: seq<Text>)
    requires IsPage(l, limit, page)
    ensures forall i :: 0 <= i < |page| ==> page[i] in l.outbox && l.outbox[page[i]].dispatchedAt == None
    ensures forall i, j :: 0 <= i < j < |page| ==>
              && page[i] != page[j]
              && l.outbox[page[i]].intent.occurredAt <= l.outbox[page[j]].intent.occurredAt
    ensures |page| <= limit
    ensures |page| < limit ==> forall id :: id in l.outbox && l.outbox[id].dispatchedAt == None ==> id in page
    ensures forall id, k :: id in l.outbox && l.outbox[id].dispatchedAt == None && id !in page && 0 <= k < |page| ==>
              l.outbox[page[k]].intent.occurredAt <= l.outbox[id].intent.occurredAt
  {
    forall i | 0 <= i < |page| ensures page[i] in l.outbox && l.outbox[page[i]].dispatchedAt == None {
      assert page[i] in page;
    }
    forall i, j | 0 <= i < j < |page|
      ensures page[i] != page[j] && l.outbox[page[i]].intent.occurredAt <= l.outbox[page[j]].intent.occurredAt
    {
      assert page[i] in page && page[j] in page;
      assert Age(l, page[i]) <= Age(l, page[j]);
    }
    forall id, k | id in l.outbox && l.outbox[id].dispatchedAt == None && id !in page && 0 <= k < |page|
      ensures l.outbox[page[k]].intent.occurredAt <= l.outbox[id].intent.occurredAt
    {
      assert page[k] in page && id in Pending(l);
      assert Age(l, page[k]) <= Age(l, id);
    }
  }

  function Turn(cfg: Config, l: Ledger, id: Text, outcome: Outcome, at: Time): Ledger {
    var appended := if outcome.append == Refused then l else Delivered(cfg, l, id);
    if outcome.append != Answered then (if outcome.noted then FailureNoted(appended, id) else appended)
    else if outcome.acknowledge == Refused then appended
    else Acknowledged(cfg, appended, id, at)
  }

  function TurnSteps(id: Text, outcome: Outcome, at: Time): seq<Step> {
    (if outcome.append == Refused then [] else [Deliver(id)])
    + (if outcome.append != Answered then (if outcome.noted then [NoteFailure(id)] else [])
       else if outcome.acknowledge == Refused then []
       else [Acknowledge(id, at)])
  }

  lemma RunOne(cfg: Config, l: Ledger, step: Step)
    ensures Run(cfg, l, [step]) == Next(cfg, l, step)
  {
    assert [step] == [] + [step];
    RunExtends(cfg, l, [], step);
  }

  lemma TurnIsRun(cfg: Config, l: Ledger, id: Text, outcome: Outcome, at: Time)
    ensures Turn(cfg, l, id, outcome, at) == Run(cfg, l, TurnSteps(id, outcome, at))
  {
    RunOne(cfg, l, Deliver(id));
    RunOne(cfg, l, NoteFailure(id));
    RunExtends(cfg, l, [Deliver(id)], Acknowledge(id, at));
    RunExtends(cfg, l, [Deliver(id)], NoteFailure(id));
    hide Delivered, FailureNoted, Acknowledged;
    assert [Deliver(id)] + [] == [Deliver(id)] && [] + [NoteFailure(id)] == [NoteFailure(id)];
  }

  lemma TurnPending(cfg: Config, l: Ledger, id: Text, outcome: Outcome, at: Time)
    requires Sound(cfg, l) && id in Pending(l)
    ensures Pending(Turn(cfg, l, id, outcome, at)) == if outcome.Marks() then Pending(l) - {id} else Pending(l)
  {
    hide Sound, EventOf, Append, Recorded, Acknowledged;
    DispatchedMarks(cfg, l, id, at);
    DeliveryMarksNone(cfg, l, id);
  }

  /** What a turn writes into its own row and no other: dispatched, at the sequence of the event
      under its ID, or one more failure, or nothing; either of the first counts as an attempt. */
  lemma TurnRow(cfg: Config, l: Ledger, id: Text, outcome: Outcome, at: Time)
    requires Sound(cfg, l) && id in Pending(l)
    ensures
      var l', row := Turn(cfg, l, id, outcome, at), l.outbox[id];
      && l'.outbox.Keys == l.outbox.Keys
      && (forall other :: other in l.outbox && other != id ==> l'.outbox[other] == l.outbox[other])
      && var row' := l'.outbox[id];
         && row'.intent == row.intent
         && (outcome.append == Answered && outcome.acknowledge != Refused ==>
               && row'.dispatchedAt == Some(at) && row'.attempts == row.attempts + 1 && !row'.failed
               && 1 <= row'.chainSequence <= |l'.chain.events|
               && l'.chain.events[row'.chainSequence - 1].content.eventID == cfg.safe(id))
         && (outcome.append != Answered && outcome.noted ==>
               row' == row.(attempts := row.attempts + 1, failed := true))
         && (outcome.append == Answered && outcome.acknowledge == Refused ==> row' == row)
         && (outcome.append != Answered && !outcome.noted ==> row' == row)
  {
    hide Sound, EventOf, Append;
    DispatchedMarks(cfg, l, id, at);
    StepSound(cfg, l, Deliver(id));
    DeliveryMarksNone(cfg, l, id);
    hide Delivered;
    AcknowledgedAt(cfg, Delivered(cfg, l, id), id, at);
  }

  lemma AcknowledgedAt(cfg: Config, l: Ledger, id: Text, at: Time)
    requires Sound(cfg, l) && id in l.outbox && l.outbox[id].dispatchedAt == None &&
             Recorded(l.chain.events, cfg.safe(id))
    ensures
      var row' := Acknowledged(cfg, l, id, at).outbox[id];
      && 1 <= row'.chainSequence <= |l.chain.events|
      && l.chain.events[row'.chainSequence - 1].content.eventID == cfg.safe(id)
      && row'.attempts == l.outbox[id].attempts + 1 && !row'.failed && row'.dispatchedAt == Some(at)
  {
    assert Fault(cfg.suite, cfg.keys, l.chain.events, IndexOf(l.chain.events, cfg.safe(id))) == None;
  }

  lemma DeliveryMarksNone(cfg: Config, l: Ledger, id: Text)
    ensures Delivered(cfg, l, id).outbox == l.outbox
  {}

  /** The flush loop: the state it ends in, how many rows it delivered, whether it stopped. */
  function Flushed(cfg: Config, l: Ledger, ids: seq<Text>, outcomes: seq<Outcome>, at: Time): (Ledger, nat, bool)
    decreases |ids|
  {
    if ids == [] then (l, 0, false)
    else
      var outcome := if outcomes == [] then DELIVERS else outcomes[0];
      var after := Turn(cfg, l, ids[0], outcome, at);
      if !outcome.Delivers() then (after, 0, true)
      else
        var (end, n, failed) := Flushed(cfg, after, ids[1..], if outcomes == [] then [] else outcomes[1..], at);
        (end, n + 1, failed)
  }

  /** A flush that stopped at an acknowledgement that took effect all the same. */
  predicate MarkedUnreported(outcomes: seq<Outcome>, n: nat, failed: bool) {
    failed && n < |outcomes| && outcomes[n].Marks()
  }

  /** Every way a flush can end is a run of ledger steps, so every guarantee about runs holds
      at every point inside it. What stopped being pending is what it reports as delivered,
      and one row more exactly when it stopped at an acknowledgement that took effect and was
      answered with an error. It stops early only at a failure. */
  lemma {:induction false} FlushedIsRun(cfg: Config, l: Ledger, ids: seq<Text>, outcomes: seq<Outcome>, at: Time)
    returns (steps: seq<Step>)
    requires Sound(cfg, l) && Distinct(ids) && forall id :: id in ids ==> id in Pending(l)
    ensures var (end, n, failed) := Flushed(cfg, l, ids, outcomes, at);
      && end == Run(cfg, l, steps)
      && n <= |ids|
      && (failed <==> n < |ids|)
      && (failed <==> exists k :: 0 <= k < |ids| && k < |outcomes| && !outcomes[k].Delivers())
      && Pending(end) == Pending(l) - (set i | 0 <= i < (if MarkedUnreported(outcomes, n, failed) then n + 1 else n) ::
                                       ids[i])
    decreases |ids|
  {
    hide Turn, TurnSteps, Sound;
    steps := [];
    if ids != [] {
      var outcome := if outcomes == [] then DELIVERS else outcomes[0];
      var first := TurnSteps(ids[0], outcome, at);
      var after := Turn(cfg, l, ids[0], outcome, at);
      TurnIsRun(cfg, l, ids[0], outcome, at);
      TurnPending(cfg, l, ids[0], outcome, at);
      steps := first;
      if outcome.Delivers() {
        SoundRun(cfg, l, first);
        var rest := if outcomes == [] then [] else outcomes[1..];
        var more := FlushedIsRun(cfg, after, ids[1..], rest, at);
        RunConcat(cfg, l, first, more);
        steps := first + more;
        var (_, n, failed) := Flushed(cfg, after, ids[1..], rest, at);
        FirstPlusRest(ids, if MarkedUnreported(rest, n, failed) then n + 1 else n);
        FailsLater(ids, outcomes);
      }
    }
  }

  /** What a flush appends tells the intents of its page, in this process's write key. */
  ghost predicate TellsPage(cfg: Config, l: Ledger, ids: seq<Text>, c: Content) {
    exists id :: id in ids && id in l.outbox && Tells(cfg, c, l.outbox[id].intent) && c.keyVersion == l.current
  }

  /** The same rows, with the same intents. */
  ghost predicate SameIntents(l: Ledger, l': Ledger) {
    && l'.outbox.Keys == l.outbox.Keys
    && forall id :: id in l.outbox ==> l'.outbox[id].intent == l.outbox[id].intent
  }

  lemma TurnTells(cfg: Config, l: Ledger, id: Text, outcome: Outcome, at: Time)
    ensures
      var after := Turn(cfg, l, id, outcome, at);
      && after.current == l.current && l.chain.events <= after.chain.events && SameIntents(l, after)
      && (forall k :: |l.chain.events| <= k < |after.chain.events| ==>
            TellsPage(cfg, l, [id], after.chain.events[k].content))
  {
    hide Acknowledged, FailureNoted, Delivered, TellsPage, SameIntents;
    DeliveryAppends(cfg, l, id);
    MarkingAppendsNone(cfg, Delivered(cfg, l, id), l, id, at);
    MarkingAppendsNone(cfg, l, l, id, at);
  }

  lemma DeliveryAppends(cfg: Config, l: Ledger, id: Text)
    ensures
      var after := Delivered(cfg, l, id);
      && after.current == l.current && after.outbox == l.outbox && l.chain.events <= after.chain.events
      && (forall k :: |l.chain.events| <= k < |after.chain.events| ==>
            TellsPage(cfg, l, [id], after.chain.events[k].content))
  {
    hide EventOf, Recorded, ComputeMAC, Tells;
    if id in l.outbox { EventTells(cfg, l.outbox[id].intent, l.current); }
    assert id in [id];
  }

  lemma MarkingAppendsNone(cfg: Config, l: Ledger, start: Ledger, id: Text, at: Time)
    requires l.outbox == start.outbox
    ensures
      var a, b := Acknowledged(cfg, l, id, at), FailureNoted(l, id);
      && a.chain == l.chain == b.chain && a.current == l.current == b.current
      && SameIntents(start, l) && SameIntents(start, a) && SameIntents(start, b)
  {
    hide Recorded;
  }

  /** Whatever a flush appends, however it ends, tells an intent of its page field by field. */
  lemma {:induction false} FlushedTells(cfg: Config, l: Ledger, ids: seq<Text>, outcomes: seq<Outcome>, at: Time)
    ensures
      var end := Flushed(cfg, l, ids, outcomes, at).0;
      && end.current == l.current && l.chain.events <= end.chain.events
      && (forall k :: |l.chain.events| <= k < |end.chain.events| ==>
            TellsPage(cfg, l, ids, end.chain.events[k].content))
    decreases |ids|
  {
    hide Turn, Tells;
    if ids != [] {
      var outcome := if outcomes == [] then DELIVERS else outcomes[0];
      var rest := if outcomes == [] then [] else outcomes[1..];
      var after := Turn(cfg, l, ids[0], outcome, at);
      TurnTells(cfg, l, ids[0], outcome, at);
      FlushedTells(cfg, after, ids[1..], rest, at);
      var end := Flushed(cfg, l, ids, outcomes, at).0;
      forall k | |l.chain.events| <= k < |end.chain.events|
        ensures TellsPage(cfg, l, ids, end.chain.events[k].content)
      {
        if k < |after.chain.events| {
          assert TellsPage(cfg, l, [ids[0]], after.chain.events[k].content);
        } else {
          assert TellsPage(cfg, after, ids[1..], end.chain.events[k].content);
          var id :| id in ids[1..] && id in after.outbox
                    && Tells(cfg, end.chain.events[k].content, after.outbox[id].intent)
                    && end.chain.events[k].content.keyVersion == after.current;
          assert id in ids;
        }
      }
    }
  }

  lemma FailsLater(ids: seq<Text>, outcomes: seq<Outcome>)
    requires ids != [] && (outcomes == [] || outcomes[0].Delivers())
    ensures
      var rest := if outcomes == [] then [] else outcomes[1..];
      (exists k :: 0 <= k < |ids| && k < |outcomes| && !outcomes[k].Delivers()) <==>
      (exists k :: 0 <= k < |ids[1..]| && k < |rest| && !rest[k].Delivers())
  {
    var rest := if outcomes == [] then [] else outcomes[1..];
    if k :| 0 <= k < |ids| && k < |outcomes| && !outcomes[k].Delivers() { assert !rest[k - 1].Delivers(); }
    if k :| 0 <= k < |ids[1..]| && k < |rest| && !rest[k].Delivers() { assert !outcomes[k + 1].Delivers(); }
  }

  lemma FirstPlusRest(ids: seq<Text>, n: nat)
    requires n < |ids|
    ensures (set i | 0 <= i < n + 1 :: ids[i]) == {ids[0]} + (set i | 0 <= i < n :: ids[1..][i])
  {
    assert forall i :: 1 <= i < n + 1 ==> ids[i] == ids[1..][i - 1];
  }

  /** A failure-free flush whose limit covers the backlog empties it. */
  lemma FlushEmptiesBacklog(cfg: Config, l: Ledger, limit: int, page: seq<Text>, outcomes: seq<Outcome>, at: Time)
    requires Sound(cfg, l) && IsPage(l, EffectiveLimit(limit), page)
    requires |Pending(l)| <= EffectiveLimit(limit)
    requires forall o :: o in outcomes ==> o.Delivers()
    ensures Pending(Flushed(cfg, l, page, outcomes, at).0) == {}
    ensures Flushed(cfg, l, page, outcomes, at).1 == |Pending(l)|
  {
    hide Sound, Flushed, Pending, Age, EffectiveLimit;
    assert Distinct(page) && forall id :: id in page ==> id in Pending(l);
    PageCovers(l, EffectiveLimit(limit), page);
    DistinctSize(page);
    hide IsPage, Distinct;
    var _ := FlushedIsRun(cfg, l, page, outcomes, at);
    assert forall k :: 0 <= k < |outcomes| ==> outcomes[k] in outcomes;
  }

  /** The intent as it stands, without sanitising: what is appended where there is no outbox. */
  function RawEvent(i: Intent, keyVersion: Text): Content {
    Content(i.eventID, i.occurredAt, i.actorType, i.actorID, i.action, i.resourceType, i.resourceID, i.outcome,
            i.reasonCode, i.correlationID, i.fromState, i.toState, keyVersion, [])
  }

  /** The event carries each field of the intent under its own name, as it stands, and no
      network source. */
  ghost predicate TellsRaw(c: Content, i: Intent) {
    && c.eventID == i.eventID && c.occurredAt == i.occurredAt
    && c.actorType == i.actorType && c.actorID == i.actorID && c.action == i.action
    && c.resourceType == i.resourceType && c.resourceID == i.resourceID
    && c.outcome == i.outcome && c.reasonCode == i.reasonCode && c.correlationID == i.correlationID
    && c.fromState == i.fromState && c.toState == i.toState && c.networkSource == []
  }

  lemma AppendedLast(cfg: Config, l: Ledger, c: Content)
    requires !Recorded(l.chain.events, c.eventID)
    ensures
      var events := Appended(cfg, l, c).chain.events;
      |events| == |l.chain.events| + 1 && events[|l.chain.events|].content == c
    ensures c.eventID != [] ==> IndexOf(Appended(cfg, l, c).chain.events, c.eventID) == |l.chain.events|
  {
    var e := Extend(cfg.suite, cfg.keys, l.chain, c).events[|l.chain.events|];
    IndexOfStable(l.chain.events, e, c.eventID);
  }

  class Service {
    const cfg: Config
    var events: seq<Event>
    var checkpoint: Checkpoint
    var current: Text
    var outbox: map<Text, Row>

    ghost function State(): Ledger
      reads this
    {
      Ledger(Chain(events, checkpoint), current, outbox)
    }

    /** Resumes the write version of the stored checkpoint; a configured version counts
        only for an empty chain. */
    constructor (cfg: Config, configured: Text, stored: Chain, rows: map<Text, Row>)
      requires Usable(cfg.keys, configured)
      requires stored.checkpoint.lastSequence > 0 ==> Usable(cfg.keys, stored.checkpoint.keyVersion)
      ensures this.cfg == cfg
      ensures State() == Ledger(stored,
                if stored.checkpoint.lastSequence > 0 then stored.checkpoint.keyVersion else configured, rows)
      ensures stored == EmptyChain(cfg.suite) && rows == map[] ==> Sound(cfg, State())
    {
      this.cfg := cfg;
      events, checkpoint := stored.events, stored.checkpoint;
      outbox := rows;
      current := if stored.checkpoint.lastSequence > 0 then stored.checkpoint.keyVersion else configured;
    }

    /** Appends the event, or finds it by its ID. An append that takes effect may be answered
        with an error. */
    method AppendEvent(c: Content, answer: Answer) returns (r: Result<Event, AuditError>)
      modifies this`events, this`checkpoint
      ensures State() == if answer == Refused then old(State()) else Appended(cfg, old(State()), c)
      ensures r.Success? <==> answer == Answered
      ensures r.Success? && c.eventID != [] ==>
                Recorded(events, c.eventID) && r.value == events[IndexOf(events, c.eventID)]
      ensures r.Success? && c.eventID == [] ==> events == old(events) + [r.value] && r.value.content == c
    {
      if answer == Refused { return Failure(AppendFailed); }
      if c.eventID != [] {
        for i := 0 to |events|
          invariant forall k :: 0 <= k < i ==> events[k].content.eventID != c.eventID
        {
          if events[i].content.eventID == c.eventID {
            FirstIndex(events, i, c.eventID);
            return if answer == Answered then Success(events[i]) else Failure(AppendFailed);
          }
        }
      }
      var sequence := |events| + 1;
      var mac := ComputeMAC(cfg.suite, cfg.keys, sequence, checkpoint.lastMAC, c);
      var event := Event(sequence, c, checkpoint.lastMAC, mac);
      IndexOfStable(events, event, c.eventID);
      events := events + [event];
      checkpoint := Checkpoint(c.keyVersion, sequence, mac, c.occurredAt);
      r := if answer == Answered then Success(event) else Failure(AppendFailed);
    }

    /** Joins two key eras with one chained event. When the append fails the write version is
        restored; whether the chain stays as it was is up to the append (`FailedRotationIff`). */
    method RotateTo(requested: Text, id: Text, at: Time, answer: Answer)
      returns (r: Result<Option<Event>, AuditError>)
      requires Usable(cfg.keys, current)
      modifies this`events, this`checkpoint, this`current
      ensures State() == RotationEnds(cfg, old(State()), cfg.safe(requested), id, at, answer)
      ensures Usable(cfg.keys, current)
      ensures !Usable(cfg.keys, cfg.safe(requested)) ==> r == Failure(KeyUnavailable)
      ensures
        var version := cfg.safe(requested);
        r == Failure(KeyUnavailable) <==> version == [] || version !in cfg.keys || |cfg.keys[version]| <= 31
      ensures Usable(cfg.keys, cfg.safe(requested)) && cfg.safe(requested) == old(current) ==> r == Success(None)
      ensures Rotates(cfg, old(State()), cfg.safe(requested)) ==> (r.Success? <==> answer == Answered)
      ensures r.Failure? ==> current == old(current)
      ensures r.Success? && r.value.Some? ==> current == cfg.safe(requested)
      ensures r.Success? && r.value.Some? && !Recorded(old(events), id) ==>
                r.value.value == events[|old(events)|] && |events| == |old(events)| + 1
                && TellsRotation(r.value.value.content, id, at, old(current), cfg.safe(requested))
    {
      hide TellsRotation;
      var version := cfg.safe(requested);
      if version == [] || version !in cfg.keys || |cfg.keys[version]| < 32 {
        return Failure(KeyUnavailable);
      }
      if version == current { return Success(None); }
      var previous := current;
      current := version;
      RotationTells(id, at, previous, version);
      if !Recorded(events, id) { AppendedLast(cfg, State(), RotationEvent(id, at, previous, version)); }
      var event := AppendEvent(RotationEvent(id, at, previous, version), answer);
      if event.Failure? {
        current := previous;
        return Failure(AppendFailed);
      }
      r := Success(Some(event.value));
    }

    method Oldest(rest: set<Text>) returns (oldest: Text)
      requires rest != {} && rest <= outbox.Keys
      ensures oldest in rest && forall id :: id in rest ==> Age(State(), oldest) <= Age(State(), id)
    {
      oldest :| oldest in rest;
      var others := rest - {oldest};
      while others != {}
        invariant oldest in rest && others <= rest
        invariant forall id :: id in rest && id !in others ==> Age(State(), oldest) <= Age(State(), id)
        decreases others
      {
        var id :| id in others;
        if outbox[id].intent.occurredAt < outbox[oldest].intent.occurredAt { oldest := id; }
        others := others - {id};
      }
    }

    /** The oldest pending rows, selected one by one. */
    method PendingOutbox(limit: nat) returns (page: seq<Text>)
      ensures IsPage(State(), limit, page)
    {
      page := [];
      var rest := set id | id in outbox && outbox[id].dispatchedAt == None;
      while rest != {} && |page| < limit
        invariant Distinct(page) && |page| <= limit && rest <= outbox.Keys
        invariant forall id :: id in Pending(State()) <==> id in page || id in rest
        invariant forall id :: id in page ==> id !in rest
        invariant forall i, j :: 0 <= i < j < |page| ==> Age(State(), page[i]) <= Age(State(), page[j])
        invariant forall id, k :: id in rest && 0 <= k < |page| ==> Age(State(), page[k]) <= Age(State(), id)
        decreases rest
      {
        var oldest := Oldest(rest);
        page := page + [oldest];
        rest := rest - {oldest};
      }
    }

    ghost predicate Keyed()
      reads this
    {
      forall id :: id in outbox ==> outbox[id].intent.eventID == id && cfg.safe(id) != []
    }

    /** An undispatched row gets its instant and sequence; a dispatched one stays as it is. */
    method MarkOutboxDispatched(id: Text, sequence: int, at: Time)
      modifies this`outbox
      ensures outbox == if id in old(outbox) && old(outbox)[id].dispatchedAt == None
                        then old(outbox)[id := Row(old(outbox)[id].intent, Some(at), sequence,
                                                   old(outbox)[id].attempts + 1, false)]
                        else old(outbox)
    {
      if id in outbox && outbox[id].dispatchedAt == None {
        outbox := outbox[id := outbox[id].(dispatchedAt := Some(at), chainSequence := sequence,
                                           attempts := outbox[id].attempts + 1, failed := false)];
      }
    }

    method MarkOutboxFailure(id: Text)
      modifies this`outbox
      ensures State() == FailureNoted(old(State()), id)
      ensures outbox == if id in old(outbox) && old(outbox)[id].dispatchedAt == None
                        then old(outbox)[id := old(outbox)[id].(attempts := old(outbox)[id].attempts + 1,
                                                                failed := true)]
                        else old(outbox)
    {
      if id in outbox && outbox[id].dispatchedAt == None {
        outbox := outbox[id := outbox[id].(attempts := outbox[id].attempts + 1, failed := true)];
      }
    }

    /** One turn of the flush loop: append, then acknowledge, or stop where it fails. */
    method DeliverOne(id: Text, outcome: Outcome, at: Time) returns (ok: bool)
      requires Keyed() && id in outbox && outbox[id].dispatchedAt == None
      modifies this`events, this`checkpoint, this`outbox
      ensures Keyed() && outbox.Keys == old(outbox.Keys)
      ensures forall other :: other in outbox && other != id ==> outbox[other] == old(outbox)[other]
      ensures ok <==> outcome.Delivers()
      ensures State() == Turn(cfg, old(State()), id, outcome, at)
    {
      hide Recorded, EventOf, Append, Tells;
      EventTells(cfg, outbox[id].intent, current);
      ghost var start := State();
      var committed := AppendEvent(EventOf(cfg, outbox[id].intent, current), outcome.append);
      assert State() == if outcome.append == Refused then start else Delivered(cfg, start, id);
      ghost var mid := State();
      if committed.Failure? {
        if outcome.noted { MarkOutboxFailure(id); }
        return false;
      }
      if outcome.acknowledge == Refused { return false; }
      MarkOutboxDispatched(id, committed.value.sequence, at);
      assert State() == Acknowledged(cfg, mid, id, at);
      return outcome.acknowledge == Answered;
    }

    method DeliverAll(ids: seq<Text>, outcomes: seq<Outcome>, at: Time)
      returns (delivered: nat, failed: bool)
      requires Keyed() && Distinct(ids)
      requires forall k :: 0 <= k < |ids| ==> ids[k] in outbox && outbox[ids[k]].dispatchedAt == None
      modifies this`events, this`checkpoint, this`outbox
      ensures (State(), delivered, failed) == Flushed(cfg, old(State()), ids, outcomes, at)
    {
      hide Turn;
      delivered, failed := 0, false;
      var rest := outcomes;
      ghost var all := Flushed(cfg, State(), ids, outcomes, at);
      assert ids[0..] == ids;
      for i := 0 to |ids|
        invariant delivered == i && !failed && Keyed()
        invariant forall k :: i <= k < |ids| ==> ids[k] in outbox && outbox[ids[k]].dispatchedAt == None
        invariant var (end, n, stopped) := Flushed(cfg, State(), ids[i..], rest, at);
                  all == (end, n + i, stopped)
      {
        assert ids[i..][1..] == ids[i + 1..] && ids[i..][0] == ids[i];
        var outcome := if rest == [] then DELIVERS else rest[0];
        var ok := DeliverOne(ids[i], outcome, at);
        rest := if rest == [] then [] else rest[1..];
        if !ok { return delivered, true; }
        delivered := delivered + 1;
      }
    }

    /** Delivers up to a page of committed evidence, oldest first. */
    method FlushOutbox(limit: int, outcomes: seq<Outcome>, at: Time)
      returns (delivered: nat, failed: bool, ghost page: seq<Text>)
      requires Keyed()
      modifies this`events, this`checkpoint, this`outbox
      ensures IsPage(old(State()), EffectiveLimit(limit), page)
      ensures (State(), delivered, failed) == Flushed(cfg, old(State()), page, outcomes, at)
      ensures
        var most := if 1 <= limit <= 500 then limit else 100;
        && |page| <= most
        && (|page| < most ==> forall id :: id in old(outbox) && old(outbox)[id].dispatchedAt == None ==> id in page)
      ensures old(events) <= events && current == old(current)
      ensures forall k :: |old(events)| <= k < |events| ==> TellsPage(cfg, old(State()), page, events[k].content)
    {
      hide TellsPage, IsPage, Distinct, Flushed;
      var ids := PendingOutbox(EffectiveLimit(limit));
      page := ids;
      PageIs(State(), EffectiveLimit(limit), page);
      assert forall k :: 0 <= k < |ids| ==> ids[k] in ids && ids[k] in Pending(State());
      FlushedTells(cfg, State(), ids, outcomes, at);
      delivered, failed := DeliverAll(ids, outcomes, at);
    }

    /** With a durable outbox the caller never sees a delivery failure: the evidence is
        committed already and stays pending. */
    method DeliverMutationIntent(intent: Intent, durable: bool, outcomes: seq<Outcome>, at: Time)
      returns (ok: bool, ghost page: seq<Text>)
      requires Keyed()
      modifies this`events, this`checkpoint, this`outbox
      ensures durable ==> ok && IsPage(old(State()), 100, page) &&
                          State() == Flushed(cfg, old(State()), page, outcomes, at).0
      ensures !durable ==>
                var answer := if outcomes == [] then Answered else outcomes[0].append;
                && (ok <==> answer == Answered)
                && State() == (if answer == Refused then old(State())
                               else Appended(cfg, old(State()), RawEvent(intent, old(current))))
                && (answer != Refused && !Recorded(old(events), intent.eventID) ==>
                      && |events| == |old(events)| + 1
                      && TellsRaw(events[|old(events)|].content, intent)
                      && events[|old(events)|].content.keyVersion == old(current))
    {
      page := [];
      if durable {
        var _, _, taken := FlushOutbox(100, outcomes, at);
        return true, taken;
      }
      if !Recorded(events, intent.eventID) { AppendedLast(cfg, State(), RawEvent(intent, current)); }
      var r := AppendEvent(RawEvent(intent, current), if outcomes == [] then Answered else outcomes[0].append);
      ok := r.Success?;
    }
  }

  lemma {:induction false} RunConcat(cfg: Config, l: Ledger, first: seq<Step>, second: seq<Step>)
    ensures Run(cfg, l, first + second) == Run(cfg, Run(cfg, l, first), second)
  {
    if second == [] {
      assert first + second == first;
    } else {
      var n := |second| - 1;
      RunConcat(cfg, l, first, second[..n]);
      assert (first + second)[..|first| + n] == first + second[..n];
    }
  }

  lemma {:induction false} FirstIndex(events: seq<Event>, i: nat, id: Text)
    requires i < |events| && events[i].content.eventID == id
    requires forall k :: 0 <= k < i ==> events[k].content.eventID != id
    ensures IndexOf(events, id) == i
  {
    var n := |events| - 1;
    if i < n { FirstIndex(events[..n], i, id); }
  }

  /** A page that could not be filled, or that the backlog fits into, is the whole backlog. */
  lemma PageCovers(l: Ledger, limit: nat, page: seq<Text>)
    requires IsPage(l, limit, page)
    ensures |Pending(l)| <= limit ==> Pending(l) == set i | 0 <= i < |page| :: page[i]
  {
    var taken := set i | 0 <= i < |page| :: page[i];
    DistinctSize(page);
    if |Pending(l)| <= limit {
      if |page| == limit {
        assert taken <= Pending(l);
        SubsetSize(taken, Pending(l));
      }
    }
  }

  lemma {:induction false} DistinctSize(page: seq<Text>)
    requires Distinct(page)
    ensures |set i | 0 <= i < |page| :: page[i]| == |page|
  {
    if page != [] {
      var n := |page| - 1;
      DistinctSize(page[..n]);
      var smaller := set i | 0 <= i < n :: page[..n][i];
      assert (set i | 0 <= i < |page| :: page[i]) == smaller + {page[n]};
    }
  }

  lemma SubsetSize(a: set<Text>, b: set<Text>)
    requires a <= b && |a| >= |b|
    ensures a == b
  {
    assert b == a + (b - a);
    assert |b| == |a| + |b - a|;
  }
}
