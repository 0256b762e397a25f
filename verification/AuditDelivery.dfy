/** Key rotation and the transactional outbox: evidence committed with a mutation is
    delivered at least once, and recorded in the chain exactly once. */
module AuditDelivery {
  import opened Wrappers
  import opened Framing
  import opened Encodings
  import opened AuditChain

  // --- Sanitised fields ------------------------------------------------------

  const MAX_FIELD: nat := 160

  predicate IsSpace(b: byte) { b == 32 || 9 <= b <= 13 }

  function TrimLeft(v: Text): Text {
    if v != [] && IsSpace(v[0]) then TrimLeft(v[1..]) else v
  }

  function TrimRight(v: Text): Text {
    if v != [] && IsSpace(v[|v| - 1]) then TrimRight(v[..|v| - 1]) else v
  }

  function Trim(v: Text): Text { TrimRight(TrimLeft(v)) }

  /** Surrounding blanks go first, then anything beyond 160 bytes. */
  function Safe(v: Text): Text {
    var t := Trim(v);
    if |t| > MAX_FIELD then t[..MAX_FIELD] else t
  }

  /** Spaces, and the characters from the tab to the carriage return. */
  ghost predicate Blanks(v: Text) { forall k :: 0 <= k < |v| ==> v[k] as int == 32 || 9 <= v[k] as int <= 13 }

  /** From i to j is what is left of the value without its surrounding blanks. */
  ghost predicate Within(v: Text, i: int, j: int) {
    && 0 <= i <= j <= |v| && Blanks(v[..i]) && Blanks(v[j..])
    && (i < j ==> !Blanks([v[i]]) && !Blanks([v[j - 1]]))
  }

  lemma {:induction false} TrimLeftIs(v: Text) returns (i: nat)
    ensures i <= |v| && TrimLeft(v) == v[i..] && Blanks(v[..i]) && (i < |v| ==> !Blanks([v[i]]))
  {
    if v != [] && IsSpace(v[0]) {
      var n := TrimLeftIs(v[1..]);
      i := n + 1;
      assert v[1..][n..] == v[i..];
      assert v[..i] == [v[0]] + v[1..][..n];
    } else {
      i := 0;
      if v != [] { assert [v[0]][0] == v[0]; }
    }
  }

  lemma {:induction false} TrimRightIs(v: Text) returns (j: nat)
    ensures j <= |v| && TrimRight(v) == v[..j] && Blanks(v[j..]) && (j > 0 ==> !Blanks([v[j - 1]]))
  {
    var n := |v| - 1;
    if v != [] && IsSpace(v[n]) {
      j := TrimRightIs(v[..n]);
      assert v[..n][..j] == v[..j];
      assert v[j..] == v[..n][j..] + [v[n]];
    } else {
      j := |v|;
      if v != [] { assert [v[n]][0] == v[n]; }
    }
  }

  /** A sanitised field is the value without its surrounding blanks, cut to 160 bytes. */
  lemma SafeIs(v: Text) returns (i: nat, j: nat)
    ensures Within(v, i, j) && Safe(v) == if j - i > 160 then v[i..i + 160] else v[i..j]
  {
    i := TrimLeftIs(v);
    var m := TrimRightIs(v[i..]);
    j := i + m;
    assert v[i..][..m] == v[i..j] && v[i..][m..] == v[j..];
    if i < j {
      assert v[i..][m - 1] == v[j - 1];
    } else {
      assert m == 0;
    }
    if m > 160 { assert v[i..j][..160] == v[i..i + 160]; }
  }

  /** Sanitising a field empties it exactly when it is blank, so `Intent.Validate`, which
      trims, accepts the intents whose sanitised fields are present. */
  lemma SafeEmptyIffBlank(v: Text)
    ensures Safe(v) == [] <==> Trim(v) == []
  {
    assert |Trim(v)| > MAX_FIELD ==> |Trim(v)[..MAX_FIELD]| == MAX_FIELD;
  }

  /** Sanitising twice is not the same as sanitising once: cutting can leave a new trailing
      blank, which a second pass removes. */
  lemma SafeNotIdempotent(head: Text)
    requires |head| == MAX_FIELD - 1 && forall i :: 0 <= i < |head| ==> !IsSpace(head[i])
    ensures Safe(head + [32, 65]) == head + [32]
    ensures Safe(Safe(head + [32, 65])) == head
  {
    var v := head + [32, 65];
    assert v[0] == head[0] && TrimLeft(v) == v && TrimRight(v) == v;
    assert v[..MAX_FIELD] == head + [32];
    var w := head + [32];
    assert w[0] == head[0] && TrimLeft(w) == w;
    assert w[..|w| - 1] == head;
    assert TrimRight(head) == head;
  }

  /** The fixed surroundings: MAC suite, retained keys, Go's zero instant, and the field
      sanitiser, which is `Safe`. No result below depends on which sanitiser it is. */
  datatype Config = Config(suite: Suite, keys: Keyring, zero: Time, safe: Text -> Text)

  // --- The outbox ------------------------------------------------------------

  datatype Intent = Intent(
    eventID: Text, occurredAt: Time, actorType: Text, actorID: Text, action: Text,
    resourceType: Text, resourceID: Text, outcome: Text, reasonCode: Text,
    correlationID: Text, fromState: Text, toState: Text)
  {
    predicate Valid(cfg: Config) {
      && cfg.safe(eventID) != [] && cfg.safe(actorType) != [] && cfg.safe(action) != []
      && cfg.safe(resourceType) != [] && cfg.safe(outcome) != []
      && occurredAt != cfg.zero
    }
  }

  lemma {:induction false} BlankTrims(v: Text)
    requires Blanks(v)
    ensures TrimLeft(v) == []
  {
    if v != [] { BlankTrims(v[1..]); }
  }

  lemma NotBlank(v: Text)
    ensures Safe(v) == [] <==> Blanks(v)
  {
    SafeEmptyIffBlank(v);
    if Blanks(v) {
      BlankTrims(v);
    } else {
      var i := TrimLeftIs(v);
      var j := TrimRightIs(v[i..]);
      assert i < |v|;
      assert v[i..][0] == v[i];
    }
  }

  /** Which intents are accepted: event ID, actor type, action, resource type and outcome say
      something, and the instant is set. */
  lemma ValidIff(cfg: Config, i: Intent)
    requires forall v :: cfg.safe(v) == Safe(v)
    ensures i.Valid(cfg) <==>
            && !Blanks(i.eventID) && !Blanks(i.actorType) && !Blanks(i.action) && !Blanks(i.resourceType)
            && !Blanks(i.outcome) && i.occurredAt != cfg.zero
  {
    NotBlank(i.eventID);
    NotBlank(i.actorType);
    NotBlank(i.action);
    NotBlank(i.resourceType);
    NotBlank(i.outcome);
    hide Safe, Blanks;
  }

  datatype Row = Row(intent: Intent, dispatchedAt: Option<Time>, chainSequence: int, attempts: nat, failed: bool)

  /** The chain event that delivers an intent under the current write key. */
  function EventOf(cfg: Config, i: Intent, keyVersion: Text): Content {
    Content(cfg.safe(i.eventID), i.occurredAt, cfg.safe(i.actorType), cfg.safe(i.actorID), cfg.safe(i.action),
            cfg.safe(i.resourceType), cfg.safe(i.resourceID), cfg.safe(i.outcome), cfg.safe(i.reasonCode),
            cfg.safe(i.correlationID), cfg.safe(i.fromState), cfg.safe(i.toState), keyVersion, [])
  }

  /** The event carries each field of the intent under its own name, sanitised, at the
      intent's own instant, and no network source. */
  ghost predicate Tells(cfg: Config, c: Content, i: Intent) {
    && c.eventID == cfg.safe(i.eventID) && c.occurredAt == i.occurredAt
    && c.actorType == cfg.safe(i.actorType) && c.actorID == cfg.safe(i.actorID) && c.action == cfg.safe(i.action)
    && c.resourceType == cfg.safe(i.resourceType) && c.resourceID == cfg.safe(i.resourceID)
    && c.outcome == cfg.safe(i.outcome) && c.reasonCode == cfg.safe(i.reasonCode)
    && c.correlationID == cfg.safe(i.correlationID)
    && c.fromState == cfg.safe(i.fromState) && c.toState == cfg.safe(i.toState)
    && c.networkSource == []
  }

  lemma EventTells(cfg: Config, i: Intent, keyVersion: Text)
    ensures
      var c := EventOf(cfg, i, keyVersion);
      Tells(cfg, c, i) && c.keyVersion == keyVersion && c.eventID == cfg.safe(i.eventID)
  {}

  /** The event says that the system's key manager rotated the audit key to this version, from
      that one, and carries neither correlation nor network source. */
  ghost predicate TellsRotation(c: Content, id: Text, at: Time, from: Text, to: Text) {
    && c.eventID == id && c.occurredAt == at
    && c.actorType == Ascii("system") && c.actorID == Ascii("audit-key-manager")
    && c.action == Ascii("AUDIT_KEY_ROTATED") && c.resourceType == Ascii("audit_key") && c.resourceID == to
    && c.outcome == Ascii("success") && c.reasonCode == Ascii("configured_key_rotation") && c.correlationID == []
    && c.fromState == from && c.toState == to && c.keyVersion == to && c.networkSource == []
  }

  lemma RotationTells(id: Text, at: Time, from: Text, to: Text)
    ensures TellsRotation(RotationEvent(id, at, from, to), id, at, from, to)
  {
    hide Ascii;
  }

  function RotationEvent(id: Text, now: Time, from: Text, to: Text): Content {
    Content(id, now, Ascii("system"), Ascii("audit-key-manager"), Ascii("AUDIT_KEY_ROTATED"),
            Ascii("audit_key"), to, Ascii("success"), Ascii("configured_key_rotation"), [],
            from, to, to, [])
  }

  // --- The ledger and its atomic steps ---------------------------------------

  datatype Ledger = Ledger(chain: Chain, current: Text, outbox: map<Text, Row>)

  /** Each step is one transaction that takes effect, whatever its caller is told. A crash is
      the absence of the steps that would have followed, and then `Resume`; a transaction
      without effect is no step at all. A rotation whose transaction takes effect and is
      answered with an error puts the old write version back: `RotateDoubted`. */
  datatype Step =
    | Enqueue(intent: Intent)
    | Record(content: Content)
    | Rotate(version: Text, rotationID: Text, at: Time)
    | RotateDoubted(version: Text, rotationID: Text, at: Time)
    | Resume(configured: Text)
    | Deliver(id: Text)
    | Acknowledge(id: Text, at: Time)
    | NoteFailure(id: Text)

  predicate Usable(keys: Keyring, version: Text) {
    version != [] && version in keys && |keys[version]| >= 32
  }

  /** `ON CONFLICT DO NOTHING`, inside the mutation's own transaction. */
  function Enqueued(cfg: Config, l: Ledger, intent: Intent): Ledger {
    if !intent.Valid(cfg) || intent.eventID in l.outbox then l
    else l.(outbox := l.outbox[intent.eventID := Row(intent, None, 0, 0, false)])
  }

  function Appended(cfg: Config, l: Ledger, c: Content): Ledger {
    l.(chain := Append(cfg.suite, cfg.keys, l.chain, c))
  }

  /** There is a rotation to do. */
  predicate Rotates(cfg: Config, l: Ledger, version: Text) { Usable(cfg.keys, version) && version != l.current }

  /** The event is in the chain, under the new key, and the old version is written with again. */
  function RotationDoubted(cfg: Config, l: Ledger, version: Text, id: Text, at: Time): Ledger {
    if !Rotates(cfg, l, version) then l else Appended(cfg, l, RotationEvent(id, at, l.current, version))
  }

  function Rotated(cfg: Config, l: Ledger, version: Text, id: Text, at: Time): Ledger {
    if !Rotates(cfg, l, version) then l
    else RotationDoubted(cfg, l, version, id, at).(current := version)
  }

  /** The write version of a new process: the stored checkpoint's, or the configured one over
      an empty chain. Without its key the process does not start. */
  function Resumed(cfg: Config, l: Ledger, configured: Text): Ledger {
    var active := if l.chain.checkpoint.lastSequence > 0 then l.chain.checkpoint.keyVersion else configured;
    if !Usable(cfg.keys, configured) || !Usable(cfg.keys, active) then l else l.(current := active)
  }

  function Delivered(cfg: Config, l: Ledger, id: Text): Ledger {
    if id !in l.outbox then l
    else Appended(cfg, l, EventOf(cfg, l.outbox[id].intent, l.current))
  }

  function Acknowledged(cfg: Config, l: Ledger, id: Text, at: Time): Ledger {
    if id !in l.outbox || l.outbox[id].dispatchedAt.Some? || !Recorded(l.chain.events, cfg.safe(id)) then l
    else
      var row := l.outbox[id];
      var sequence := l.chain.events[IndexOf(l.chain.events, cfg.safe(id))].sequence;
      l.(outbox := l.outbox[id := row.(dispatchedAt := Some(at), chainSequence := sequence,
                                       attempts := row.attempts + 1, failed := false)])
  }

  function FailureNoted(l: Ledger, id: Text): Ledger {
    if id !in l.outbox || l.outbox[id].dispatchedAt.Some? then l
    else l.(outbox := l.outbox[id := l.outbox[id].(attempts := l.outbox[id].attempts + 1, failed := true)])
  }

  function Next(cfg: Config, l: Ledger, step: Step): Ledger {
    match step
    case Enqueue(intent) => Enqueued(cfg, l, intent)
    case Record(content) => Appended(cfg, l, content.(keyVersion := l.current))
    case Rotate(version, id, at) => Rotated(cfg, l, version, id, at)
    case RotateDoubted(version, id, at) => RotationDoubted(cfg, l, version, id, at)
    case Resume(configured) => Resumed(cfg, l, configured)
    case Deliver(id) => Delivered(cfg, l, id)
    case Acknowledge(id, at) => Acknowledged(cfg, l, id, at)
    case NoteFailure(id) => FailureNoted(l, id)
  }

  function Run(cfg: Config, l: Ledger, steps: seq<Step>): Ledger {
    if steps == [] then l
    else Next(cfg, Run(cfg, l, steps[..|steps| - 1]), steps[|steps| - 1])
  }

  lemma RunExtends(cfg: Config, l: Ledger, steps: seq<Step>, step: Step)
    ensures Run(cfg, l, steps + [step]) == Next(cfg, Run(cfg, l, steps), step)
  {
    assert (steps + [step])[..|steps|] == steps;
  }

  function Start(cfg: Config, version: Text): Ledger {
    Ledger(EmptyChain(cfg.suite), version, map[])
  }

  // --- What every step keeps -------------------------------------------------

  ghost predicate Unique(events: seq<Event>) {
    forall i, j :: 0 <= i < j < |events| && events[i].content.eventID != [] ==>
      events[i].content.eventID != events[j].content.eventID
  }

  /** Every dispatched row points at the one chain event that carries its ID. */
  ghost predicate Evidenced(cfg: Config, l: Ledger) {
    forall id :: id in l.outbox && l.outbox[id].dispatchedAt.Some? ==>
      && Recorded(l.chain.events, cfg.safe(id))
      && l.outbox[id].chainSequence == IndexOf(l.chain.events, cfg.safe(id)) + 1
  }

  ghost predicate Sound(cfg: Config, l: Ledger) {
    && Verifies(cfg.suite, cfg.keys, l.chain)
    && Usable(cfg.keys, l.current)
    && Unique(l.chain.events)
    && Evidenced(cfg, l)
    && (forall id :: id in l.outbox ==> l.outbox[id].intent.eventID == id && cfg.safe(id) != [])
  }

  lemma IndexOfStable(events: seq<Event>, more: Event, id: Text)
    ensures IndexOf(events, id) >= 0 ==> IndexOf(events + [more], id) == IndexOf(events, id)
    ensures IndexOf(events, id) < 0 && more.content.eventID == id ==> IndexOf(events + [more], id) == |events|
  {
    assert (events + [more])[..|events|] == events;
  }

  lemma AppendSound(cfg: Config, l: Ledger, c: Content, version: Text)
    requires Sound(cfg, l) && c.keyVersion in cfg.keys && Usable(cfg.keys, version)
    ensures Sound(cfg, Ledger(Append(cfg.suite, cfg.keys, l.chain, c), version, l.outbox))
    ensures Recorded(Append(cfg.suite, cfg.keys, l.chain, c).events, c.eventID) <==> c.eventID != []
  {
    IndexOfAbsent(l.chain.events, c.eventID);
    if !Recorded(l.chain.events, c.eventID) {
      var next := Extend(cfg.suite, cfg.keys, l.chain, c);
      ExtendVerifies(cfg.suite, cfg.keys, l.chain, c);
      var e := next.events[|l.chain.events|];
      IndexOfStable(l.chain.events, e, c.eventID);
      forall id | id in l.outbox && l.outbox[id].dispatchedAt.Some?
        ensures Recorded(next.events, cfg.safe(id))
        ensures l.outbox[id].chainSequence == IndexOf(next.events, cfg.safe(id)) + 1
      {
        IndexOfStable(l.chain.events, e, cfg.safe(id));
      }
    }
  }

  lemma AcknowledgedSound(cfg: Config, l: Ledger, id: Text, at: Time)
    requires Sound(cfg, l)
    ensures Sound(cfg, Acknowledged(cfg, l, id, at))
  {
    if Recorded(l.chain.events, cfg.safe(id)) {
      assert Fault(cfg.suite, cfg.keys, l.chain.events, IndexOf(l.chain.events, cfg.safe(id))) == None;
    }
  }

  lemma RotatedSound(cfg: Config, l: Ledger, version: Text, id: Text, at: Time)
    requires Sound(cfg, l)
    ensures Sound(cfg, Rotated(cfg, l, version, id, at)) && Sound(cfg, RotationDoubted(cfg, l, version, id, at))
  {
    if Usable(cfg.keys, version) {
      AppendSound(cfg, l, RotationEvent(id, at, l.current, version), version);
      AppendSound(cfg, l, RotationEvent(id, at, l.current, version), l.current);
    }
  }

  lemma StepSound(cfg: Config, l: Ledger, step: Step)
    requires Sound(cfg, l)
    ensures Sound(cfg, Next(cfg, l, step))
  {
    match step
    case Enqueue(intent) =>
    case Record(content) => AppendSound(cfg, l, content.(keyVersion := l.current), l.current);
    case Rotate(version, id, at) => RotatedSound(cfg, l, version, id, at);
    case RotateDoubted(version, id, at) => RotatedSound(cfg, l, version, id, at);
    case Resume(_) =>
    case Deliver(id) =>
      if id in l.outbox { AppendSound(cfg, l, EventOf(cfg, l.outbox[id].intent, l.current), l.current); }
    case Acknowledge(id, at) => AcknowledgedSound(cfg, l, id, at);
    case NoteFailure(_) =>
  }

  /** Whatever mix of appends, rotations, deliveries, crashes and retries led here, the
      chain verifies through its last event, across every key version used on the way. */
  lemma {:induction false} EveryRunSound(cfg: Config, version: Text, steps: seq<Step>)
    requires Usable(cfg.keys, version)
    ensures Sound(cfg, Run(cfg, Start(cfg, version), steps))
  {
    if steps != [] {
      EveryRunSound(cfg, version, steps[..|steps| - 1]);
      StepSound(cfg, Run(cfg, Start(cfg, version), steps[..|steps| - 1]), steps[|steps| - 1]);
    }
  }

  /** What a new process writes under: the checkpoint's version once anything was recorded, and
      the configured one before that; it does not start without either key. */
  lemma ResumesUnder(cfg: Config, l: Ledger, configured: Text)
    requires Sound(cfg, l)
    ensures
      var l' := Resumed(cfg, l, configured);
      var active := if l.chain.events != [] then l.chain.checkpoint.keyVersion else configured;
      && l'.chain == l.chain && l'.outbox == l.outbox
      && l'.current == if Usable(cfg.keys, configured) && Usable(cfg.keys, active) then active else l.current
  {
    assert l.chain.checkpoint.lastSequence == |l.chain.events|;
  }

  // --- Rotations that fail ---------------------------------------------------

  /** How the database answers a transaction; one answered with an error may have taken effect. */
  datatype Answer = Answered | Refused | InDoubt

  /** Where a rotation ends. */
  function RotationEnds(cfg: Config, l: Ledger, version: Text, id: Text, at: Time, answer: Answer): Ledger {
    match answer
    case Answered => Rotated(cfg, l, version, id, at)
    case Refused => l
    case InDoubt => RotationDoubted(cfg, l, version, id, at)
  }

  /** A failed rotation restores the write version. It leaves the chain unchanged exactly when
      there was nothing to append or the append had no effect; otherwise the chain ends with
      the rotation's own event, and the next process writes under the new version. */
  lemma FailedRotationIff(cfg: Config, l: Ledger, version: Text, id: Text, at: Time, answer: Answer)
    requires answer != Answered && !Recorded(l.chain.events, id)
    ensures
      var end := RotationEnds(cfg, l, version, id, at, answer);
      && end.current == l.current && end.outbox == l.outbox
      && (end.chain == l.chain <==> answer == Refused || !Rotates(cfg, l, version))
      && (end.chain != l.chain ==>
            && |end.chain.events| == |l.chain.events| + 1 && end.chain.events[..|l.chain.events|] == l.chain.events
            && TellsRotation(end.chain.events[|l.chain.events|].content, id, at, l.current, version)
            && forall configured :: Usable(cfg.keys, configured) ==> Resumed(cfg, end, configured).current == version)
  {
    assert |RotationDoubted(cfg, l, version, id, at).chain.events| >= |l.chain.events|;
  }

  /** Such a state from an empty ledger: the chain says that writing moved to the new key, and
      its next event is under the old one. It verifies all the same. */
  lemma RotationInDoubt(cfg: Config, from: Text, to: Text, id: Text, at: Time, c: Content)
    requires Usable(cfg.keys, from) && Usable(cfg.keys, to) && from != to && id != [] && c.eventID != id
    ensures
      var l := Run(cfg, Start(cfg, from), [RotateDoubted(to, id, at), Record(c)]);
      && |l.chain.events| == 2 && l.current == from && Sound(cfg, l)
      && TellsRotation(l.chain.events[0].content, id, at, from, to)
      && l.chain.events[1].content == c.(keyVersion := from)
  {
    var a, b := RotateDoubted(to, id, at), Record(c);
    EveryRunSound(cfg, from, [a, b]);
    RunExtends(cfg, Start(cfg, from), [], a);
    RunExtends(cfg, Start(cfg, from), [a], b);
    assert [] + [a] == [a] && [a] + [b] == [a, b];
    hide Run, Sound, Appended, TellsRotation, RotationEvent, RotationDoubted;
    RotationTells(id, at, from, to);
    DoubtedFirst(cfg, from, to, id, at, c.eventID);
    AppendedNext(cfg, RotationDoubted(cfg, Start(cfg, from), to, id, at), c.(keyVersion := from));
  }

  lemma DoubtedFirst(cfg: Config, from: Text, to: Text, id: Text, at: Time, other: Text)
    requires Usable(cfg.keys, from) && Usable(cfg.keys, to) && from != to && id != [] && other != id
    ensures
      var l := RotationDoubted(cfg, Start(cfg, from), to, id, at);
      && |l.chain.events| == 1 && l.chain.events[0].content == RotationEvent(id, at, from, to) && l.current == from
      && !Recorded(l.chain.events, other)
  {
    RotationTells(id, at, from, to);
    hide RotationEvent, ComputeMAC;
    AppendedNext(cfg, Start(cfg, from), RotationEvent(id, at, from, to));
    hide Appended;
    var l := RotationDoubted(cfg, Start(cfg, from), to, id, at);
    assert IndexOf(l.chain.events[..0], other) == -1;
  }

  lemma AppendedNext(cfg: Config, l: Ledger, c: Content)
    requires !Recorded(l.chain.events, c.eventID)
    ensures
      var l' := Appended(cfg, l, c);
      && |l'.chain.events| == |l.chain.events| + 1 && l'.current == l.current
      && l'.chain.events[..|l.chain.events|] == l.chain.events && l'.chain.events[|l.chain.events|].content == c
  {
    hide ComputeMAC;
  }

  /** The last event is under the key that is written with. */
  predicate InStep(l: Ledger) { l.chain.events != [] ==> l.chain.checkpoint.keyVersion == l.current }

  /** What the step would append is new. */
  predicate Fresh(l: Ledger, step: Step) {
    (step.Rotate? || step.RotateDoubted?) && step.rotationID != [] ==> !Recorded(l.chain.events, step.rotationID)
  }

  /** Only a rotation in doubt gets chain and write version out of step: without one they
      agree after every run, through any number of restarts. */
  lemma {:induction false} StaysInStep(cfg: Config, version: Text, steps: seq<Step>)
    requires Usable(cfg.keys, version)
    requires forall i :: 0 <= i < |steps| ==> Fresh(Run(cfg, Start(cfg, version), steps[..i]), steps[i])
    requires forall i :: 0 <= i < |steps| ==> !steps[i].RotateDoubted?
    ensures InStep(Run(cfg, Start(cfg, version), steps))
  {
    if steps != [] {
      var n := |steps| - 1;
      forall i | 0 <= i < n ensures Fresh(Run(cfg, Start(cfg, version), steps[..n][..i]), steps[..n][i]) {
        assert steps[..n][..i] == steps[..i];
      }
      StaysInStep(cfg, version, steps[..n]);
      EveryRunSound(cfg, version, steps[..n]);
      StepStaysInStep(cfg, Run(cfg, Start(cfg, version), steps[..n]), steps[n]);
    }
  }

  lemma StepStaysInStep(cfg: Config, l: Ledger, step: Step)
    requires Sound(cfg, l) && Fresh(l, step) && InStep(l)
    ensures InStep(Next(cfg, l, step)) <==> !(step.RotateDoubted? && Rotates(cfg, l, step.version))
  {}

  // --- Exactly once ----------------------------------------------------------

  /** How often an event ID occurs in the chain. */
  function Occurrences(events: seq<Event>, id: Text): nat {
    if events == [] then 0
    else Occurrences(events[..|events| - 1], id) +
         if events[|events| - 1].content.eventID == id then 1 else 0
  }

  lemma {:induction false} UniqueOccurs(events: seq<Event>, id: Text)
    requires Unique(events) && id != []
    ensures Occurrences(events, id) == if Recorded(events, id) then 1 else 0
  {
    if events != [] {
      var n := |events| - 1;
      UniqueOccurs(events[..n], id);
      var i := IndexOf(events[..n], id);
      assert i >= 0 ==> events[i].content.eventID == id;
    }
  }

  /** Steps that happened stay: the chain only grows at its end, committed intents never
      disappear or change, and a dispatched row stays as it is. */
  ghost predicate Continues(before: Ledger, after: Ledger) {
    && before.chain.events <= after.chain.events
    && forall id :: id in before.outbox ==>
         && id in after.outbox
         && after.outbox[id].intent == before.outbox[id].intent
         && (before.outbox[id].dispatchedAt.Some? ==> after.outbox[id] == before.outbox[id])
  }

  lemma StepContinues(cfg: Config, l: Ledger, step: Step)
    ensures Continues(l, Next(cfg, l, step))
  {
    assert l.chain.events <= Next(cfg, l, step).chain.events;
  }

  lemma {:induction false} RunContinues(cfg: Config, l: Ledger, steps: seq<Step>)
    ensures Continues(l, Run(cfg, l, steps))
  {
    if steps != [] {
      RunContinues(cfg, l, steps[..|steps| - 1]);
      StepContinues(cfg, Run(cfg, l, steps[..|steps| - 1]), steps[|steps| - 1]);
    }
  }

  /** Exactly-once evidence over whole runs. An intent committed at some point is, at every
      later point, still in the outbox, as it was first committed under its ID; that ID is in
      the chain at most once; and once marked dispatched it is there exactly once, at the
      recorded sequence. */
  lemma ExactlyOnce(cfg: Config, version: Text, before: seq<Step>, intent: Intent, after: seq<Step>)
    requires Usable(cfg.keys, version)
    requires intent.Valid(cfg)
    ensures
      var rows := Run(cfg, Start(cfg, version), before).outbox;
      var l := Run(cfg, Run(cfg, Start(cfg, version), before + [Enqueue(intent)]), after);
      var id := intent.eventID;
      && id in l.outbox && l.outbox[id].intent == (if id in rows then rows[id].intent else intent)
      && Occurrences(l.chain.events, cfg.safe(id)) <= 1
      && (l.outbox[id].dispatchedAt.Some? ==>
            && Occurrences(l.chain.events, cfg.safe(id)) == 1
            && 1 <= l.outbox[id].chainSequence <= |l.chain.events|
            && l.chain.events[l.outbox[id].chainSequence - 1].content.eventID == cfg.safe(id))
  {
    hide Run, Verifies, Unique, Occurrences, Appended, Rotated, Delivered, Acknowledged;
    var l0 := Run(cfg, Start(cfg, version), before);
    RunExtends(cfg, Start(cfg, version), before, Enqueue(intent));
    var l1 := Next(cfg, l0, Enqueue(intent));
    var l := Run(cfg, l1, after);
    RunContinues(cfg, l1, after);
    EveryRunSound(cfg, version, before);
    StepSound(cfg, l0, Enqueue(intent));
    SoundRun(cfg, l1, after);
    UniqueOccurs(l.chain.events, cfg.safe(intent.eventID));
  }

  lemma {:induction false} SoundRun(cfg: Config, l: Ledger, steps: seq<Step>)
    requires Sound(cfg, l)
    ensures Sound(cfg, Run(cfg, l, steps))
  {
    if steps != [] {
      SoundRun(cfg, l, steps[..|steps| - 1]);
      StepSound(cfg, Run(cfg, l, steps[..|steps| - 1]), steps[|steps| - 1]);
    }
  }

  // --- Whose evidence it is --------------------------------------------------

  /** The event recorded under a row's ID tells that row's story. */
  ghost predicate Telling(cfg: Config, l: Ledger, id: Text)
    requires id in l.outbox
  {
    Recorded(l.chain.events, cfg.safe(id)) ==>
      var e := l.chain.events[IndexOf(l.chain.events, cfg.safe(id))].content;
      Tells(cfg, e, l.outbox[id].intent)
  }

  /** One delivery of the flush loop: append, then acknowledge. */
  function Dispatched(cfg: Config, l: Ledger, id: Text, at: Time): Ledger {
    Acknowledged(cfg, Delivered(cfg, l, id), id, at)
  }

  lemma DispatchedMarks(cfg: Config, l: Ledger, id: Text, at: Time)
    requires Sound(cfg, l) && id in l.outbox && l.outbox[id].dispatchedAt == None
    ensures Recorded(Delivered(cfg, l, id).chain.events, cfg.safe(id))
    ensures Dispatched(cfg, l, id, at).chain == Delivered(cfg, l, id).chain
    ensures id in Dispatched(cfg, l, id, at).outbox
    ensures Dispatched(cfg, l, id, at).outbox[id].dispatchedAt == Some(at)
    ensures Dispatched(cfg, l, id, at).outbox == l.outbox[id := Dispatched(cfg, l, id, at).outbox[id]]
    ensures Recorded(l.chain.events, cfg.safe(id)) ==> Delivered(cfg, l, id) == l
  {
    AppendSound(cfg, l, EventOf(cfg, l.outbox[id].intent, l.current), l.current);
  }

  /** IDs stay apart: the premise under which every recorded row tells its own story. */
  ghost predicate Apart(cfg: Config, l: Ledger, step: Step) {
    match step
    case Enqueue(i) =>
      i.eventID in l.outbox ||
      (!Recorded(l.chain.events, cfg.safe(i.eventID)) && forall id :: id in l.outbox ==>
       cfg.safe(id) != cfg.safe(i.eventID))
    case Record(c) => forall id :: id in l.outbox ==> cfg.safe(id) != c.eventID
    case Rotate(_, rid, _) => forall id :: id in l.outbox ==> cfg.safe(id) != rid
    case RotateDoubted(_, rid, _) => forall id :: id in l.outbox ==> cfg.safe(id) != rid
    case _ => true
  }

  ghost predicate AllTelling(cfg: Config, l: Ledger) {
    && (forall id :: id in l.outbox ==> Telling(cfg, l, id))
    && (forall a, b :: a in l.outbox && b in l.outbox && a != b ==> cfg.safe(a) != cfg.safe(b))
  }

  lemma AppendTelling(cfg: Config, l: Ledger, c: Content, id: Text)
    requires Sound(cfg, l) && id in l.outbox && Telling(cfg, l, id)
    requires cfg.safe(id) == c.eventID ==> Tells(cfg, c, l.outbox[id].intent)
    ensures Telling(cfg, l.(chain := Append(cfg.suite, cfg.keys, l.chain, c)), id)
  {
    if !Recorded(l.chain.events, c.eventID) {
      var e := Extend(cfg.suite, cfg.keys, l.chain, c).events[|l.chain.events|];
      IndexOfStable(l.chain.events, e, cfg.safe(id));
      if cfg.safe(id) != c.eventID && IndexOf(l.chain.events, cfg.safe(id)) < 0 {
        assert (l.chain.events + [e])[..|l.chain.events|] == l.chain.events;
      }
    }
  }

  lemma AllAppendTelling(cfg: Config, l: Ledger, c: Content)
    requires Sound(cfg, l) && AllTelling(cfg, l)
    requires forall id :: id in l.outbox && cfg.safe(id) == c.eventID ==> Tells(cfg, c, l.outbox[id].intent)
    ensures AllTelling(cfg, Appended(cfg, l, c))
  {
    forall id | id in l.outbox ensures Telling(cfg, Appended(cfg, l, c), id) {
      AppendTelling(cfg, l, c, id);
    }
  }

  /** Marking rows leaves every story as it was. */
  lemma MarkingTelling(cfg: Config, l: Ledger, marked: Ledger)
    requires AllTelling(cfg, l) && marked.chain == l.chain && marked.outbox.Keys == l.outbox.Keys
    requires forall id :: id in l.outbox ==> marked.outbox[id].intent == l.outbox[id].intent
    ensures AllTelling(cfg, marked)
  {
    forall id | id in marked.outbox ensures Telling(cfg, marked, id) { assert Telling(cfg, l, id); }
  }

  lemma EnqueuedTelling(cfg: Config, l: Ledger, i: Intent)
    requires AllTelling(cfg, l) && Apart(cfg, l, Enqueue(i))
    ensures AllTelling(cfg, Enqueued(cfg, l, i))
  {
    var l' := Enqueued(cfg, l, i);
    forall id | id in l'.outbox ensures Telling(cfg, l', id) {
      if id in l.outbox { assert Telling(cfg, l, id); }
    }
  }

  lemma RotatedTelling(cfg: Config, l: Ledger, version: Text, rid: Text, at: Time)
    requires Sound(cfg, l) && AllTelling(cfg, l) && Apart(cfg, l, Rotate(version, rid, at))
    ensures AllTelling(cfg, Rotated(cfg, l, version, rid, at)) &&
            AllTelling(cfg, RotationDoubted(cfg, l, version, rid, at))
  {
    if Rotates(cfg, l, version) {
      AllAppendTelling(cfg, l, RotationEvent(rid, at, l.current, version));
      MarkingTelling(cfg, RotationDoubted(cfg, l, version, rid, at), Rotated(cfg, l, version, rid, at));
    }
  }

  /** What is delivered tells every row whose ID sanitises to its own: that row alone. */
  lemma DeliveryTells(cfg: Config, l: Ledger, d: Text)
    requires Sound(cfg, l) && AllTelling(cfg, l) && d in l.outbox
    ensures
      var c := EventOf(cfg, l.outbox[d].intent, l.current);
      forall id :: id in l.outbox && cfg.safe(id) == c.eventID ==> Tells(cfg, c, l.outbox[id].intent)
  {
    EventTells(cfg, l.outbox[d].intent, l.current);
    hide Tells, EventOf, Telling;
  }

  lemma StepTelling(cfg: Config, l: Ledger, step: Step)
    requires Sound(cfg, l) && AllTelling(cfg, l) && Apart(cfg, l, step)
    ensures AllTelling(cfg, Next(cfg, l, step))
  {
    hide Sound, Tells, Telling, Recorded, EventOf, AllTelling, Rotated, RotationDoubted, Enqueued;
    match step
    case Enqueue(i) => EnqueuedTelling(cfg, l, i);
    case Record(c) => AllAppendTelling(cfg, l, c.(keyVersion := l.current));
    case Rotate(version, rid, at) => RotatedTelling(cfg, l, version, rid, at);
    case RotateDoubted(version, rid, at) => RotatedTelling(cfg, l, version, rid, at);
    case Resume(configured) => MarkingTelling(cfg, l, Resumed(cfg, l, configured));
    case Deliver(d) =>
      if d in l.outbox {
        DeliveryTells(cfg, l, d);
        AllAppendTelling(cfg, l, EventOf(cfg, l.outbox[d].intent, l.current));
      }
    case Acknowledge(id, at) => MarkingTelling(cfg, l, Acknowledged(cfg, l, id, at));
    case NoteFailure(id) => MarkingTelling(cfg, l, FailureNoted(l, id));
  }

  ghost predicate RunApart(cfg: Config, l: Ledger, steps: seq<Step>) {
    forall i :: 0 <= i < |steps| ==> Apart(cfg, Run(cfg, l, steps[..i]), steps[i])
  }

  /** While IDs stay apart, the event recorded for each committed intent carries exactly
      that intent's sanitised fields. */
  lemma {:induction false} EvidenceIsTheIntents(cfg: Config, version: Text, steps: seq<Step>)
    requires Usable(cfg.keys, version) && RunApart(cfg, Start(cfg, version), steps)
    ensures AllTelling(cfg, Run(cfg, Start(cfg, version), steps))
  {
    if steps != [] {
      var n := |steps| - 1;
      forall i | 0 <= i < n ensures Apart(cfg, Run(cfg, Start(cfg, version), steps[..n][..i]), steps[..n][i]) {
        assert steps[..n][..i] == steps[..i];
      }
      EvidenceIsTheIntents(cfg, version, steps[..n]);
      EveryRunSound(cfg, version, steps[..n]);
      StepTelling(cfg, Run(cfg, Start(cfg, version), steps[..n]), steps[n]);
    }
  }

  // --- When evidence is lost -------------------------------------------------

  /** What they have to say is the same. */
  predicate Alike(cfg: Config, a: Intent, b: Intent) {
    && a.occurredAt == b.occurredAt
    && cfg.safe(a.actorType) == cfg.safe(b.actorType) && cfg.safe(a.actorID) == cfg.safe(b.actorID)
    && cfg.safe(a.action) == cfg.safe(b.action) && cfg.safe(a.resourceType) == cfg.safe(b.resourceType)
    && cfg.safe(a.resourceID) == cfg.safe(b.resourceID) && cfg.safe(a.outcome) == cfg.safe(b.outcome)
    && cfg.safe(a.reasonCode) == cfg.safe(b.reasonCode) && cfg.safe(a.correlationID) == cfg.safe(b.correlationID)
    && cfg.safe(a.fromState) == cfg.safe(b.fromState) && cfg.safe(a.toState) == cfg.safe(b.toState)
  }

  /** Different IDs that sanitise to one, with different things to say. */
  predicate Clash(cfg: Config, a: Intent, b: Intent) {
    && a.Valid(cfg) && b.Valid(cfg) && a.eventID != b.eventID
    && cfg.safe(a.eventID) == cfg.safe(b.eventID) && !Alike(cfg, a, b)
  }

  /** Events that tell one and the other agree exactly when the two have the same to say. */
  lemma AlikeTells(cfg: Config, a: Intent, b: Intent, c: Content)
    requires cfg.safe(a.eventID) == cfg.safe(b.eventID) && Tells(cfg, c, a)
    ensures Tells(cfg, c, b) <==> Alike(cfg, a, b)
  {}

  /** Only these intents are committed, and nothing else is recorded under their IDs. */
  predicate OnlyThese(cfg: Config, steps: seq<Step>, intents: set<Intent>) {
    forall k :: 0 <= k < |steps| ==> Among(cfg, steps[k], intents)
  }

  predicate Among(cfg: Config, step: Step, intents: set<Intent>) {
    match step
    case Enqueue(i) => i in intents
    case Record(c) => forall i :: i in intents ==> cfg.safe(i.eventID) != c.eventID
    case Rotate(_, rid, _) => forall i :: i in intents ==> cfg.safe(i.eventID) != rid
    case RotateDoubted(_, rid, _) => forall i :: i in intents ==> cfg.safe(i.eventID) != rid
    case _ => true
  }

  /** Some committed intent is marked dispatched while the chain tells another story. */
  ghost predicate EvidenceLost(cfg: Config, l: Ledger) {
    exists id :: id in l.outbox && l.outbox[id].dispatchedAt.Some? && !Telling(cfg, l, id)
  }

  /** The row holds one of these intents, as it was accepted, and tells its story. */
  ghost predicate RowTold(cfg: Config, l: Ledger, intents: set<Intent>, id: Text)
    requires id in l.outbox
  {
    var i := l.outbox[id].intent;
    i in intents && i.Valid(cfg) && i.eventID == id && Telling(cfg, l, id)
  }

  /** What is recorded under the intent's ID is some row's. */
  ghost predicate TakenByRow(cfg: Config, l: Ledger, i: Intent) {
    Recorded(l.chain.events, cfg.safe(i.eventID)) ==> exists id :: id in l.outbox && cfg.safe(id) == cfg.safe(i.eventID)
  }

  ghost predicate Told(cfg: Config, l: Ledger, intents: set<Intent>) {
    && (forall id :: id in l.outbox ==> RowTold(cfg, l, intents, id))
    && (forall i :: i in intents ==> TakenByRow(cfg, l, i))
  }

  ghost predicate NoClash(cfg: Config, intents: set<Intent>) {
    forall a, b :: a in intents && b in intents ==> !Clash(cfg, a, b)
  }

  lemma AppendRecords(cfg: Config, l: Ledger, c: Content, id: Text)
    ensures Recorded(Appended(cfg, l, c).chain.events, id) ==> Recorded(l.chain.events, id) || id == c.eventID
  {
    if !Recorded(l.chain.events, c.eventID) {
      var e := Extend(cfg.suite, cfg.keys, l.chain, c).events[|l.chain.events|];
      assert (l.chain.events + [e])[..|l.chain.events|] == l.chain.events;
    }
  }

  /** An append under a foreign ID, or of a row's own story. */
  lemma AppendTold(cfg: Config, l: Ledger, c: Content, intents: set<Intent>)
    requires Sound(cfg, l) && Told(cfg, l, intents)
    requires forall id :: id in l.outbox && cfg.safe(id) == c.eventID ==> Tells(cfg, c, l.outbox[id].intent)
    requires forall i :: i in intents && cfg.safe(i.eventID) == c.eventID ==>
               exists id :: id in l.outbox && cfg.safe(id) == c.eventID
    ensures Told(cfg, Appended(cfg, l, c), intents)
  {
    hide Sound, EventOf, Append, Recorded, Telling, Tells;
    var l' := Appended(cfg, l, c);
    forall id | id in l.outbox ensures RowTold(cfg, l', intents, id) {
      assert RowTold(cfg, l, intents, id);
      AppendTelling(cfg, l, c, id);
    }
    forall i | i in intents ensures TakenByRow(cfg, l', i) {
      assert TakenByRow(cfg, l, i);
      AppendRecords(cfg, l, c, cfg.safe(i.eventID));
    }
    hide RowTold, TakenByRow;
  }

  /** A new row whose ID is taken: what is recorded is the other row's story, and its own. */
  lemma TakenTold(cfg: Config, l: Ledger, i: Intent, other: Text)
    requires other in l.outbox && Telling(cfg, l, other) && cfg.safe(other) == cfg.safe(i.eventID)
    requires l.outbox[other].intent.eventID == other
    requires Recorded(l.chain.events, cfg.safe(i.eventID)) && Alike(cfg, l.outbox[other].intent, i)
    ensures Tells(cfg, l.chain.events[IndexOf(l.chain.events, cfg.safe(i.eventID))].content, i)
  {
    hide Tells, Alike;
    AlikeTells(cfg, l.outbox[other].intent, i,
               l.chain.events[IndexOf(l.chain.events, cfg.safe(i.eventID))].content);
  }

  lemma NewRowTold(cfg: Config, l: Ledger, i: Intent, intents: set<Intent>)
    requires Told(cfg, l, intents) && NoClash(cfg, intents) && i in intents && i.Valid(cfg) && i.eventID !in l.outbox
    ensures RowTold(cfg, Enqueued(cfg, l, i), intents, i.eventID)
  {
    hide Tells, Alike, Recorded;
    assert TakenByRow(cfg, l, i);
    if Recorded(l.chain.events, cfg.safe(i.eventID)) {
      var other :| other in l.outbox && cfg.safe(other) == cfg.safe(i.eventID);
      assert RowTold(cfg, l, intents, other) && !Clash(cfg, l.outbox[other].intent, i);
      hide Told, NoClash;
      TakenTold(cfg, l, i, other);
    }
  }

  lemma EnqueueTold(cfg: Config, l: Ledger, i: Intent, intents: set<Intent>)
    requires Told(cfg, l, intents) && NoClash(cfg, intents) && i in intents
    ensures Told(cfg, Enqueued(cfg, l, i), intents)
  {
    hide NoClash, EventOf, Recorded;
    if i.Valid(cfg) && i.eventID !in l.outbox {
      NewRowTold(cfg, l, i, intents);
      OtherRowsTold(cfg, l, Enqueued(cfg, l, i), intents);
      hide RowTold, TakenByRow;
    }
  }

  /** Rows that stay as they are, over the same chain. */
  lemma OtherRowsTold(cfg: Config, l: Ledger, l': Ledger, intents: set<Intent>)
    requires Told(cfg, l, intents) && l'.chain == l.chain
    requires forall id :: id in l.outbox ==> id in l'.outbox && l'.outbox[id].intent == l.outbox[id].intent
    ensures forall id :: id in l.outbox ==> RowTold(cfg, l', intents, id)
    ensures forall i :: i in intents ==> TakenByRow(cfg, l', i)
  {
    hide EventOf, Recorded;
    forall id | id in l.outbox ensures RowTold(cfg, l', intents, id) { assert RowTold(cfg, l, intents, id); }
    forall i | i in intents ensures TakenByRow(cfg, l', i) { assert TakenByRow(cfg, l, i); }
  }

  lemma DeliverTold(cfg: Config, l: Ledger, id: Text, intents: set<Intent>)
    requires Sound(cfg, l) && Told(cfg, l, intents) && NoClash(cfg, intents) && id in l.outbox
    ensures Told(cfg, Delivered(cfg, l, id), intents)
  {
    hide Sound, EventOf, Tells, Alike, Telling;
    var c := EventOf(cfg, l.outbox[id].intent, l.current);
    EventTells(cfg, l.outbox[id].intent, l.current);
    forall other | other in l.outbox && cfg.safe(other) == c.eventID
      ensures Tells(cfg, c, l.outbox[other].intent)
    {
      assert RowTold(cfg, l, intents, id) && RowTold(cfg, l, intents, other);
      assert !Clash(cfg, l.outbox[id].intent, l.outbox[other].intent);
      if other != id { AlikeTells(cfg, l.outbox[id].intent, l.outbox[other].intent, c); }
    }
    assert cfg.safe(id) == c.eventID by { assert RowTold(cfg, l, intents, id); }
    hide Told, NoClash;
    AppendTold(cfg, l, c, intents);
  }

  lemma MarkedTold(cfg: Config, l: Ledger, marked: Ledger, intents: set<Intent>)
    requires Told(cfg, l, intents) && marked.chain == l.chain && marked.outbox.Keys == l.outbox.Keys
    requires forall id :: id in l.outbox ==> marked.outbox[id].intent == l.outbox[id].intent
    ensures Told(cfg, marked, intents)
  {
    hide RowTold, TakenByRow;
    OtherRowsTold(cfg, l, marked, intents);
  }

  lemma RotatedTold(cfg: Config, l: Ledger, version: Text, rid: Text, at: Time, intents: set<Intent>)
    requires Sound(cfg, l) && Told(cfg, l, intents) && Among(cfg, Rotate(version, rid, at), intents)
    ensures Told(cfg, Rotated(cfg, l, version, rid, at), intents)
    ensures Told(cfg, RotationDoubted(cfg, l, version, rid, at), intents)
  {
    hide Sound, EventOf;
    if Rotates(cfg, l, version) {
      var l1 := RotationDoubted(cfg, l, version, rid, at);
      AppendTold(cfg, l, RotationEvent(rid, at, l.current, version), intents);
      hide Told;
      MarkedTold(cfg, l1, l1.(current := version), intents);
    }
  }

  lemma StepTold(cfg: Config, l: Ledger, step: Step, intents: set<Intent>)
    requires Sound(cfg, l) && Told(cfg, l, intents) && NoClash(cfg, intents) && Among(cfg, step, intents)
    ensures Told(cfg, Next(cfg, l, step), intents)
  {
    hide Sound, NoClash, Telling, Recorded, EventOf, Rotated, RotationDoubted, Enqueued, Appended;
    match step
    case Enqueue(i) => EnqueueTold(cfg, l, i, intents);
    case Record(c) => AppendTold(cfg, l, c.(keyVersion := l.current), intents);
    case Rotate(version, rid, at) => RotatedTold(cfg, l, version, rid, at, intents);
    case RotateDoubted(version, rid, at) => RotatedTold(cfg, l, version, rid, at, intents);
    case Resume(configured) => MarkedTold(cfg, l, Resumed(cfg, l, configured), intents);
    case Deliver(d) => if d in l.outbox { DeliverTold(cfg, l, d, intents); }
    case Acknowledge(id, at) => MarkedTold(cfg, l, Acknowledged(cfg, l, id, at), intents);
    case NoteFailure(id) => MarkedTold(cfg, l, FailureNoted(l, id), intents);
  }

  lemma {:induction false} RunTold(cfg: Config, version: Text, steps: seq<Step>, intents: set<Intent>)
    requires Usable(cfg.keys, version) && OnlyThese(cfg, steps, intents) && NoClash(cfg, intents)
    ensures Told(cfg, Run(cfg, Start(cfg, version), steps), intents)
  {
    hide Told, NoClash, Among, Sound, Next;
    if steps == [] {
      ToldAtStart(cfg, version, intents);
    } else {
      var n := |steps| - 1;
      RunTold(cfg, version, steps[..n], intents);
      EveryRunSound(cfg, version, steps[..n]);
      assert Among(cfg, steps[n], intents);
      StepTold(cfg, Run(cfg, Start(cfg, version), steps[..n]), steps[n], intents);
    }
  }

  lemma ToldAtStart(cfg: Config, version: Text, intents: set<Intent>)
    ensures Told(cfg, Start(cfg, version), intents)
  {
    hide RowTold;
  }

  /** Commit both, deliver both. */
  function BothDelivered(a: Intent, b: Intent, at: Time): seq<Step> {
    [Enqueue(a), Enqueue(b), Deliver(a.eventID), Acknowledge(a.eventID, at), Deliver(b.eventID),
     Acknowledge(b.eventID, at)]
  }

  lemma SixSteps(cfg: Config, l: Ledger, a: Intent, b: Intent, at: Time)
    ensures Run(cfg, l, BothDelivered(a, b, at))
         == Dispatched(cfg, Dispatched(cfg, Enqueued(cfg, Enqueued(cfg, l, a), b), a.eventID, at), b.eventID, at)
  {
    hide Enqueued, Delivered, Acknowledged;
    var all := BothDelivered(a, b, at);
    assert all[..0] == [] && all[..1] == [] + [all[0]] && all[..2] == all[..1] + [all[1]] &&
           all[..3] == all[..2] + [all[2]];
    assert all[..4] == all[..3] + [all[3]] && all[..5] == all[..4] + [all[4]] && all == all[..5] + [all[5]];
    RunExtends(cfg, l, [], all[0]);
    RunExtends(cfg, l, all[..1], all[1]);
    RunExtends(cfg, l, all[..2], all[2]);
    RunExtends(cfg, l, all[..3], all[3]);
    RunExtends(cfg, l, all[..4], all[4]);
    RunExtends(cfg, l, all[..5], all[5]);
  }

  /** With IDs that clash, both rows end up marked dispatched and the chain holds one event,
      the first intent's. */
  lemma ClashLoses(cfg: Config, version: Text, a: Intent, b: Intent, at: Time)
    requires Usable(cfg.keys, version) && Clash(cfg, a, b)
    ensures
      var l := Run(cfg, Start(cfg, version), BothDelivered(a, b, at));
      && |l.chain.events| == 1 && Tells(cfg, l.chain.events[0].content, a)
      && a.eventID in l.outbox && l.outbox[a.eventID].dispatchedAt == Some(at)
      && b.eventID in l.outbox && l.outbox[b.eventID].dispatchedAt == Some(at)
      && l.outbox[b.eventID].intent == b && !Telling(cfg, l, b.eventID)
  {
    var l0 := Enqueued(cfg, Enqueued(cfg, Start(cfg, version), a), b);
    SixSteps(cfg, Start(cfg, version), a, b, at);
    EveryRunSound(cfg, version, []);
    StepSound(cfg, Start(cfg, version), Enqueue(a));
    StepSound(cfg, Enqueued(cfg, Start(cfg, version), a), Enqueue(b));
    assert l0.outbox == map[a.eventID := Row(a, None, 0, 0, false), b.eventID := Row(b, None, 0, 0, false)];
    assert l0.chain.events == [] && l0.current == version;
    hide Sound, Enqueued, Tells;
    ClashDelivered(cfg, l0, a, b, at);
  }

  lemma FirstDelivered(cfg: Config, l: Ledger, a: Intent, at: Time)
    requires Sound(cfg, l) && l.chain.events == [] && a.eventID in l.outbox &&
             l.outbox[a.eventID] == Row(a, None, 0, 0, false)
    requires cfg.safe(a.eventID) != []
    ensures
      var l1 := Dispatched(cfg, l, a.eventID, at);
      && |l1.chain.events| == 1 && Tells(cfg, l1.chain.events[0].content, a) && l1.current == l.current
      && Recorded(l1.chain.events, cfg.safe(a.eventID)) && IndexOf(l1.chain.events, cfg.safe(a.eventID)) == 0
      && a.eventID in l1.outbox && l1.outbox[a.eventID].dispatchedAt == Some(at)
      && l1.outbox == l.outbox[a.eventID := l1.outbox[a.eventID]]
  {
    DispatchedMarks(cfg, l, a.eventID, at);
    var c := EventOf(cfg, a, l.current);
    assert c.eventID == cfg.safe(a.eventID);
    var e := Extend(cfg.suite, cfg.keys, l.chain, c).events[0];
    IndexOfStable([], e, c.eventID);
    assert [] + [e] == [e];
  }

  lemma ClashDelivered(cfg: Config, l: Ledger, a: Intent, b: Intent, at: Time)
    requires Sound(cfg, l) && l.chain.events == [] && Clash(cfg, a, b)
    requires l.outbox == map[a.eventID := Row(a, None, 0, 0, false), b.eventID := Row(b, None, 0, 0, false)]
    ensures
      var l2 := Dispatched(cfg, Dispatched(cfg, l, a.eventID, at), b.eventID, at);
      && |l2.chain.events| == 1 && Tells(cfg, l2.chain.events[0].content, a)
      && a.eventID in l2.outbox && l2.outbox[a.eventID].dispatchedAt == Some(at)
      && b.eventID in l2.outbox && l2.outbox[b.eventID].dispatchedAt == Some(at)
      && l2.outbox[b.eventID].intent == b && !Telling(cfg, l2, b.eventID)
  {
    hide EventOf, Tells, Alike, Append;
    FirstDelivered(cfg, l, a, at);
    var l1 := Dispatched(cfg, l, a.eventID, at);
    StepSound(cfg, l, Deliver(a.eventID));
    AcknowledgedSound(cfg, Delivered(cfg, l, a.eventID), a.eventID, at);
    DispatchedMarks(cfg, l1, b.eventID, at);
    RunContinues(cfg, l1, [Deliver(b.eventID), Acknowledge(b.eventID, at)]);
    var l2 := Dispatched(cfg, l1, b.eventID, at);
    assert l2.chain == l1.chain;
    AlikeTells(cfg, a, b, l1.chain.events[0].content);
  }

  /** Over whole runs, on the IDs alone: committed evidence can be marked dispatched and yet
      be missing from the chain exactly when two of the intents clash. */
  lemma EvidenceLostIff(cfg: Config, version: Text, intents: set<Intent>)
    requires Usable(cfg.keys, version)
    ensures (exists steps :: OnlyThese(cfg, steps, intents) && EvidenceLost(cfg, Run(cfg, Start(cfg, version), steps)))
       <==> (exists a, b :: a in intents && b in intents && Clash(cfg, a, b))
  {
    hide Run, Clash, Told, Among, Telling;
    if steps :| OnlyThese(cfg, steps, intents) && EvidenceLost(cfg, Run(cfg, Start(cfg, version), steps)) {
      if NoClash(cfg, intents) {
        RunTold(cfg, version, steps, intents);
        ToldNotLost(cfg, Run(cfg, Start(cfg, version), steps), intents);
      }
    }
    if a, b :| a in intents && b in intents && Clash(cfg, a, b) {
      ClashLoses(cfg, version, a, b, 0);
      var steps := BothDelivered(a, b, 0);
      assert OnlyThese(cfg, steps, intents) by { BothAreThese(cfg, a, b, intents); }
      assert EvidenceLost(cfg, Run(cfg, Start(cfg, version), steps));
    }
  }

  lemma ToldNotLost(cfg: Config, l: Ledger, intents: set<Intent>)
    requires Told(cfg, l, intents)
    ensures !EvidenceLost(cfg, l)
  {
    hide Telling;
    forall id | id in l.outbox ensures Telling(cfg, l, id) { assert RowTold(cfg, l, intents, id); }
  }

  lemma BothAreThese(cfg: Config, a: Intent, b: Intent, intents: set<Intent>)
    requires a in intents && b in intents
    ensures OnlyThese(cfg, BothDelivered(a, b, 0), intents)
  {}

  /** An intent that says that an action succeeded. */
  function Said(id: string, action: string, at: Time): Intent {
    Intent(Ascii(id), at, Ascii("user"), Ascii("ann"), Ascii(action), Ascii("file"), Ascii("f1"), Ascii("success"),
           [], [], [], [])
  }

  lemma SaidValid(cfg: Config, id: string, word: string, action: string, at: Time)
    requires (forall v :: cfg.safe(v) == Safe(v)) && at != cfg.zero && Word(word) && Word(action)
    requires Safe(Ascii(id)) == Ascii(word)
    ensures Said(id, action, at).Valid(cfg)
    ensures cfg.safe(Said(id, action, at).action) == Ascii(action)
  {
    hide Safe;
    SafeWord(word);
    SafeWord("user");
    SafeWord("file");
    SafeWord("success");
    SafeWord(action);
  }

  /** With the sanitiser in use: two IDs that differ in a leading blank, both accepted by
      `Intent.Validate`, clash. */
  lemma LeadingBlankClashes(cfg: Config, at: Time)
    requires (forall v :: cfg.safe(v) == Safe(v)) && at != cfg.zero
    ensures Clash(cfg, Said("evt_1", "FILE_SHARED", at), Said(" evt_1", "FILE_PURGED", at))
  {
    hide Safe;
    assert " " + "evt_1" == " evt_1";
    SafeWord("evt_1");
    SafeBlankWord("evt_1");
    SaidValid(cfg, "evt_1", "evt_1", "FILE_SHARED", at);
    SaidValid(cfg, " evt_1", "evt_1", "FILE_PURGED", at);
    assert Ascii("evt_1")[0] != Ascii(" evt_1")[0];
    assert Ascii("FILE_SHARED")[5] != Ascii("FILE_PURGED")[5];
    hide Ascii;
  }

  /** So from an empty ledger, in six steps, the chain holds the sharing alone while the
      purge, too, is marked dispatched. */
  lemma LeadingBlankLoses(cfg: Config, version: Text, at: Time)
    requires (forall v :: cfg.safe(v) == Safe(v)) && at != cfg.zero && Usable(cfg.keys, version)
    ensures
      var a, b := Said("evt_1", "FILE_SHARED", at), Said(" evt_1", "FILE_PURGED", at);
      var l := Run(cfg, Start(cfg, version), BothDelivered(a, b, at));
      && |l.chain.events| == 1 && Tells(cfg, l.chain.events[0].content, a)
      && b.eventID in l.outbox && l.outbox[b.eventID].dispatchedAt == Some(at) && !Telling(cfg, l, b.eventID)
  {
    hide Safe, Clash, Run, Tells, Telling, Ascii;
    LeadingBlankClashes(cfg, at);
    ClashLoses(cfg, version, Said("evt_1", "FILE_SHARED", at), Said(" evt_1", "FILE_PURGED", at), at);
  }

  predicate Word(v: string) {
    |v| > 0 && |v| <= MAX_FIELD && forall i :: 0 <= i < |v| ==> '!' <= v[i] <= '~'
  }

  lemma SafeWord(v: string)
    requires Word(v)
    ensures Safe(Ascii(v)) == Ascii(v) != []
  {
    assert !IsSpace(Ascii(v)[0]) && !IsSpace(Ascii(v)[|v| - 1]);
  }

  lemma SafeBlankWord(v: string)
    requires Word(v)
    ensures Safe(Ascii(" " + v)) == Ascii(v)
  {
    assert !IsSpace(Ascii(v)[0]) && !IsSpace(Ascii(v)[|v| - 1]);
    var b := Ascii(" " + v);
    assert IsSpace(b[0]) && b[1..] == Ascii(v);
    assert TrimLeft(b) == TrimLeft(Ascii(v)) == Ascii(v);
  }
}
