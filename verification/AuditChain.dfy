/** The hash-chained audit log: append with event-ID deduplication, verification
    across key versions, and what a verified chain proves about tampering. */
module AuditChain {
  import opened Wrappers
  import opened Framing
  import opened Encodings

  /** The keyed MAC, the frame it covers and the MAC before the first event. The MAC is
      any function: no theorem below assumes it is collision free. */
  datatype Suite = Suite(mac: (Bytes, Bytes) -> Bytes, frame: (int, Bytes, Content) -> Bytes, genesis: Bytes)

  /** The suite in use: the canonical frame, with instants rendered by `clock`. */
  function CanonicalSuite(mac: (Bytes, Bytes) -> Bytes, clock: Clock, genesis: Bytes): Suite {
    Suite(mac, (sequence, previous, c) => MacFrame(clock, sequence, previous, c), genesis)
  }

  ghost predicate Canonical(suite: Suite, clock: Clock) {
    forall s: int, p: Bytes, c: Content :: suite.frame(s, p, c) == MacFrame(clock, s, p, c)
  }

  lemma CanonicalSuiteIsCanonical(mac: (Bytes, Bytes) -> Bytes, clock: Clock, genesis: Bytes)
    ensures Canonical(CanonicalSuite(mac, clock, genesis), clock)
  {}

  type Keyring = map<Text, Bytes>

  datatype Event = Event(sequence: int, content: Content, previousMAC: Bytes, eventMAC: Bytes)

  datatype Checkpoint = Checkpoint(keyVersion: Text, lastSequence: int, lastMAC: Bytes, updatedAt: Time)

  datatype Chain = Chain(events: seq<Event>, checkpoint: Checkpoint)

  const DEFAULT_KEY_VERSION: string := "v1"

  function EmptyChain(suite: Suite): Chain {
    Chain([], Checkpoint(Ascii(DEFAULT_KEY_VERSION), 0, suite.genesis, 0))
  }

  function ComputeMAC(suite: Suite, keys: Keyring, sequence: int, previous: Bytes, c: Content): Bytes {
    var key := if c.keyVersion in keys then keys[c.keyVersion] else [];
    suite.mac(key, suite.frame(sequence, previous, c))
  }

  /** The MAC that event `i` must chain to. */
  function Head(suite: Suite, events: seq<Event>, i: nat): Bytes
    requires i <= |events|
  {
    if i == 0 then suite.genesis else events[i - 1].eventMAC
  }

  // --- Append ----------------------------------------------------------------

  /** The position of the first event with this ID, or -1. */
  function IndexOf(events: seq<Event>, id: Text): (i: int)
    ensures -1 <= i < |events|
    ensures i >= 0 ==> events[i].content.eventID == id
  {
    if events == [] then -1
    else
      var i := IndexOf(events[..|events| - 1], id);
      if i >= 0 then i
      else if events[|events| - 1].content.eventID == id then |events| - 1 else -1
  }

  lemma {:induction false} IndexOfAbsent(events: seq<Event>, id: Text)
    ensures IndexOf(events, id) < 0 <==> forall k :: 0 <= k < |events| ==> events[k].content.eventID != id
  {
    if events != [] { IndexOfAbsent(events[..|events| - 1], id); }
  }

  predicate Recorded(events: seq<Event>, id: Text) { id != [] && IndexOf(events, id) >= 0 }

  function Extend(suite: Suite, keys: Keyring, ch: Chain, c: Content): Chain {
    var sequence := |ch.events| + 1;
    var previous := ch.checkpoint.lastMAC;
    var mac := ComputeMAC(suite, keys, sequence, previous, c);
    Chain(ch.events + [Event(sequence, c, previous, mac)],
          Checkpoint(c.keyVersion, sequence, mac, c.occurredAt))
  }

  /** A known event ID is returned as first recorded; anything else extends the chain. */
  function Append(suite: Suite, keys: Keyring, ch: Chain, c: Content): Chain {
    if Recorded(ch.events, c.eventID) then ch else Extend(suite, keys, ch, c)
  }

  // --- Verification ----------------------------------------------------------

  datatype Category =
    | SequenceDiscontinuity | PreviousMACMismatch | HistoricalKeyUnavailable
    | EventMACMismatch | CheckpointMismatch

  datatype Verification = Verification(
    valid: bool, eventCount: nat, verifiedThrough: int,
    category: Option<Category>, firstInvalidSequence: int)

  /** What is wrong with event `i`, given that it should extend its predecessor. */
  function Fault(suite: Suite, keys: Keyring, events: seq<Event>, i: nat): Option<Category>
    requires i < |events|
  {
    var e := events[i];
    if e.sequence != i + 1 then Some(SequenceDiscontinuity)
    else if e.previousMAC != Head(suite, events, i) then Some(PreviousMACMismatch)
    else if e.content.keyVersion !in keys then Some(HistoricalKeyUnavailable)
    else if e.eventMAC != ComputeMAC(suite, keys, e.sequence, e.previousMAC, e.content) then Some(EventMACMismatch)
    else None
  }

  /** This is the first of the four checks that the event fails, in the place after i others
      that end in this MAC: its sequence counts on from theirs; it chains to that MAC; its key
      is held; and its own MAC is that of its frame under its key. */
  ghost predicate FaultyBy(suite: Suite, keys: Keyring, e: Event, i: nat, previous: Bytes, fault: Option<Category>) {
    match fault
    case Some(SequenceDiscontinuity) => e.sequence != i + 1
    case Some(PreviousMACMismatch) => e.sequence == i + 1 && e.previousMAC != previous
    case Some(HistoricalKeyUnavailable) =>
      e.sequence == i + 1 && e.previousMAC == previous && e.content.keyVersion !in keys
    case Some(EventMACMismatch) =>
      && e.sequence == i + 1 && e.previousMAC == previous && e.content.keyVersion in keys
      && e.eventMAC != suite.mac(keys[e.content.keyVersion], suite.frame(i + 1, previous, e.content))
    case None =>
      && e.sequence == i + 1 && e.previousMAC == previous && e.content.keyVersion in keys
      && e.eventMAC == suite.mac(keys[e.content.keyVersion], suite.frame(i + 1, previous, e.content))
    case _ => false
  }

  lemma FaultIs(suite: Suite, keys: Keyring, events: seq<Event>, i: nat)
    requires i < |events|
    ensures FaultyBy(suite, keys, events[i], i, if i == 0 then suite.genesis else events[i - 1].eventMAC,
                     Fault(suite, keys, events, i))
  {}

  ghost predicate Passes(suite: Suite, keys: Keyring, events: seq<Event>, i: nat)
    requires i < |events|
  {
    FaultyBy(suite, keys, events[i], i, if i == 0 then suite.genesis else events[i - 1].eventMAC, None)
  }

  /** What verification means: every event passes the four checks, and the checkpoint counts
      them all and holds the last one's MAC. */
  lemma VerifiesIff(suite: Suite, keys: Keyring, ch: Chain)
    ensures Verifies(suite, keys, ch) <==>
            && (forall i :: 0 <= i < |ch.events| ==> Passes(suite, keys, ch.events, i))
            && ch.checkpoint.lastSequence == |ch.events|
            && ch.checkpoint.lastMAC == if ch.events == [] then suite.genesis else ch.events[|ch.events| - 1].eventMAC
  {
    forall i | 0 <= i < |ch.events|
      ensures Fault(suite, keys, ch.events, i) == None <==> Passes(suite, keys, ch.events, i)
    {
      FaultIs(suite, keys, ch.events, i);
    }
    hide Passes, Fault;
  }

  ghost predicate Linked(suite: Suite, keys: Keyring, events: seq<Event>) {
    forall i :: 0 <= i < |events| ==> Fault(suite, keys, events, i) == None
  }

  ghost predicate Verifies(suite: Suite, keys: Keyring, ch: Chain) {
    && Linked(suite, keys, ch.events)
    && ch.checkpoint.lastSequence == |ch.events|
    && ch.checkpoint.lastMAC == Head(suite, ch.events, |ch.events|)
  }

  /** Walks the chain once. The report is valid exactly for a chain that verifies, and
      otherwise names the first fault: its position, its kind, and how far trust reached. */
  method Verify(suite: Suite, keys: Keyring, ch: Chain) returns (r: Verification)
    ensures r.eventCount == |ch.events|
    ensures r.valid <==> Verifies(suite, keys, ch)
    ensures r.valid ==> r.category == None && r.verifiedThrough == |ch.events|
    ensures !r.valid ==> 0 <= r.verifiedThrough <= |ch.events|
    ensures !r.valid ==> forall i :: 0 <= i < r.verifiedThrough ==> Fault(suite, keys, ch.events, i) == None
    ensures !r.valid && r.verifiedThrough < |ch.events| ==>
              r.category == Fault(suite, keys, ch.events, r.verifiedThrough) &&
              r.firstInvalidSequence == r.verifiedThrough + 1
    ensures !r.valid && r.verifiedThrough == |ch.events| ==>
              r.category == Some(CheckpointMismatch) &&
              r.firstInvalidSequence == ch.checkpoint.lastSequence
    ensures !r.valid && r.verifiedThrough < |ch.events| ==>
              var i := r.verifiedThrough;
              FaultyBy(suite, keys, ch.events[i], i, if i == 0 then suite.genesis else ch.events[i - 1].eventMAC,
                       r.category)
  {
    forall i | 0 <= i < |ch.events|
      ensures FaultyBy(suite, keys, ch.events[i], i, if i == 0 then suite.genesis else ch.events[i - 1].eventMAC,
                       Fault(suite, keys, ch.events, i))
    {
      FaultIs(suite, keys, ch.events, i);
    }
    var previous := suite.genesis;
    for i := 0 to |ch.events|
      invariant previous == Head(suite, ch.events, i)
      invariant forall k :: 0 <= k < i ==> Fault(suite, keys, ch.events, k) == None
    {
      var e := ch.events[i];
      ghost var fault := Fault(suite, keys, ch.events, i);
      if e.sequence != i + 1 {
        return Verification(false, |ch.events|, i, Some(SequenceDiscontinuity), i + 1);
      }
      if e.previousMAC != previous {
        return Verification(false, |ch.events|, i, Some(PreviousMACMismatch), e.sequence);
      }
      if e.content.keyVersion !in keys {
        return Verification(false, |ch.events|, i, Some(HistoricalKeyUnavailable), e.sequence);
      }
      var expected := ComputeMAC(suite, keys, e.sequence, previous, e.content);
      if e.eventMAC != expected {
        return Verification(false, |ch.events|, i, Some(EventMACMismatch), e.sequence);
      }
      previous := e.eventMAC;
    }
    if ch.checkpoint.lastSequence != |ch.events| || ch.checkpoint.lastMAC != previous {
      return Verification(false, |ch.events|, |ch.events|, Some(CheckpointMismatch), ch.checkpoint.lastSequence);
    }
    return Verification(true, |ch.events|, |ch.events|, None, 0);
  }

  /** Appending under any available key version keeps the whole chain verifiable. */
  lemma ExtendVerifies(suite: Suite, keys: Keyring, ch: Chain, c: Content)
    requires Verifies(suite, keys, ch) && c.keyVersion in keys
    ensures Verifies(suite, keys, Extend(suite, keys, ch, c))
  {
    var next := Extend(suite, keys, ch, c);
    forall i | 0 <= i < |next.events| ensures Fault(suite, keys, next.events, i) == None {
      if i < |ch.events| {
        assert next.events[i] == ch.events[i];
        assert Fault(suite, keys, ch.events, i) == None;
      }
    }
  }

  // --- Tamper evidence -------------------------------------------------------

  /** The message the MAC of an event covers. */
  function MessageOf(suite: Suite, e: Event): Bytes { suite.frame(e.sequence, e.previousMAC, e.content) }

  /** At this position the two lists carry different messages under one MAC, each under the
      ring's key for its own event. */
  predicate CollidesAt(suite: Suite, keys: Keyring, stored: seq<Event>, genuine: seq<Event>, i: nat) {
    && i < |stored| && i < |genuine|
    && stored[i].content.keyVersion in keys && genuine[i].content.keyVersion in keys
    && MessageOf(suite, stored[i]) != MessageOf(suite, genuine[i])
    && suite.mac(keys[stored[i].content.keyVersion], MessageOf(suite, stored[i]))
       == suite.mac(keys[genuine[i].content.keyVersion], MessageOf(suite, genuine[i]))
  }

  /** A stored list that links, is as long as the genuine one and ends in the same MAC
      agrees with it event for event, or at some position the two collide. */
  lemma {:induction false} EqualHeadsEqualChains(
      suite: Suite, clock: Clock, keys: Keyring, stored: seq<Event>, genuine: seq<Event>)
    requires clock.Faithful() && Canonical(suite, clock)
    requires Linked(suite, keys, stored) && Linked(suite, keys, genuine)
    requires |stored| == |genuine| < 0x8000_0000_0000_0000
    requires Head(suite, stored, |stored|) == Head(suite, genuine, |genuine|)
    requires forall i :: 0 <= i < |genuine| ==> Framable(suite, genuine[i])
    ensures stored == genuine || exists i: nat :: CollidesAt(suite, keys, stored, genuine, i)
    decreases |stored|
  {
    hide Canonical, Framable, CollidesAt;
    if |stored| > 0 {
      var n := |stored| - 1;
      EqualMACsEqualEvents(suite, clock, keys, stored, genuine, n);
      if !CollidesAt(suite, keys, stored, genuine, n) {
        LinkedPrefix(suite, keys, stored, n);
        LinkedPrefix(suite, keys, genuine, n);
        EqualHeadsEqualChains(suite, clock, keys, stored[..n], genuine[..n]);
        assert stored == stored[..n] + [stored[n]] && genuine == genuine[..n] + [genuine[n]];
        if i: nat :| CollidesAt(suite, keys, stored[..n], genuine[..n], i) {
          CollidesLater(suite, keys, stored, genuine, n, i);
        }
      }
    }
  }

  lemma CollidesLater(suite: Suite, keys: Keyring, stored: seq<Event>, genuine: seq<Event>, n: nat, i: nat)
    requires n <= |stored| && n <= |genuine| && CollidesAt(suite, keys, stored[..n], genuine[..n], i)
    ensures CollidesAt(suite, keys, stored, genuine, i)
  {}

  /** One position: equal MACs there mean the same event, chained to the same MAC, or a
      collision between the two events there. */
  lemma EqualMACsEqualEvents(
      suite: Suite, clock: Clock, keys: Keyring, stored: seq<Event>, genuine: seq<Event>, n: nat)
    requires clock.Faithful() && Canonical(suite, clock)
    requires n < |stored| && n < |genuine| && n + 1 < 0x8000_0000_0000_0000
    requires Fault(suite, keys, stored, n) == None && Fault(suite, keys, genuine, n) == None
    requires stored[n].eventMAC == genuine[n].eventMAC && Framable(suite, genuine[n])
    ensures CollidesAt(suite, keys, stored, genuine, n)
         || (stored[n] == genuine[n] && Head(suite, stored, n) == Head(suite, genuine, n))
  {
    var s, g := stored[n], genuine[n];
    if MessageOf(suite, s) == MessageOf(suite, g) {
      FrameInjective(clock, n + 1, g.previousMAC, g.content, n + 1, s.previousMAC, s.content);
    }
  }

  /** The event's frame is shorter than 2^32 bytes. Only the genuine events need this: a
      forged frame that equals a genuine one is as short as that one. */
  predicate Framable(suite: Suite, e: Event) {
    Short(suite.frame(e.sequence, e.previousMAC, e.content))
  }

  lemma LinkedPrefix(suite: Suite, keys: Keyring, events: seq<Event>, n: nat)
    requires n <= |events| && Linked(suite, keys, events)
    ensures Linked(suite, keys, events[..n])
    ensures Head(suite, events[..n], n) == Head(suite, events, n)
  {
    forall i | 0 <= i < n ensures Fault(suite, keys, events[..n], i) == None {
      assert Fault(suite, keys, events, i) == None;
    }
  }

  /** Tamper evidence. Whatever an editor of the stored events did, if verification still
      passes against the genuine checkpoint then nothing changed: not an event, a field,
      the order, the length or a network fingerprint. The only way out is that some forged
      event has the very MAC of the genuine one in its place, over another message. */
  lemma TamperEvidence(suite: Suite, clock: Clock, keys: Keyring, stored: Chain, genuine: Chain)
    requires clock.Faithful() && Canonical(suite, clock)
    requires Verifies(suite, keys, genuine) && |genuine.events| < 0x8000_0000_0000_0000
    requires forall i :: 0 <= i < |genuine.events| ==> Framable(suite, genuine.events[i])
    requires stored.checkpoint == genuine.checkpoint
    requires Verifies(suite, keys, stored)
    ensures stored.events == genuine.events || exists i: nat ::
            CollidesAt(suite, keys, stored.events, genuine.events, i)
  {
    EqualHeadsEqualChains(suite, clock, keys, stored.events, genuine.events);
  }

  /** No two messages share a MAC under the ring's keys. */
  ghost predicate CollisionFree(suite: Suite, keys: Keyring) {
    forall v, w, m: Bytes, n: Bytes | v in keys && w in keys :: suite.mac(keys[v], m) == suite.mac(keys[w], n) ==>
        m == n
  }

  /** With a MAC that is free of collisions under the ring's keys, a stored chain verifies
      against the genuine checkpoint only if its events are the genuine ones. */
  lemma NoCollisionNoTampering(suite: Suite, clock: Clock, keys: Keyring, stored: Chain, genuine: Chain)
    requires clock.Faithful() && Canonical(suite, clock) && CollisionFree(suite, keys)
    requires Verifies(suite, keys, genuine) && |genuine.events| < 0x8000_0000_0000_0000
    requires forall i :: 0 <= i < |genuine.events| ==> Framable(suite, genuine.events[i])
    requires stored.checkpoint == genuine.checkpoint
    ensures Verifies(suite, keys, stored) <==> stored.events == genuine.events
  {
    hide Canonical, Framable, Linked;
    if Verifies(suite, keys, stored) {
      TamperEvidence(suite, clock, keys, stored, genuine);
    }
  }
}
