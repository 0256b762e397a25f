/** The four canonical encodings that get authenticated: the audit event and its MAC
    frame, the envelope's additional data, and the external anchor receipt. Each has a
    parser, and the parser recovers every field. Text is bytes, as in Go. */
module Encodings {
  import opened Wrappers
  import opened Framing

  type Text = Bytes

  /** RFC 3339 rendering of an instant and its reading. */
  datatype Clock = Clock(format: Time -> Text, parse: Text -> Time) {
    ghost predicate Faithful() { forall t: Time :: parse(format(t)) == t }
  }

  // --- The audit event -------------------------------------------------------

  datatype Content = Content(
    eventID: Text, occurredAt: Time, actorType: Text, actorID: Text, action: Text,
    resourceType: Text, resourceID: Text, outcome: Text, reasonCode: Text,
    correlationID: Text, fromState: Text, toState: Text, keyVersion: Text,
    networkSource: Text)

  function EventValues(clock: Clock, c: Content): (vs: seq<Text>)
    ensures |vs| == 13
  {
    [c.eventID, clock.format(c.occurredAt), c.actorType, c.actorID, c.action,
     c.resourceType, c.resourceID, c.outcome, c.reasonCode,
     c.correlationID, c.fromState, c.toState, c.keyVersion]
  }

  /** Thirteen fields; the network fingerprint is a fourteenth only when present. */
  function CanonicalEvent(clock: Clock, c: Content): Bytes {
    Fields(EventValues(clock, c)) +
    if c.networkSource != [] then Field(c.networkSource) else []
  }

  function DecodeEvent(clock: Clock, b: Bytes): Option<Content> {
    match ReadFields(b, 13)
    case None => None
    case Some((vs, rest)) =>
      if |vs| != 13 then None
      else
        var base := Content(vs[0], clock.parse(vs[1]), vs[2], vs[3], vs[4], vs[5], vs[6],
                            vs[7], vs[8], vs[9], vs[10], vs[11], vs[12], []);
        if rest == [] then Some(base)
        else match ReadField(rest)
          case Some((network, tail)) =>
            if network != [] && tail == [] then Some(base.(networkSource := network)) else None
          case None => None
  }

  method WriteCanonicalEvent(clock: Clock, c: Content) returns (buffer: Bytes)
    ensures buffer == CanonicalEvent(clock, c)
  {
    buffer := WriteFields(EventValues(clock, c));
    if c.networkSource != [] {
      buffer := buffer + Field(c.networkSource);
    }
  }

  /** Every field fits its own length prefix. */
  predicate FieldsFit(clock: Clock, c: Content) {
    (forall v :: v in EventValues(clock, c) ==> Short(v)) && Short(c.networkSource)
  }

  /** No field of an event is longer than its encoding. */
  lemma EventFieldsShort(clock: Clock, c: Content)
    requires Short(CanonicalEvent(clock, c))
    ensures FieldsFit(clock, c)
  {
    forall i | 0 <= i < 13 ensures Short(EventValues(clock, c)[i]) {
      FieldsBound(EventValues(clock, c), i);
    }
  }

  lemma EventDecodes(clock: Clock, c: Content)
    requires clock.Faithful() && FieldsFit(clock, c)
    ensures DecodeEvent(clock, CanonicalEvent(clock, c)) == Some(c)
  {
    var vs := EventValues(clock, c);
    var rest := if c.networkSource != [] then Field(c.networkSource) else [];
    ReadFieldsRoundTrip(vs, rest);
    if rest != [] {
      ReadFieldRoundTrip(c.networkSource, []);
      assert Field(c.networkSource) + [] == rest;
    }
  }

  /** Read field by field, an event's bytes are these thirteen in this order, and after them
      the network fingerprint if there is one. */
  lemma EventFieldOrder(clock: Clock, c: Content)
    requires FieldsFit(clock, c)
    ensures ReadFields(CanonicalEvent(clock, c), 13)
         == Some(([c.eventID, clock.format(c.occurredAt), c.actorType, c.actorID, c.action, c.resourceType,
                   c.resourceID, c.outcome, c.reasonCode, c.correlationID, c.fromState, c.toState, c.keyVersion],
                  if c.networkSource == [] then [] else Field(c.networkSource)))
  {
    ReadFieldsRoundTrip(EventValues(clock, c), if c.networkSource != [] then Field(c.networkSource) else []);
  }

  // --- The MAC frame ---------------------------------------------------------

  const CHAIN_LABEL: string := "securestore.audit.chain.v2"
  const NETWORK_LABEL: string := "securestore.audit.network.v1"

  /** What the chain MAC covers. */
  function MacFrame(clock: Clock, sequence: int, previous: Bytes, c: Content): Bytes {
    Field(Ascii(CHAIN_LABEL)) + (Int64(sequence) + (Field(previous) + Field(CanonicalEvent(clock, c))))
  }

  /** What the keyed network fingerprint covers, under the same key. */
  function NetworkFrame(address: Text): Bytes {
    Field(Ascii(NETWORK_LABEL)) + Field(address)
  }

  function DecodeFrame(clock: Clock, b: Bytes): Option<(int, Bytes, Content)> {
    match ReadField(b)
    case None => None
    case Some((tag, rest)) =>
      if tag != Ascii(CHAIN_LABEL) || |rest| < 8 then None
      else match ReadFields(rest[8..], 2)
        case None => None
        case Some((vs, tail)) =>
          if |vs| != 2 || tail != [] then None
          else match DecodeEvent(clock, vs[1])
            case None => None
            case Some(c) => Some((ToInt64(rest[..8]), vs[0], c))
  }

  lemma FrameDecodes(clock: Clock, sequence: int, previous: Bytes, c: Content)
    requires clock.Faithful() && FitsInt64(sequence)
    requires Short(MacFrame(clock, sequence, previous, c))
    ensures DecodeFrame(clock, MacFrame(clock, sequence, previous, c)) == Some((sequence, previous, c))
  {
    var event := CanonicalEvent(clock, c);
    var tail := Field(previous) + Field(event);
    ReadFieldRoundTrip(Ascii(CHAIN_LABEL), Int64(sequence) + tail);
    assert (Int64(sequence) + tail)[..8] == Int64(sequence);
    assert (Int64(sequence) + tail)[8..] == tail;
    Int64RoundTrip(sequence);
    assert Fields([previous, event]) + [] == tail by {
      assert [previous, event][1..] == [event];
      assert Fields([event]) == Field(event) + Fields([]) == Field(event);
    }
    ReadFieldsRoundTrip([previous, event], []);
    EventFieldsShort(clock, c);
    EventDecodes(clock, c);
  }

  /** A frame is the chain's label, eight bytes of sequence, the previous MAC and the event. */
  lemma FrameOrder(clock: Clock, sequence: int, previous: Bytes, c: Content)
    requires FitsInt64(sequence) && Short(previous) && Short(CanonicalEvent(clock, c))
    ensures
      var frame := MacFrame(clock, sequence, previous, c);
      && ReadField(frame).Some? && ReadField(frame).value.0 == Ascii("securestore.audit.chain.v2")
      && var rest := ReadField(frame).value.1;
         && |rest| >= 8 && ToInt64(rest[..8]) == sequence
         && ReadFields(rest[8..], 2) == Some(([previous, CanonicalEvent(clock, c)], []))
  {
    var event := CanonicalEvent(clock, c);
    var tail := Field(previous) + Field(event);
    ReadFieldRoundTrip(Ascii(CHAIN_LABEL), Int64(sequence) + tail);
    assert (Int64(sequence) + tail)[..8] == Int64(sequence) && (Int64(sequence) + tail)[8..] == tail;
    Int64RoundTrip(sequence);
    assert Fields([previous, event]) + [] == tail by {
      assert [previous, event][1..] == [event];
      assert Fields([event]) == Field(event) + Fields([]) == Field(event);
    }
    ReadFieldsRoundTrip([previous, event], []);
  }

  /** Two equal frames carry equal fields, even when only one of them is known to be
      short: the other cannot hide a field longer than the frame itself. */
  lemma FrameInjective(clock: Clock, s1: int, p1: Bytes, c1: Content, s2: int, p2: Bytes, c2: Content)
    requires clock.Faithful() && FitsInt64(s1) && FitsInt64(s2)
    requires Short(MacFrame(clock, s1, p1, c1))
    requires MacFrame(clock, s1, p1, c1) == MacFrame(clock, s2, p2, c2)
    ensures s1 == s2 && p1 == p2 && c1 == c2
  {
    FrameDecodes(clock, s1, p1, c1);
    FrameDecodes(clock, s2, p2, c2);
  }

  lemma NetworkFrameOrder(address: Text)
    requires Short(address)
    ensures ReadFields(NetworkFrame(address), 2) == Some(([Ascii("securestore.audit.network.v1"), address], []))
  {
    var vs := [Ascii(NETWORK_LABEL), address];
    assert vs[1..] == [address] && Fields([address]) == Field(address) + Fields([]) == Field(address);
    assert Fields(vs) + [] == NetworkFrame(address);
    ReadFieldsRoundTrip(vs, []);
  }

  /** The chain and the network fingerprint share a key but never a message. */
  lemma FingerprintNeverForgesEvent(clock: Clock, sequence: int, previous: Bytes, c: Content, address: Text)
    ensures MacFrame(clock, sequence, previous, c) != NetworkFrame(address)
  {
    assert |Ascii(CHAIN_LABEL)| == 26 && |Ascii(NETWORK_LABEL)| == 28;
    LabelsSeparate(Ascii(CHAIN_LABEL), Int64(sequence) + (Field(previous) + Field(CanonicalEvent(clock, c))),
                   Ascii(NETWORK_LABEL), Field(address));
  }

  // --- The envelope's additional authenticated data --------------------------

  datatype Envelope = Envelope(
    schemaVersion: Text, algorithm: Text, uploadID: Text, versionID: Text, ownerID: Text,
    plaintextDigest: Text, mediaType: Text, inspectionRecordID: Text, kekID: Text,
    kekVersion: Text, createdAt: Time, plaintextSize: int)

  function EnvelopeValues(clock: Clock, e: Envelope): (vs: seq<Text>)
    ensures |vs| == 11
  {
    [e.schemaVersion, e.algorithm, e.uploadID, e.versionID, e.ownerID, e.plaintextDigest,
     e.mediaType, e.inspectionRecordID, e.kekID, e.kekVersion, clock.format(e.createdAt)]
  }

  function CanonicalAAD(clock: Clock, e: Envelope): Bytes {
    Fields(EnvelopeValues(clock, e)) + Int64(e.plaintextSize)
  }

  method WriteCanonicalAAD(clock: Clock, e: Envelope) returns (output: Bytes)
    ensures output == CanonicalAAD(clock, e)
  {
    output := WriteFields(EnvelopeValues(clock, e));
    output := output + Int64(e.plaintextSize);
  }

  function DecodeAAD(clock: Clock, b: Bytes): Option<Envelope> {
    match ReadFields(b, 11)
    case None => None
    case Some((vs, rest)) =>
      if |vs| != 11 || |rest| != 8 then None
      else Some(Envelope(vs[0], vs[1], vs[2], vs[3], vs[4], vs[5], vs[6], vs[7], vs[8], vs[9],
                         clock.parse(vs[10]), ToInt64(rest)))
  }

  lemma AADDecodes(clock: Clock, e: Envelope)
    requires clock.Faithful() && FitsInt64(e.plaintextSize)
    requires forall v :: v in EnvelopeValues(clock, e) ==> Short(v)
    ensures DecodeAAD(clock, CanonicalAAD(clock, e)) == Some(e)
  {
    var vs := EnvelopeValues(clock, e);
    assert forall i :: 0 <= i < 11 ==> vs[i] in vs;
    ReadFieldsRoundTrip(vs, Int64(e.plaintextSize));
    Int64RoundTrip(e.plaintextSize);
  }

  /** Read field by field, the additional data are these eleven in this order, and eight bytes
      of size. */
  lemma AADFieldOrder(clock: Clock, e: Envelope)
    requires FitsInt64(e.plaintextSize)
    requires forall v :: v in EnvelopeValues(clock, e) ==> Short(v)
    ensures
      var read := ReadFields(CanonicalAAD(clock, e), 11);
      && read.Some?
      && read.value.0 == [e.schemaVersion, e.algorithm, e.uploadID, e.versionID, e.ownerID, e.plaintextDigest,
                          e.mediaType, e.inspectionRecordID, e.kekID, e.kekVersion, clock.format(e.createdAt)]
      && |read.value.1| == 8 && ToInt64(read.value.1) == e.plaintextSize
  {
    ReadFieldsRoundTrip(EnvelopeValues(clock, e), Int64(e.plaintextSize));
    Int64RoundTrip(e.plaintextSize);
  }

  // --- The external anchor receipt -------------------------------------------

  datatype Anchor = Anchor(
    chainID: Text, sequence: int, checkpoint: Text, previousCheckpoint: Text,
    keyVersion: Text, anchoredAt: Time)

  const ANCHOR_LABEL: string := "securestore.audit.external-anchor.v1"

  function CanonicalAnchorReceipt(clock: Clock, a: Anchor): Bytes {
    Fields([Ascii(ANCHOR_LABEL), a.chainID]) + (Int64(a.sequence) +
    Fields([a.checkpoint, a.previousCheckpoint, a.keyVersion, clock.format(a.anchoredAt)]))
  }

  method WriteAnchorReceipt(clock: Clock, a: Anchor) returns (buffer: Bytes)
    ensures buffer == CanonicalAnchorReceipt(clock, a)
  {
    var head := WriteFields([Ascii(ANCHOR_LABEL), a.chainID]);
    var tail := WriteFields([a.checkpoint, a.previousCheckpoint, a.keyVersion, clock.format(a.anchoredAt)]);
    buffer := head + (Int64(a.sequence) + tail);
  }

  function DecodeAnchorReceipt(clock: Clock, b: Bytes): Option<Anchor> {
    match ReadFields(b, 2)
    case None => None
    case Some((head, rest)) =>
      if |head| != 2 || head[0] != Ascii(ANCHOR_LABEL) || |rest| < 8 then None
      else match ReadFields(rest[8..], 4)
        case None => None
        case Some((vs, tail)) =>
          if |vs| != 4 || tail != [] then None
          else Some(Anchor(head[1], ToInt64(rest[..8]), vs[0], vs[1], vs[2], clock.parse(vs[3])))
  }

  /** A receipt is its label and the chain's ID, eight bytes of sequence, and four fields. */
  lemma ReceiptFieldOrder(clock: Clock, a: Anchor)
    requires FitsInt64(a.sequence)
    requires Short(a.chainID) && Short(a.checkpoint) && Short(a.previousCheckpoint) && Short(a.keyVersion)
    requires Short(clock.format(a.anchoredAt))
    ensures
      var head := ReadFields(CanonicalAnchorReceipt(clock, a), 2);
      && head.Some? && head.value.0 == [Ascii("securestore.audit.external-anchor.v1"), a.chainID]
      && var rest := head.value.1;
         && |rest| >= 8 && ToInt64(rest[..8]) == a.sequence
         && ReadFields(rest[8..], 4)
            == Some(([a.checkpoint, a.previousCheckpoint, a.keyVersion, clock.format(a.anchoredAt)], []))
  {
    var vs := [a.checkpoint, a.previousCheckpoint, a.keyVersion, clock.format(a.anchoredAt)];
    var tail := Int64(a.sequence) + Fields(vs);
    ReadFieldsRoundTrip([Ascii(ANCHOR_LABEL), a.chainID], tail);
    assert tail[..8] == Int64(a.sequence) && tail[8..] == Fields(vs) + [];
    Int64RoundTrip(a.sequence);
    ReadFieldsRoundTrip(vs, []);
  }

  lemma AnchorReceiptDecodes(clock: Clock, a: Anchor)
    requires clock.Faithful() && FitsInt64(a.sequence)
    requires Short(a.chainID) && Short(a.checkpoint) && Short(a.previousCheckpoint) && Short(a.keyVersion)
    requires Short(clock.format(a.anchoredAt))
    ensures DecodeAnchorReceipt(clock, CanonicalAnchorReceipt(clock, a)) == Some(a)
  {
    var head := [Ascii(ANCHOR_LABEL), a.chainID];
    var vs := [a.checkpoint, a.previousCheckpoint, a.keyVersion, clock.format(a.anchoredAt)];
    var tail := Int64(a.sequence) + Fields(vs);
    ReadFieldsRoundTrip(head, tail);
    assert tail[..8] == Int64(a.sequence) && tail[8..] == Fields(vs) + [];
    Int64RoundTrip(a.sequence);
    ReadFieldsRoundTrip(vs, []);
  }
}
