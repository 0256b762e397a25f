/** One encrypted version: wrapping of data keys, sealing and opening. Cryptography is
    symbolic: a sealed value opens only under the key, nonce and bound fields it was
    sealed with. */
module Envelope {
  import opened Wrappers
  import opened Framing

  type Key = nat

  const SCHEMA: string := "securestore-envelope-v1"
  const ALGORITHM: string := "AES-256-GCM"

  /** The idempotency boundary of protection. A restore's ID is a digest of its owner, file,
      source and key, so two restores share an ID only when all four agree. */
  datatype OperationID =
    | Upload(id: string)
    | Restore(owner: string, file: string, source: string, key: string)

  /** A data key under a key-encryption key, bound to that key's ID and version. */
  datatype Wrapped = Wrapped(kek: Key, nonce: Bytes, dek: Key, boundID: string, boundVersion: string)

  /** `wrappedDEK` is None once the key has been destroyed. */
  datatype Metadata = Metadata(
    uploadID: OperationID, versionID: string, ownerID: string, blobObject: string,
    schemaVersion: string, algorithm: string, kekID: string, kekVersion: string,
    wrappingKEKID: string, wrappingKEKVersion: string,
    wrappedDEK: Option<Wrapped>, nonce: Bytes, plaintextSize: int, plaintextDigest: string,
    mediaType: string, inspectionRecordID: string, createdAt: Time)

  /** The fields the ciphertext is bound to; their byte encoding determines them. */
  datatype AAD = AAD(
    schemaVersion: string, algorithm: string, uploadID: OperationID, versionID: string,
    ownerID: string, plaintextDigest: string, mediaType: string, inspectionRecordID: string,
    kekID: string, kekVersion: string, createdAt: Time, plaintextSize: int)

  function Bound(m: Metadata): AAD {
    AAD(m.schemaVersion, m.algorithm, m.uploadID, m.versionID, m.ownerID, m.plaintextDigest,
        m.mediaType, m.inspectionRecordID, m.kekID, m.kekVersion, m.createdAt, m.plaintextSize)
  }

  datatype Sealed = Sealed(dek: Key, nonce: Bytes, aad: AAD, plaintext: Bytes)

  type Blobs = map<string, Sealed>

  function Blob(versionID: string): string { versionID + ".ciphertext" }

  // --- The keyring -----------------------------------------------------------

  datatype Keyring = Keyring(id: string, version: string, keys: map<string, Key>)

  predicate ValidRing(ring: Keyring) {
    ring.id != "" && ring.version != "" && ring.version in ring.keys
  }

  function Wrap(ring: Keyring, dek: Key, nonce: Bytes): Wrapped
    requires ValidRing(ring)
  {
    Wrapped(ring.keys[ring.version], nonce, dek, ring.id, ring.version)
  }

  function Unwrap(ring: Keyring, w: Option<Wrapped>, id: string, version: string): Option<Key> {
    if id != ring.id || version !in ring.keys || w == None then None
    else if w.value.kek != ring.keys[version] || w.value.boundID != id || w.value.boundVersion != version then None
    else Some(w.value.dek)
  }

  /** The wrapping identity falls back to the envelope's own when it was never recorded. */
  function WrappingIdentity(m: Metadata): (string, string) {
    if m.wrappingKEKID == "" || m.wrappingKEKVersion == "" then (m.kekID, m.kekVersion)
    else (m.wrappingKEKID, m.wrappingKEKVersion)
  }

  // --- Opening ---------------------------------------------------------------

  datatype StoreError =
    | NotFound | Integrity | InvalidEnvelope | InvalidKey | IdempotencyConflict
    | NotInTrash | LegalHold | RetentionActive | PurgeTooEarly | Database

  /** The size limit and the hexadecimal plaintext digest. */
  datatype Config = Config(maxPlaintext: int, digest: Bytes -> string)

  function LowerChar(c: char): char {
    if 'A' <= c <= 'Z' then (c as int + 32) as char else c
  }

  function Lower(s: string): (r: string)
    ensures |r| == |s|
  {
    seq(|s|, i requires 0 <= i < |s| => LowerChar(s[i]))
  }

  lemma LowerIdempotent(s: string)
    ensures Lower(Lower(s)) == Lower(s)
  {}

  predicate SameFold(a: string, b: string) { Lower(a) == Lower(b) }

  /** Equal, or one letter in its upper and its lower case. */
  ghost predicate SameLetter(a: char, b: char) {
    || a == b
    || ('A' <= a <= 'Z' && 'a' <= b <= 'z' && b as int - 'a' as int == a as int - 'A' as int)
    || ('a' <= a <= 'z' && 'A' <= b <= 'Z' && a as int - 'a' as int == b as int - 'A' as int)
  }

  ghost predicate EqualFold(a: string, b: string) {
    |a| == |b| && forall i :: 0 <= i < |a| ==> SameLetter(a[i], b[i])
  }

  lemma LowerCharIff(a: char, b: char)
    ensures LowerChar(a) == LowerChar(b) <==> SameLetter(a, b)
  {}

  /** Folding tells two strings apart unless they agree letter by letter up to case. */
  lemma SameFoldIff(a: string, b: string)
    ensures SameFold(a, b) <==> EqualFold(a, b)
  {
    forall i | 0 <= i < |a| && i < |b| ensures Lower(a)[i] == Lower(b)[i] <==> SameLetter(a[i], b[i]) {
      LowerCharIff(a[i], b[i]);
    }
    hide SameLetter, LowerChar;
    assert SameFold(a, b) ==> |Lower(a)| == |Lower(b)|;
  }

  /** Lower-case hexadecimal digits. */
  ghost predicate LowerHex(s: string) { forall i :: 0 <= i < |s| ==> '0' <= s[i] <= '9' || 'a' <= s[i] <= 'f' }

  /** A lower-case digest is what any spelling of it is lowered to. */
  lemma LowerOfDigest(digest: string, declared: string)
    requires LowerHex(digest) && SameFold(digest, declared)
    ensures Lower(declared) == digest
  {
    assert Lower(digest) == digest;
  }

  predicate ValidMetadata(cfg: Config, m: Metadata) {
    && m.uploadID != Upload("") && m.versionID != "" && m.ownerID != ""
    && m.blobObject == Blob(m.versionID)
    && m.schemaVersion == SCHEMA && m.algorithm == ALGORITHM
    && 0 < m.plaintextSize <= cfg.maxPlaintext
    && |m.plaintextDigest| == 64 && |m.nonce| == 12 && m.wrappedDEK.Some?
  }

  /** Nothing is returned before the whole ciphertext has been authenticated. */
  function Open(cfg: Config, ring: Keyring, blobs: Blobs, m: Metadata): Result<Bytes, StoreError> {
    if !ValidMetadata(cfg, m) then Failure(InvalidEnvelope)
    else if m.blobObject !in blobs then Failure(Integrity)
    else
      var (id, version) := WrappingIdentity(m);
      match Unwrap(ring, m.wrappedDEK, id, version)
      case None => Failure(Integrity)
      case Some(dek) =>
        var c := blobs[m.blobObject];
        if c.dek != dek || c.nonce != m.nonce || c.aad != Bound(m) then Failure(Integrity)
        else if |c.plaintext| != m.plaintextSize || !SameFold(cfg.digest(c.plaintext), m.plaintextDigest)
        then Failure(Integrity)
        else Success(c.plaintext)
  }

  // --- Protecting ------------------------------------------------------------

  datatype Request = Request(
    uploadID: OperationID, ownerID: string, plaintextDigest: string, mediaType: string,
    inspectionRecordID: string, plaintextSize: int)

  /** The random and clock values one protection draws. */
  datatype Draw = Draw(versionID: string, dek: Key, nonce: Bytes, wrapNonce: Bytes, now: Time)

  predicate ValidDraw(d: Draw) { d.versionID != "" && |d.nonce| == 12 }

  function CheckRequest(cfg: Config, q: Request, source: Bytes): Result<(), StoreError> {
    if q.uploadID == Upload("") || q.ownerID == "" || q.plaintextSize <= 0 || q.plaintextSize > cfg.maxPlaintext ||
        |q.plaintextDigest| != 64
    then Failure(InvalidEnvelope)
    else if |source| != q.plaintextSize || !SameFold(cfg.digest(source), q.plaintextDigest)
    then Failure(Integrity)
    else Success(())
  }

  function NewMetadata(ring: Keyring, q: Request, d: Draw): Metadata
    requires ValidRing(ring)
  {
    Metadata(q.uploadID, d.versionID, q.ownerID, Blob(d.versionID), SCHEMA, ALGORITHM,
             ring.id, ring.version, ring.id, ring.version, Some(Wrap(ring, d.dek, d.wrapNonce)),
             d.nonce, q.plaintextSize, Lower(q.plaintextDigest), q.mediaType, q.inspectionRecordID, d.now)
  }

  function Seal(m: Metadata, dek: Key, source: Bytes): Sealed {
    Sealed(dek, m.nonce, Bound(m), source)
  }

  // --- What keeps a version readable -----------------------------------------

  /** The wrapped key unwraps under the ring, and the object it protects is in place. */
  ghost predicate Intact(cfg: Config, ring: Keyring, blobs: Blobs, m: Metadata) {
    && ValidRing(ring) && ValidMetadata(cfg, m) && m.blobObject in blobs
    && var c := blobs[m.blobObject];
       && c.nonce == m.nonce && c.aad == Bound(m)
       && |c.plaintext| == m.plaintextSize && SameFold(cfg.digest(c.plaintext), m.plaintextDigest)
       && var (id, version) := WrappingIdentity(m);
          && Unwrap(ring, m.wrappedDEK, id, version) == Some(c.dek)
  }

  /** The envelope is well formed and its data key unwraps, whatever became of the object. */
  ghost predicate Unwraps(cfg: Config, ring: Keyring, m: Metadata) {
    && ValidRing(ring) && ValidMetadata(cfg, m)
    && var (id, version) := WrappingIdentity(m);
       Unwrap(ring, m.wrappedDEK, id, version).Some?
  }

  /** Opening an envelope succeeds exactly when it is intact, and then yields what was
      sealed. */
  lemma OpensIffIntact(cfg: Config, ring: Keyring, blobs: Blobs, m: Metadata)
    requires ValidRing(ring)
    ensures Open(cfg, ring, blobs, m).Success? <==> Intact(cfg, ring, blobs, m)
    ensures Intact(cfg, ring, blobs, m) ==> Open(cfg, ring, blobs, m) == Success(blobs[m.blobObject].plaintext)
  {}

  /** What opens: an envelope with every field in order, whose data key is wrapped under a held
      version of its key, beside an object sealed under that data key and that nonce for the
      same metadata, with bytes of the recorded size and digest. Anything else is refused: as
      an invalid envelope when a field is out of order, for its integrity otherwise. */
  lemma OpensIff(cfg: Config, ring: Keyring, blobs: Blobs, m: Metadata)
    ensures
      var inOrder :=
        && m.uploadID != Upload("") && m.versionID != "" && m.ownerID != ""
        && m.blobObject == m.versionID + ".ciphertext"
        && m.schemaVersion == "securestore-envelope-v1" && m.algorithm == "AES-256-GCM"
        && 1 <= m.plaintextSize <= cfg.maxPlaintext
        && |m.plaintextDigest| == 64 && |m.nonce| == 12 && m.wrappedDEK.Some?;
      && (Open(cfg, ring, blobs, m) == Failure(InvalidEnvelope) <==> !inOrder)
      && (Open(cfg, ring, blobs, m).Success? <==>
          && inOrder && m.blobObject in blobs
          && Unwrapped(ring, m, blobs[m.blobObject].dek)
          && blobs[m.blobObject].nonce == m.nonce && AgreesWith(m, blobs[m.blobObject].aad)
          && |blobs[m.blobObject].plaintext| == m.plaintextSize
          && EqualFold(cfg.digest(blobs[m.blobObject].plaintext), m.plaintextDigest))
      && (Open(cfg, ring, blobs, m).Success? ==>
            Open(cfg, ring, blobs, m).value == blobs[m.blobObject].plaintext)
      && (Open(cfg, ring, blobs, m).Failure? ==>
            Open(cfg, ring, blobs, m).error == InvalidEnvelope || Open(cfg, ring, blobs, m).error == Integrity)
  {
    if m.blobObject in blobs {
      SameFoldIff(cfg.digest(blobs[m.blobObject].plaintext), m.plaintextDigest);
    }
    hide SameFold, EqualFold;
  }

  /** The data key is wrapped under a version of this very key: the one recorded for the
      wrapping, or the envelope's own where none was recorded. */
  ghost predicate Unwrapped(ring: Keyring, m: Metadata, dek: Key) {
    var own := m.wrappingKEKID == "" || m.wrappingKEKVersion == "";
    var id := if own then m.kekID else m.wrappingKEKID;
    var version := if own then m.kekVersion else m.wrappingKEKVersion;
    && m.wrappedDEK.Some? && id == ring.id && version in ring.keys
    && m.wrappedDEK.value.kek == ring.keys[version]
    && m.wrappedDEK.value.boundID == id && m.wrappedDEK.value.boundVersion == version
    && m.wrappedDEK.value.dek == dek
  }

  ghost predicate AgreesWith(m: Metadata, aad: AAD) {
    && aad.schemaVersion == m.schemaVersion && aad.algorithm == m.algorithm && aad.uploadID == m.uploadID
    && aad.versionID == m.versionID && aad.ownerID == m.ownerID && aad.plaintextDigest == m.plaintextDigest
    && aad.mediaType == m.mediaType && aad.inspectionRecordID == m.inspectionRecordID
    && aad.kekID == m.kekID && aad.kekVersion == m.kekVersion
    && aad.createdAt == m.createdAt && aad.plaintextSize == m.plaintextSize
  }

  /** What a request must meet: every field in order, and source bytes of the declared size and,
      up to the case of its letters, digest. */
  lemma RequestAcceptedIff(cfg: Config, q: Request, source: Bytes)
    ensures
      var inOrder := q.uploadID != Upload("") && q.ownerID != "" && 1 <= q.plaintextSize <= cfg.maxPlaintext &&
                     |q.plaintextDigest| == 64;
      var matches := |source| == q.plaintextSize && EqualFold(cfg.digest(source), q.plaintextDigest);
      CheckRequest(cfg, q, source)
      == if !inOrder then Failure(InvalidEnvelope) else if !matches then Failure(Integrity) else Success(())
  {
    SameFoldIff(cfg.digest(source), q.plaintextDigest);
    hide SameFold, EqualFold;
  }

  /** What is recorded of an accepted request: its fields and the draws under their names, the
      keys of the ring, and its digest, in lower case, which where digests are in lower-case
      hexadecimal is the digest of the bytes that were sealed. */
  lemma RecordedFields(cfg: Config, ring: Keyring, q: Request, source: Bytes, d: Draw)
    requires ValidRing(ring) && CheckRequest(cfg, q, source).Success?
    ensures
      var m := NewMetadata(ring, q, d);
      && m.uploadID == q.uploadID && m.versionID == d.versionID && m.ownerID == q.ownerID
      && m.blobObject == d.versionID + ".ciphertext"
      && m.schemaVersion == "securestore-envelope-v1" && m.algorithm == "AES-256-GCM"
      && m.kekID == ring.id == m.wrappingKEKID && m.kekVersion == ring.version == m.wrappingKEKVersion
      && m.wrappedDEK == Some(Wrapped(ring.keys[ring.version], d.wrapNonce, d.dek, ring.id, ring.version))
      && m.nonce == d.nonce && m.plaintextSize == |source| && m.mediaType == q.mediaType
      && m.inspectionRecordID == q.inspectionRecordID && m.createdAt == d.now
      && EqualFold(q.plaintextDigest, m.plaintextDigest)
      && (LowerHex(cfg.digest(source)) ==> m.plaintextDigest == cfg.digest(source))
  {
    LowerIdempotent(q.plaintextDigest);
    SameFoldIff(q.plaintextDigest, Lower(q.plaintextDigest));
    if LowerHex(cfg.digest(source)) { LowerOfDigest(cfg.digest(source), q.plaintextDigest); }
    hide LowerHex, Lower, EqualFold;
  }

  /** Round trip: whatever `Protect` accepts, it can open again. */
  lemma ProtectThenOpen(cfg: Config, ring: Keyring, blobs: Blobs, q: Request, source: Bytes, d: Draw)
    requires ValidRing(ring) && ValidDraw(d) && CheckRequest(cfg, q, source).Success?
    ensures
      var m := NewMetadata(ring, q, d);
      var after := blobs[m.blobObject := Seal(m, d.dek, source)];
      && Intact(cfg, ring, after, m) && Open(cfg, ring, after, m) == Success(source)
  {
    LowerIdempotent(q.plaintextDigest);
  }

  /** New keys never make an envelope unwrap differently, as long as no historical key is
      dropped; and an object that stays as it was stays the one it protects. */
  lemma IntactUnderGrowth(cfg: Config, ring: Keyring, ring': Keyring, blobs: Blobs, blobs': Blobs, m: Metadata)
    requires Unwraps(cfg, ring, m) && ValidRing(ring')
    requires ring'.id == ring.id && forall v :: v in ring.keys ==> v in ring'.keys && ring'.keys[v] == ring.keys[v]
    ensures Unwraps(cfg, ring', m)
    ensures Intact(cfg, ring, blobs, m) && m.blobObject in blobs' && blobs'[m.blobObject] == blobs[m.blobObject] ==>
              Intact(cfg, ring', blobs', m)
  {}

  /** Replaces only the wrapper; the data key inside stays the same. */
  function Rewrapped(ring: Keyring, m: Metadata, dek: Key, nonce: Bytes): Metadata
    requires ValidRing(ring)
  {
    m.(wrappedDEK := Some(Wrap(ring, dek, nonce)), wrappingKEKID := ring.id, wrappingKEKVersion := ring.version)
  }

  /** A rewrap keeps the envelope usable, and intact if it was. */
  lemma RewrapKeepsIntact(cfg: Config, ring: Keyring, blobs: Blobs, m: Metadata, nonce: Bytes)
    requires Unwraps(cfg, ring, m)
    ensures Unwraps(cfg, ring, Rewrapped(ring, m, m.wrappedDEK.value.dek, nonce))
    ensures Intact(cfg, ring, blobs, m) ==> Intact(cfg, ring, blobs, Rewrapped(ring, m, m.wrappedDEK.value.dek, nonce))
  {}
}
