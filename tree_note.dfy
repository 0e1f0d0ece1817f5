/**
 * The tree note: the plaintext record behind a note commitment, and its fixed
 * 200-byte layout. The owner's public key is a Grumpkin address, an opaque
 * 64-byte string; the other buffers are 32 bytes in a well-formed note.
 */
module TreeNotes {
  import opened Wrappers
  import opened ByteCodec

  const ADDRESS_SIZE: nat := 64
  const FIELD_SIZE: nat := 32

  /** A Grumpkin public key as the codec sees it: exactly 64 bytes. */
  type GrumpkinAddress = s: seq<byte> | |s| == ADDRESS_SIZE witness seq(64, _ => 0)

  datatype TreeNote = TreeNote(
    ownerPubKey: GrumpkinAddress,
    value: uint256,
    assetId: uint32,
    nonce: uint32,
    noteSecret: seq<byte>,
    creatorPubKey: seq<byte>,
    inputNullifier: seq<byte>)

  /** The three free-length buffers have the 32 bytes the layout reserves for them. */
  predicate WellFormed(n: TreeNote) {
    |n.noteSecret| == FIELD_SIZE && |n.creatorPubKey| == FIELD_SIZE && |n.inputNullifier| == FIELD_SIZE
  }

  /** Byte offsets of the fields in the serialised note. */
  const VALUE_OFFSET: nat := 0
  const ASSET_ID_OFFSET: nat := 32
  const NONCE_OFFSET: nat := 36
  const OWNER_OFFSET: nat := 40
  const NOTE_SECRET_OFFSET: nat := 104
  const CREATOR_OFFSET: nat := 136
  const NULLIFIER_OFFSET: nat := 168

  /** The length of a serialised note. */
  const SIZE: nat := 200

  function Value32(v: uint256): (r: seq<byte>)
    ensures |r| == 32 && FromBytesBE(r) == v
  {
    Pow256Of32();
    FromToBytesBE(v, 32);
    ToBytesBE(v, 32)
  }

  function UInt32BE(v: uint32): (r: seq<byte>)
    ensures |r| == 4 && FromBytesBE(r) == v
  {
    Pow256Of4();
    FromToBytesBE(v, 4);
    ToBytesBE(v, 4)
  }

  /** `toBuffer`: the fields concatenated in declaration order of the layout. */
  function ToBuffer(n: TreeNote): (r: seq<byte>)
    ensures |r| == 104 + |n.noteSecret| + |n.creatorPubKey| + |n.inputNullifier|
  {
    Value32(n.value) + UInt32BE(n.assetId) + UInt32BE(n.nonce) + n.ownerPubKey
      + n.noteSecret + n.creatorPubKey + n.inputNullifier
  }

  /**
   * A well-formed note serialises to SIZE bytes. The converse fails: the three
   * buffers are concatenated unchecked, so only their total length shows.
   */
  lemma ToBufferLength(n: TreeNote)
    ensures WellFormed(n) ==> |ToBuffer(n)| == SIZE
    ensures |ToBuffer(n)| == SIZE <==> |n.noteSecret| + |n.creatorPubKey| + |n.inputNullifier| == 3 * FIELD_SIZE
  {
  }

  /** A 200-byte serialisation of a note that is not well formed. */
  lemma SizeDoesNotImplyWellFormed(one: GrumpkinAddress)
    ensures var n := TreeNote(one, 0, 0, 0, seq(64, _ => 0), [], seq(32, _ => 0));
      |ToBuffer(n)| == SIZE && !WellFormed(n) && FromBuffer(ToBuffer(n)) != Ok(n)
  {
    var n := TreeNote(one, 0, 0, 0, seq(64, _ => 0), [], seq(32, _ => 0));
    var r := FromBuffer(ToBuffer(n));
    assert |r.value.noteSecret| == 32;
  }

  /** Where each field of a well-formed note lands in its serialisation. */
  lemma ToBufferLayout(n: TreeNote)
    requires WellFormed(n)
    ensures var b := ToBuffer(n);
      |b| == SIZE &&
      FromBytesBE(b[VALUE_OFFSET..ASSET_ID_OFFSET]) == n.value &&
      FromBytesBE(b[ASSET_ID_OFFSET..NONCE_OFFSET]) == n.assetId &&
      FromBytesBE(b[NONCE_OFFSET..OWNER_OFFSET]) == n.nonce &&
      b[OWNER_OFFSET..NOTE_SECRET_OFFSET] == n.ownerPubKey &&
      b[NOTE_SECRET_OFFSET..CREATOR_OFFSET] == n.noteSecret &&
      b[CREATOR_OFFSET..NULLIFIER_OFFSET] == n.creatorPubKey &&
      b[NULLIFIER_OFFSET..SIZE] == n.inputNullifier
  {
    var b := ToBuffer(n);
    ConcatParts(Value32(n.value), UInt32BE(n.assetId), UInt32BE(n.nonce), n.ownerPubKey,
      n.noteSecret, n.creatorPubKey, n.inputNullifier);
    assert b[0..32] == b[..32] && b[168..200] == b[168..];
  }

  /** Why `fromBuffer` or `recover` threw. */
  datatype DecodeError =
    | ReadFailed(e: ReadError)            // readUInt32BE past the end of the buffer
    | InvalidAddressLength(length: nat)   // the GrumpkinAddress constructor rejected the slice

  /** `new GrumpkinAddress(buf)`: accepts exactly 64 bytes. */
  function MakeAddress(buf: seq<byte>): (r: Result<GrumpkinAddress, DecodeError>)
    ensures r.Ok? <==> |buf| == ADDRESS_SIZE
    ensures r.Ok? ==> r.value == buf
  {
    if |buf| == ADDRESS_SIZE then Ok(buf) else Err(InvalidAddressLength(|buf|))
  }

  function ReadU32(buf: seq<byte>, offset: nat): (r: Result<uint32, DecodeError>)
    ensures r.Ok? <==> offset + 4 <= |buf|
    ensures r.Ok? ==> r.value == FromBytesBE(buf[offset..offset + 4])
  {
    match ReadUInt32BE(buf, offset)
    case Ok(v) => Ok(v)
    case Err(e) => Err(ReadFailed(e))
  }

  function ReadValue(buf: seq<byte>, offset: nat): (r: uint256)
    ensures offset + 32 <= |buf| ==> r == FromBytesBE(buf[offset..offset + 32])
  {
    var s := Slice(buf, offset, offset + 32);
    assert FromBytesBE(s) < UINT256_BOUND by {
      Pow256Monotone(|s|, 32);
      Pow256Of32();
    }
    FromBytesBE(s)
  }

  /**
   * `fromBuffer` over the fixed offsets of the layout: the reads in the order the
   * source performs them, so the first one that throws decides the error.
   */
  function FromBuffer(buf: seq<byte>): (r: Result<TreeNote, DecodeError>)
    ensures r.Ok? <==> |buf| >= NOTE_SECRET_OFFSET
    ensures !(NONCE_OFFSET <= |buf|) ==> r == Err(ReadFailed(OutOfRange(ASSET_ID_OFFSET, |buf|)))
    ensures NONCE_OFFSET <= |buf| < OWNER_OFFSET ==> r == Err(ReadFailed(OutOfRange(NONCE_OFFSET, |buf|)))
    ensures OWNER_OFFSET <= |buf| < NOTE_SECRET_OFFSET ==> r == Err(InvalidAddressLength(|buf| - OWNER_OFFSET))
  {
    var value := ReadValue(buf, VALUE_OFFSET);
    match ReadU32(buf, ASSET_ID_OFFSET)
    case Err(e) => Err(e)
    case Ok(assetId) =>
      match ReadU32(buf, NONCE_OFFSET)
      case Err(e) => Err(e)
      case Ok(nonce) =>
        match MakeAddress(Slice(buf, OWNER_OFFSET, NOTE_SECRET_OFFSET))
        case Err(e) => Err(e)
        case Ok(owner) =>
          Ok(TreeNote(owner, value, assetId, nonce,
            Slice(buf, NOTE_SECRET_OFFSET, CREATOR_OFFSET),
            Slice(buf, CREATOR_OFFSET, NULLIFIER_OFFSET),
            Slice(buf, NULLIFIER_OFFSET, SIZE)))
  }

  /**
   * `fromBuffer` as the source writes it: a cursor `dataStart` advanced past each
   * field in turn.
   */
  method ReadTreeNote(buf: seq<byte>) returns (r: Result<TreeNote, DecodeError>)
    ensures r == FromBuffer(buf)
  {
    var dataStart := 0;
    var value := ReadValue(buf, dataStart);
    dataStart := dataStart + 32;
    var assetId := ReadU32(buf, dataStart);
    if assetId.Err? {
      return Err(assetId.error);
    }
    dataStart := dataStart + 4;
    var nonce := ReadU32(buf, dataStart);
    if nonce.Err? {
      return Err(nonce.error);
    }
    dataStart := dataStart + 4;
    var owner := MakeAddress(Slice(buf, dataStart, dataStart + 64));
    if owner.Err? {
      return Err(owner.error);
    }
    dataStart := dataStart + 64;
    var noteSecret := Slice(buf, dataStart, dataStart + 32);
    dataStart := dataStart + 32;
    var creatorPubKey := Slice(buf, dataStart, dataStart + 32);
    dataStart := dataStart + 32;
    var inputNullifier := Slice(buf, dataStart, dataStart + 32);
    r := Ok(TreeNote(owner.value, value, assetId.value, nonce.value, noteSecret, creatorPubKey, inputNullifier));
  }

  /** Round trip: a well-formed note survives serialisation. */
  lemma FromBufferToBuffer(n: TreeNote)
    requires WellFormed(n)
    ensures FromBuffer(ToBuffer(n)) == Ok(n)
  {
    ToBufferLayout(n);
  }

  /** What `fromBuffer` reads from a buffer of at least SIZE bytes. */
  lemma FromBufferFields(b: seq<byte>)
    requires |b| >= SIZE
    ensures FromBuffer(b).Ok?
    ensures var n := FromBuffer(b).value;
      n.value == FromBytesBE(b[0..32]) && n.assetId == FromBytesBE(b[32..36]) && n.nonce == FromBytesBE(b[36..40]) &&
      n.ownerPubKey == b[40..104] && n.noteSecret == b[104..136] && n.creatorPubKey == b[136..168] &&
      n.inputNullifier == b[168..200]
  {
  }

  /** Reverse round trip: any 200-byte string is the serialisation of the note it decodes to. */
  lemma ToBufferFromBuffer(b: seq<byte>)
    requires |b| == SIZE
    ensures FromBuffer(b).Ok? && WellFormed(FromBuffer(b).value)
    ensures ToBuffer(FromBuffer(b).value) == b
  {
    FromBufferFields(b);
    var n := FromBuffer(b).value;
    ToFromBytesBE(b[0..32]);
    ToFromBytesBE(b[32..36]);
    ToFromBytesBE(b[36..40]);
    assert Value32(n.value) == b[..32];
    assert UInt32BE(n.assetId) == b[32..36];
    assert UInt32BE(n.nonce) == b[36..40];
    assert n.inputNullifier == b[168..];
    SplitParts(b, 32, 36, 40, 104, 136, 168);
  }

  /** Bytes after the first SIZE do not influence the decoded note. */
  lemma FromBufferIgnoresTail(b: seq<byte>, tail: seq<byte>)
    requires |b| == SIZE
    ensures FromBuffer(b + tail) == FromBuffer(b)
  {
    var bt := b + tail;
    assert bt[0..32] == b[0..32];
    assert bt[32..36] == b[32..36];
    assert bt[36..40] == b[36..40];
    assert bt[40..104] == b[40..104];
    assert bt[104..136] == b[104..136];
    assert bt[136..168] == b[136..168];
    assert bt[168..200] == b[168..200];
  }

  /**
   * `TreeNote.EMPTY`: zero amounts and three 32-byte zero buffers. The owner is
   * `GrumpkinAddress.one()`, whose bytes are not part of this model, so it is a parameter.
   */
  function Empty(one: GrumpkinAddress): (n: TreeNote)
    ensures WellFormed(n)
    ensures n.ownerPubKey == one && n.value == 0 && n.assetId == 0 && n.nonce == 0
    ensures forall k :: 0 <= k < FIELD_SIZE ==>
      n.noteSecret[k] == 0 && n.creatorPubKey[k] == 0 && n.inputNullifier[k] == 0
  {
    TreeNote(one, 0, 0, 0, seq(32, _ => 0), seq(32, _ => 0), seq(32, _ => 0))
  }

  /** `TreeNote.SIZE` is defined as the length of EMPTY's serialisation; that length is 200. */
  lemma EmptySize(one: GrumpkinAddress)
    ensures |ToBuffer(Empty(one))| == SIZE
  {
  }

  // ---- viewing-key plaintext and `recover` ----

  /** The four fields `createViewingKey` concatenates into the plaintext it encrypts. */
  function ViewingKeyNoteBuf(n: TreeNote): (r: seq<byte>)
    ensures |r| == 40 + |n.creatorPubKey|
  {
    Value32(n.value) + UInt32BE(n.assetId) + UInt32BE(n.nonce) + n.creatorPubKey
  }

  /** The fields of a decrypted viewing key that `recover` uses. */
  datatype DecryptedNote = DecryptedNote(noteBuf: seq<byte>, noteSecret: seq<byte>, inputNullifier: seq<byte>)

  /** `recover`: the note fields read back from a decrypted viewing-key plaintext. */
  function Recover(d: DecryptedNote, ownerPubKey: GrumpkinAddress): (r: Result<TreeNote, DecodeError>)
    ensures r.Ok? <==> |d.noteBuf| >= 40
    ensures r.Ok? ==>
      r.value.ownerPubKey == ownerPubKey && r.value.noteSecret == d.noteSecret && r.value.inputNullifier == d.inputNullifier
    ensures r.Ok? ==> r.value.creatorPubKey == Slice(d.noteBuf, 40, 72)
    ensures r.Ok? ==> r.value.value == FromBytesBE(d.noteBuf[0..32])
    ensures r.Ok? ==> r.value.assetId == FromBytesBE(d.noteBuf[32..36])
    ensures r.Ok? ==> r.value.nonce == FromBytesBE(d.noteBuf[36..40])
  {
    var value := ReadValue(d.noteBuf, 0);
    match ReadU32(d.noteBuf, 32)
    case Err(e) => Err(e)
    case Ok(assetId) =>
      match ReadU32(d.noteBuf, 36)
      case Err(e) => Err(e)
      case Ok(nonce) =>
        Ok(TreeNote(ownerPubKey, value, assetId, nonce, d.noteSecret, Slice(d.noteBuf, 40, 72), d.inputNullifier))
  }

  /**
   * Recovering the viewing-key plaintext of a note gives back its value, asset id,
   * nonce and creator key, and takes the rest from the arguments; the whole note
   * comes back exactly when its creator key fits the 32 bytes `recover` reads.
   */
  lemma RecoverViewingKeyNoteBuf(n: TreeNote)
    ensures var r := Recover(DecryptedNote(ViewingKeyNoteBuf(n), n.noteSecret, n.inputNullifier), n.ownerPubKey);
      r.Ok? && r.value.value == n.value && r.value.assetId == n.assetId && r.value.nonce == n.nonce
      && (r.value == n <==> |n.creatorPubKey| <= FIELD_SIZE)
  {
    var b := ViewingKeyNoteBuf(n);
    var v, a, o := Value32(n.value), UInt32BE(n.assetId), UInt32BE(n.nonce);
    assert b == v + a + o + n.creatorPubKey;
    assert b[0..32] == v;
    assert b[32..36] == a;
    assert b[36..40] == o;
    var c := Slice(b, 40, 72);
    if |n.creatorPubKey| <= FIELD_SIZE {
      assert c == n.creatorPubKey;
    } else {
      assert |c| == 32;
    }
  }
}
