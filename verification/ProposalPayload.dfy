/** The payload of a proposal: an optional lock proof behind its length, then the block. The validator of incoming
    proposals reads the block number straight out of the hex string, without parsing the block. */
module ProposalPayload {
  import opened Wrappers
  import opened ByteBuffers
  import opened Serializer
  import opened BlockCodec

  // Hexadecimal

  type Nibble = x: int | 0 <= x < 16

  function ToHex(bytes: seq<Byte>): (hex: seq<Nibble>)
    ensures |hex| == 2 * |bytes|
  {
    seq(2 * |bytes|, i requires 0 <= i < 2 * |bytes| => if i % 2 == 0 then bytes[i / 2] / 16 else bytes[i / 2] % 16)
  }

  function Pair(high: Nibble, low: Nibble): Byte {
    16 * (high as int) + low
  }

  /** Reads pairs of digits; an odd last digit is dropped. */
  function FromHex(hex: seq<Nibble>): (bytes: seq<Byte>)
    ensures |bytes| == |hex| / 2
  {
    seq(|hex| / 2, k requires 0 <= k < |hex| / 2 => Pair(hex[2 * k], hex[2 * k + 1]))
  }

  lemma DigitsOf(bytes: seq<Byte>, k: nat)
    requires k < |bytes|
    ensures Pair(ToHex(bytes)[2 * k], ToHex(bytes)[2 * k + 1]) == bytes[k]
  {
    assert (2 * k) / 2 == k && (2 * k + 1) / 2 == k && (2 * k) % 2 == 0 && (2 * k + 1) % 2 == 1;
  }

  lemma FromDigits(hex: seq<Nibble>, k: nat)
    requires 2 * k + 1 < |hex|
    ensures FromHex(hex)[k] == Pair(hex[2 * k], hex[2 * k + 1])
  {
  }

  /** The digits of a stretch of bytes are the stretch of digits at twice the offset. */
  lemma HexSlice(bytes: seq<Byte>, from: nat, to: nat)
    requires from <= to <= |bytes|
    ensures FromHex(ToHex(bytes)[2 * from..2 * to]) == bytes[from..to]
  {
    hide ToHex, FromHex, Pair;
    var slice := ToHex(bytes)[2 * from..2 * to];
    forall k | 0 <= k < to - from ensures FromHex(slice)[k] == bytes[from + k] {
      DigitsOf(bytes, from + k);
      FromDigits(slice, k);
      assert 2 * (from + k) == 2 * from + 2 * k;
    }
  }

  // The payload

  function SerializePayload(lockProof: Option<Record>, block: seq<Byte>): Option<seq<Byte>> {
    match lockProof
    case None => Some([0] + block)
    case Some(proof) =>
      match Encode(LOCK_PROOF_SCHEMA, proof)
      case None => None
      case Some(bytes) => Some([|bytes| % 256] + bytes + block)
  }

  /** The lock proof, if its length is not zero, and the bytes behind it. */
  function DecodeLockProof(bytes: seq<Byte>): Option<(Option<Record>, seq<Byte>)> {
    if bytes == [] then None
    else if bytes[0] == 0 then Some((None, bytes[1..]))
    else if |bytes| - 1 < bytes[0] then None
    else
      match Decode(LOCK_PROOF_SCHEMA, map[], bytes[1..1 + bytes[0]])
      case None => None
      case Some((proof, _)) => Some((Some(proof), bytes[1 + bytes[0]..]))
  }

  datatype ParsedPayload = ParsedPayload(lockProof: Option<Record>, header: Record, transactions: seq<seq<Byte>>)

  /** What the schema of lock proofs says of a lock proof beside the header of its block. */
  type Schema = (Record, Record) -> bool

  function MakePayload(bytes: seq<Byte>, schema: Schema): Option<ParsedPayload> {
    match DecodeLockProof(bytes)
    case None => None
    case Some((lockProof, rest)) =>
      match DecodeBlock(rest)
      case None => None
      case Some((header, transactions)) =>
        if lockProof.Some? && !schema(lockProof.value, header) then None
        else Some(ParsedPayload(lockProof, header, transactions))
  }

  method GetLockProof(buffer: ByteBuffer) returns (r: Option<Option<Record>>)
    requires buffer.Valid()
    modifies buffer
    ensures buffer.Valid()
    ensures match DecodeLockProof(old(buffer.Remainder()))
      case None => r == None
      case Some((lockProof, rest)) => r == Some(lockProof) && buffer.Remainder() == rest
  {
    hide Decode, FromLittleEndian, Pow256;
    ghost var bytes := buffer.Remainder();
    var lockProofLength := buffer.ReadUint(1);
    if lockProofLength.None? {
      return None;
    }
    FromOneByte(bytes[0]);
    assert bytes[..1] == [bytes[0]];
    if lockProofLength.value > 0 {
      var lockProofBuffer := buffer.ReadBytes(lockProofLength.value);
      if lockProofBuffer.None? {
        return None;
      }
      assert lockProofBuffer.value == bytes[1..1 + bytes[0]];
      var proofSource := new ByteBuffer.FromBuffer(lockProofBuffer.value);
      var proof := Deserialize(proofSource, map[], LOCK_PROOF_SCHEMA);
      r := if proof.Some? then Some(proof) else None;
    } else {
      r := Some(None);
    }
  }

  method MakePayloadFromBytes(bytes: seq<Byte>, schema: Schema) returns (r: Option<ParsedPayload>)
    ensures r == MakePayload(bytes, schema)
  {
    hide DecodeLockProof, DecodeBlock;
    var buffer := new ByteBuffer.FromBuffer(bytes);
    var lockProof := GetLockProof(buffer);
    if lockProof.None? {
      return None;
    }
    var block := DeserializeWithTransactions(buffer.Remainder());
    if block.None? {
      return None;
    }
    if lockProof.value.Some? && !schema(lockProof.value.value, block.value.0) {
      return None;
    }
    return Some(ParsedPayload(lockProof.value, block.value.0, block.value.1));
  }

  /** The short cut: skips the proof by its length, then a version byte and a timestamp of six bytes. */
  function ParseSerializedPayload(serialized: seq<Nibble>): Option<nat> {
    if |serialized| < 30 then None
    else
      var lockProofSize: int := 2 + (Pair(serialized[0], serialized[1]) as int) * 2;
      var offset: int := lockProofSize + 2 + 12;
      if offset + 8 > |serialized| then None
      else Some(FromLittleEndian(FromHex(serialized[offset..offset + 8])))
  }

  lemma ShortCutReads(bytes: seq<Byte>, block: nat)
    requires |bytes| >= 15 && block == 1 + bytes[0] as int && block + 11 <= |bytes|
    ensures ParseSerializedPayload(ToHex(bytes)) == Some(FromLittleEndian(bytes[block + 7..block + 11]))
  {
    hide ToHex, FromHex, Pair, FromLittleEndian;
    DigitsOf(bytes, 0);
    HexSlice(bytes, block + 7, block + 11);
  }

  lemma DecodeStep(schema: seq<Field>, i: nat, target: Record, s: seq<Byte>)
    requires i < |schema|
    ensures Decode(schema[i..], target, s) ==
      match DecodeField(schema[i], target, s)
      case None => None
      case Some((next, rest)) => Decode(schema[i + 1..], next, rest)
  {
    hide DecodeField;
    assert schema[i..][1..] == schema[i + 1..];
  }

  lemma NumberFirst(h: seq<Field>, s: seq<Byte>)
    requires |h| >= 3 && Decode(h, map[], s).Some?
    requires h[0] == Field(Version, Uint(1), false) && h[1] == Field(Timestamp, Uint(6), false)
    requires h[2] == Field(BlockNumber, Uint(4), false)
    requires forall i :: 3 <= i < |h| ==> h[i].property != BlockNumber
    ensures |s| >= 11
    ensures var header := Decode(h, map[], s).value.0;
      BlockNumber in header && header[BlockNumber] == Number(FromLittleEndian(s[7..11]))
    ensures exists target :: Decode(h[3..], target, s[11..]).Some?
  {
    hide Decode, FromLittleEndian;
    assert h[0..] == h;
    DecodeStep(h, 0, map[], s);
    var (t1, s1) := DecodeField(h[0], map[], s).value;
    DecodeStep(h, 1, t1, s1);
    var (t2, s2) := DecodeField(h[1], t1, s1).value;
    DecodeStep(h, 2, t2, s2);
    var (t3, s3) := DecodeField(h[2], t2, s2).value;
    assert s1 == s[1..] && s2 == s[7..] && s3 == s[11..] && s2[..4] == s[7..11];
    DecodeKeeps(h[3..], t3, s3, BlockNumber);
  }

  lemma RoundTakesFour(target: Record, s: seq<Byte>)
    requires DecodeField(Field(Round, Uint(4), false), target, s).Some?
    ensures |s| >= 4
  {
  }

  /** The first fields of a header are the version, the timestamp, the number and the round. */
  lemma NumberInHeader(s: seq<Byte>)
    requires Decode(HEADER_SCHEMA, map[], s).Some?
    ensures |s| >= 15
    ensures var header := Decode(HEADER_SCHEMA, map[], s).value.0;
      BlockNumber in header && header[BlockNumber] == Number(FromLittleEndian(s[7..11]))
  {
    hide Decode, FromLittleEndian, DecodeField;
    NumberFirst(HEADER_SCHEMA, s);
    var target :| Decode(HEADER_SCHEMA[3..], target, s[11..]).Some?;
    DecodeStep(HEADER_SCHEMA, 3, target, s[11..]);
    RoundTakesFour(target, s[11..]);
  }

  /** On every payload the full parser accepts, the short cut returns the block number the full parser returns. */
  lemma ShortCutAgrees(bytes: seq<Byte>, schema: Schema)
    requires MakePayload(bytes, schema).Some?
    ensures var header := MakePayload(bytes, schema).value.header;
      && BlockNumber in header && header[BlockNumber].Number?
      && ParseSerializedPayload(ToHex(bytes)) == Some(header[BlockNumber].n)
  {
    hide Decode, FromLittleEndian, ParseSerializedPayload, ToHex;
    var rest := DecodeLockProof(bytes).value.1;
    var block: int := 1 + bytes[0] as int;
    assert rest == bytes[block..];
    NumberInHeader(rest);
    assert rest[7..11] == bytes[block + 7..block + 11];
    ShortCutReads(bytes, block);
  }

  /** Every payload made from a lock proof, or none, and the bytes of a block is read back as both, and the short cut
      finds the number of that block in it. */
  lemma PayloadRoundTrip(lockProof: Option<Record>, data: Record, items: seq<seq<Byte>>, schema: Schema)
    requires lockProof.Some? ==> BlockCodec.Fits(LOCK_PROOF_SCHEMA, lockProof.value)
    requires IsBlock(data, items) && data[PayloadSize] == Number(SizeOfItems(items))
    requires Encode(BLOCK_SCHEMA, data).Some?
    requires lockProof.Some? ==>
      schema(Restored(LOCK_PROOF_SCHEMA, map[], lockProof.value), Restored(HEADER_SCHEMA, map[], data))
    ensures var payload := SerializePayload(lockProof, Encode(BLOCK_SCHEMA, data).value);
      && payload.Some?
      && MakePayload(payload.value, schema) == Some(ParsedPayload(
           if lockProof.Some? then Some(Restored(LOCK_PROOF_SCHEMA, map[], lockProof.value)) else None,
           Restored(HEADER_SCHEMA, map[], data), items))
      && BlockNumber in data && data[BlockNumber].Number?
      && ParseSerializedPayload(ToHex(payload.value)) == Some(data[BlockNumber].n)
  {
    hide Decode, Encode, Restored, DecodeBlock, ParseSerializedPayload, ToHex, IsBlock;
    var block := Encode(BLOCK_SCHEMA, data).value;
    BlockRoundTrip(data, items);
    var payload := SerializePayload(lockProof, block).value;
    if lockProof.Some? {
      LockProofRoundTrip(lockProof.value);
      var proof := Encode(LOCK_PROOF_SCHEMA, lockProof.value).value;
      assert payload[1..1 + |proof|] == proof && payload[1 + |proof|..] == block;
    } else {
      assert payload[1..] == block;
    }
    ShortCutAgrees(payload, schema);
    RestoredIs(HEADER_SCHEMA, map[], data, BlockNumber);
    assert HEADER_SCHEMA[2].property == BlockNumber;
  }

  // Which payloads are written back as they were read

  lemma SignatureReads(target: Record, s: seq<Byte>)
    ensures DecodeField(LOCK_PROOF_SCHEMA[0], target, s) ==
      if |s| < 96 then None else Some((target[Signature := Bytes(s[..96])], s[96..]))
  {
  }

  /** The validators are read from nine bytes, whatever is behind them. */
  lemma ValidatorsRead(target: Record, s: seq<Byte>)
    ensures DecodeField(LOCK_PROOF_SCHEMA[1], target, s).Some? ==> |s| >= 9
    ensures |s| >= 9 ==>
      DecodeField(LOCK_PROOF_SCHEMA[1], target, s) ==
        match DecodeField(LOCK_PROOF_SCHEMA[1], target, s[..9])
        case None => None
        case Some((next, _)) => Some((next, s[9..]))
  {
    hide FromLittleEndian, Unpacked, Pow2;
    if |s| >= 9 {
      assert s[..9][1..9] == s[1..9];
    }
  }

  lemma LockProofSteps(s: seq<Byte>)
    ensures Decode(LOCK_PROOF_SCHEMA, map[], s) ==
      match DecodeField(LOCK_PROOF_SCHEMA[0], map[], s)
      case None => None
      case Some((next, rest)) => DecodeField(LOCK_PROOF_SCHEMA[1], next, rest)
  {
    hide DecodeField;
    assert LOCK_PROOF_SCHEMA[0..] == LOCK_PROOF_SCHEMA && LOCK_PROOF_SCHEMA[2..] == [];
    DecodeStep(LOCK_PROOF_SCHEMA, 0, map[], s);
    match DecodeField(LOCK_PROOF_SCHEMA[0], map[], s)
    case None =>
    case Some((next, rest)) => DecodeStep(LOCK_PROOF_SCHEMA, 1, next, rest);
  }

  /** A lock proof is read from its configured size, whatever is behind it. */
  lemma LockProofReads(s: seq<Byte>)
    ensures Decode(LOCK_PROOF_SCHEMA, map[], s).Some? ==> |s| >= LOCK_PROOF_SIZE
    ensures |s| >= LOCK_PROOF_SIZE ==>
      Decode(LOCK_PROOF_SCHEMA, map[], s) ==
        match Decode(LOCK_PROOF_SCHEMA, map[], s[..LOCK_PROOF_SIZE])
        case None => None
        case Some((proof, _)) => Some((proof, s[LOCK_PROOF_SIZE..]))
  {
    hide DecodeField;
    LockProofSteps(s);
    SignatureReads(map[], s);
    if |s| >= 96 {
      ValidatorsRead(map[Signature := Bytes(s[..96])], s[96..]);
    }
    if |s| >= LOCK_PROOF_SIZE {
      var front := s[..LOCK_PROOF_SIZE];
      LockProofSteps(front);
      SignatureReads(map[], front);
      assert front[..96] == s[..96] && front[96..] == s[96..][..9] && s[96..][9..] == s[LOCK_PROOF_SIZE..];
    }
  }

  /** The bytes a parsed payload is written as. */
  function Rewritten(payload: ParsedPayload): Option<seq<Byte>> {
    match Encode(BLOCK_SCHEMA, payload.header[TransactionList := List(payload.transactions)])
    case None => None
    case Some(block) => SerializePayload(payload.lockProof, block)
  }

  /** An accepted payload is written back as it was read if and only if its length byte is zero or the size of a lock
      proof: bytes left over behind the proof are not looked at. */
  lemma PayloadCanonical(bytes: seq<Byte>, schema: Schema)
    requires MakePayload(bytes, schema).Some?
    ensures Rewritten(MakePayload(bytes, schema).value) == Some(bytes) <==> bytes[0] == 0 || bytes[0] == LOCK_PROOF_SIZE
  {
    hide Encode, Decode, DecodeBlock;
    var (lockProof, rest) := DecodeLockProof(bytes).value;
    BlockIsCanonical(rest);
    if bytes[0] == 0 {
      assert bytes == [0] + rest;
    } else {
      var slice := bytes[1..1 + bytes[0]];
      LockProofReads(slice);
      Canonical(LOCK_PROOF_SCHEMA, map[], slice);
      var written := Encode(LOCK_PROOF_SCHEMA, lockProof.value).value;
      assert written + slice[LOCK_PROOF_SIZE..] == slice;
      assert |written| == LOCK_PROOF_SIZE;
      if bytes[0] == LOCK_PROOF_SIZE {
        assert written == slice && bytes == [bytes[0]] + slice + rest;
      } else {
        assert ([LOCK_PROOF_SIZE] + written + rest)[0] == LOCK_PROOF_SIZE;
      }
    }
  }

  /** Every accepted payload with a lock proof can be padded behind the proof without being read differently. */
  lemma PaddingIsIgnored(bytes: seq<Byte>, padding: seq<Byte>, schema: Schema)
    requires MakePayload(bytes, schema).Some? && bytes[0] == LOCK_PROOF_SIZE && |padding| + LOCK_PROOF_SIZE < 256
    ensures var end := 1 + LOCK_PROOF_SIZE;
      && end <= |bytes|
      && MakePayload([LOCK_PROOF_SIZE + |padding|] + bytes[1..end] + padding + bytes[end..], schema) ==
         MakePayload(bytes, schema)
  {
    hide Decode, DecodeBlock;
    var end := 1 + LOCK_PROOF_SIZE;
    var proof := bytes[1..end];
    var padded := [LOCK_PROOF_SIZE + |padding|] + proof + padding + bytes[end..];
    assert padded[1..1 + padded[0]] == proof + padding && padded[1 + padded[0]..] == bytes[end..];
    LockProofReads(proof + padding);
    assert (proof + padding)[..LOCK_PROOF_SIZE] == proof;
  }
}
