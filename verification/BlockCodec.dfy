/** The schemas of blocks, messages, proposals and commits, the lengths their serializers allocate, and reading a block
    back from its bytes. */
module BlockCodec {
  import opened Wrappers
  import opened ByteBuffers
  import opened Serializer
  import SenderPool
  import PriorityQuery

  const HEADER_SCHEMA: seq<Field> := [
    Field(Version, Uint(1), false),
    Field(Timestamp, Uint(6), false),
    Field(BlockNumber, Uint(4), false),
    Field(Round, Uint(4), false),
    Field(ParentHash, Hash(HASH_SIZE), false),
    Field(StateRoot, Hash(HASH_SIZE), false),
    Field(LogsBloom, Hash(256), false),
    Field(COUNT, Uint(2), false),
    Field(GasUsed, Uint(4), false),
    Field(Fee, Uint256, false),
    Field(Reward, Uint256, false),
    Field(PayloadSize, Uint(4), false),
    Field(TransactionsRoot, Hash(HASH_SIZE), false),
    Field(Proposer, Address, false),
    Field(RandaoReveal, ConsensusSignature, false)]

  const TRANSACTIONS_SCHEMA: seq<Field> := [Field(TransactionList, Transactions, false)]

  const BLOCK_SCHEMA: seq<Field> := HEADER_SCHEMA + TRANSACTIONS_SCHEMA

  const HEADER_SIZE :=
    1 + 6 + 4 + 4 + HASH_SIZE + HASH_SIZE + 256 + 2 + 4 + 32 + 32 + 4 + HASH_SIZE + ADDRESS_SIZE + 96

  // Lengths

  function SizeOfItems(items: seq<seq<Byte>>): nat {
    if items == [] then 0 else 4 + |items[0]| + SizeOfItems(items[1..])
  }

  lemma {:induction false} ItemsSize(items: seq<seq<Byte>>)
    requires ItemsBytes(items).Some?
    ensures |ItemsBytes(items).value| == SizeOfItems(items)
  {
    if items == [] {
    } else {
      ItemsSize(items[1..]);
    }
  }

  function ValueSize(kind: Kind, v: Value): nat {
    match kind
    case Uint(width) => width
    case Uint256 => 32
    case ValidatorSet => 9
    case Hex => if v.Bytes? then 4 + |v.bytes| else 0
    case Transactions => if v.List? then SizeOfItems(v.items) else 0
    case _ => SizeOf(kind)
  }

  function FieldSize(f: Field, data: Record): nat {
    (if IsOptional(f) then 1 else 0) + (if f.property in data then ValueSize(f.kind, data[f.property]) else 0)
  }

  function SchemaSize(schema: seq<Field>, data: Record): nat {
    if schema == [] then 0 else FieldSize(schema[0], data) + SchemaSize(schema[1..], data)
  }

  lemma FieldSizeIs(f: Field, data: Record)
    requires FieldBytes(f, data).Some? && Sized(f, data)
    ensures |FieldBytes(f, data).value| == FieldSize(f, data)
  {
    hide LittleEndian, BigEndian, Pow256, Packed, ItemsBytes;
    if f.property in data && f.kind.Transactions? {
      ItemsSize(data[f.property].items);
    }
  }

  lemma {:induction false} EncodedSize(schema: seq<Field>, data: Record)
    requires Encode(schema, data).Some? && forall i :: 0 <= i < |schema| ==> Sized(schema[i], data)
    ensures |Encode(schema, data).value| == SchemaSize(schema, data)
    decreases |schema|
  {
    hide FieldBytes, FieldSize;
    if schema == [] {
    } else {
      assert Sized(schema[0], data);
      FieldSizeIs(schema[0], data);
      EncodedSize(schema[1..], data);
    }
  }

  ghost predicate HasAll(schema: seq<Field>, data: Record) {
    forall i :: 0 <= i < |schema| ==> schema[i].property in data
  }

  // Fields whose size does not depend on the value

  predicate IsStatic(f: Field) {
    !f.optional && !f.kind.Hex? && !f.kind.Transactions?
  }

  function StaticSize(f: Field): nat {
    ValueSize(f.kind, Number(0))
  }

  function StaticSizes(schema: seq<Field>): nat {
    if schema == [] then 0 else StaticSize(schema[0]) + StaticSizes(schema[1..])
  }

  lemma {:induction false} StaticSizesAre(schema: seq<Field>, data: Record)
    requires HasAll(schema, data) && forall i :: 0 <= i < |schema| ==> IsStatic(schema[i])
    ensures SchemaSize(schema, data) == StaticSizes(schema)
    decreases |schema|
  {
    if schema == [] {
    } else {
      assert IsStatic(schema[0]) && schema[0].property in data;
      StaticSizesAre(schema[1..], data);
    }
  }

  lemma StaticStep(schema: seq<Field>, i: nat)
    requires i < |schema|
    ensures StaticSizes(schema[i..]) == StaticSize(schema[i]) + StaticSizes(schema[i + 1..])
  {
  }

  lemma EmptySchema()
    ensures StaticSizes([]) == 0
  {
  }

  lemma HeaderTailSize()
    ensures StaticSizes(HEADER_SCHEMA[10..]) == 184
  {
    hide StaticSizes;
    var s := HEADER_SCHEMA;
    assert s[15..] == [];
    EmptySchema();
    StaticStep(s, 14); StaticStep(s, 13); StaticStep(s, 12); StaticStep(s, 11); StaticStep(s, 10);
  }

  lemma HeaderMiddleSize()
    ensures StaticSizes(HEADER_SCHEMA[5..]) == 510
  {
    hide StaticSizes;
    var s := HEADER_SCHEMA;
    HeaderTailSize();
    StaticStep(s, 9); StaticStep(s, 8); StaticStep(s, 7); StaticStep(s, 6); StaticStep(s, 5);
  }

  lemma HeaderStaticSize()
    ensures StaticSizes(HEADER_SCHEMA) == HEADER_SIZE == 557
  {
    hide StaticSizes;
    var s := HEADER_SCHEMA;
    assert s[0..] == s;
    HeaderMiddleSize();
    StaticStep(s, 4); StaticStep(s, 3); StaticStep(s, 2); StaticStep(s, 1); StaticStep(s, 0);
  }

  /** Whatever is in a block header, it takes up the same number of bytes. */
  lemma HeaderSizeIs(data: Record)
    requires HasAll(HEADER_SCHEMA, data)
    ensures SchemaSize(HEADER_SCHEMA, data) == HEADER_SIZE
  {
    StaticSizesAre(HEADER_SCHEMA, data);
    HeaderStaticSize();
  }

  // Blocks

  /** The header, which must announce exactly the bytes behind it, and those bytes. */
  function DecodeHeader(s: seq<Byte>): Option<(Record, seq<Byte>)> {
    match Decode(HEADER_SCHEMA, map[], s)
    case None => None
    case Some((header, rest)) =>
      if PayloadSize in header && header[PayloadSize] == Number(|rest|) then Some((header, rest)) else None
  }

  /** The transactions are read only if there are bytes left, and must use up all of them. */
  function DecodeBlock(s: seq<Byte>): Option<(Record, seq<seq<Byte>>)> {
    match DecodeHeader(s)
    case None => None
    case Some((header, rest)) =>
      if rest == [] then Some((header, []))
      else
        match Decode(TRANSACTIONS_SCHEMA, header, rest)
        case None => None
        case Some((block, trailing)) =>
          if trailing == [] && TransactionList in block && block[TransactionList].List?
          then Some((header, block[TransactionList].items)) else None
  }

  method SerializeWithTransactions(block: Record) returns (r: Option<seq<Byte>>)
    requires PayloadSize in block && block[PayloadSize].Number? && block[PayloadSize].n >= 0
    ensures r == match Encode(BLOCK_SCHEMA, block)
      case None => None
      case Some(bytes) => if |bytes| <= HEADER_SIZE + block[PayloadSize].n then Some(bytes) else None
  {
    r := Serialize(block, BLOCK_SCHEMA, HEADER_SIZE + block[PayloadSize].n, 0);
    assert Encode(BLOCK_SCHEMA, block).Some? ==>
        Zeros(0) + Encode(BLOCK_SCHEMA, block).value == Encode(BLOCK_SCHEMA, block).value;
  }

  method DeserializeHeader(buffer: ByteBuffer) returns (r: Option<Record>)
    requires buffer.Valid()
    modifies buffer
    ensures buffer.Valid()
    ensures match DecodeHeader(old(buffer.Remainder()))
      case None => r == None
      case Some((header, rest)) => r == Some(header) && buffer.Remainder() == rest
  {
    hide Decode;
    var header := Deserialize(buffer, map[], HEADER_SCHEMA);
    if header.None? {
      return None;
    }
    if PayloadSize !in header.value || header.value[PayloadSize] != Number(|buffer.Remainder()|) {
      return None;
    }
    return header;
  }

  method DeserializeWithTransactions(serialized: seq<Byte>) returns (r: Option<(Record, seq<seq<Byte>>)>)
    ensures r == DecodeBlock(serialized)
  {
    hide Decode, DecodeHeader;
    var buffer := new ByteBuffer.FromBuffer(serialized);
    var header := DeserializeHeader(buffer);
    if header.None? {
      return None;
    }
    var transactions := [];
    if |buffer.Remainder()| > 0 {
      var block := Deserialize(buffer, header.value, TRANSACTIONS_SCHEMA);
      if block.None? || TransactionList !in block.value || !block.value[TransactionList].List? {
        return None;
      }
      transactions := block.value[TransactionList].items;
    }
    if |buffer.Remainder()| != 0 {
      return None;
    }
    return Some((header.value, transactions));
  }

  lemma {:induction false} EncodeSplit(a: seq<Field>, b: seq<Field>, data: Record)
    ensures Encode(a + b, data) ==
      match Encode(a, data)
      case None => None
      case Some(head) =>
        match Encode(b, data)
        case None => None
        case Some(tail) => Some(head + tail)
    decreases |a|
  {
    hide FieldBytes;
    if a == [] {
      assert a + b == b;
      assert Encode(b, data).Some? ==> [] + Encode(b, data).value == Encode(b, data).value;
    } else {
      EncodeSplit(a[1..], b, data);
      assert (a + b)[1..] == a[1..] + b;
      if FieldBytes(a[0], data).Some? && Encode(a[1..], data).Some? && Encode(b, data).Some? {
        var f, h, t := FieldBytes(a[0], data).value, Encode(a[1..], data).value, Encode(b, data).value;
        assert f + (h + t) == f + h + t;
      }
    }
  }

  lemma EncodeOne(f: Field, data: Record)
    ensures Encode([f], data) == FieldBytes(f, data)
  {
    hide FieldBytes;
    assert FieldBytes(f, data).Some? ==> FieldBytes(f, data).value + [] == FieldBytes(f, data).value;
  }

  lemma DecodeOne(f: Field, target: Record, s: seq<Byte>)
    ensures Decode([f], target, s) == DecodeField(f, target, s)
  {
    hide DecodeField;
  }

  lemma HeaderIsDistinct()
    ensures DistinctProperties(HEADER_SCHEMA)
  {
  }

  /** A block as it is handed to the serializer: every header field has a value of its size, and the count is that of
      the transactions. */
  ghost predicate IsBlock(data: Record, items: seq<seq<Byte>>) {
    && Encode(HEADER_SCHEMA, data).Some? && ItemsBytes(items).Some?
    && HasAll(HEADER_SCHEMA, data) && (forall i :: 0 <= i < |HEADER_SCHEMA| ==> Sized(HEADER_SCHEMA[i], data))
    && COUNT in data && data[COUNT] == Number(|items|) && PayloadSize in data
    && TransactionList in data && data[TransactionList] == List(items)
  }

  /** The bytes of a block: always the fixed header and then the transactions. */
  lemma BlockBytes(data: Record, items: seq<seq<Byte>>)
    requires IsBlock(data, items)
    ensures Encode(BLOCK_SCHEMA, data) == Some(Encode(HEADER_SCHEMA, data).value + ItemsBytes(items).value)
    ensures |Encode(HEADER_SCHEMA, data).value| == HEADER_SIZE && |ItemsBytes(items).value| == SizeOfItems(items)
  {
    hide Encode, SchemaSize, ItemsBytes;
    EncodeSplit(HEADER_SCHEMA, TRANSACTIONS_SCHEMA, data);
    EncodeOne(TRANSACTIONS_SCHEMA[0], data);
    EncodedSize(HEADER_SCHEMA, data);
    HeaderSizeIs(data);
    ItemsSize(items);
  }

  lemma HeaderHasNoList(target: Record, data: Record)
    ensures forall i :: 0 <= i < |HEADER_SCHEMA| ==> Counted(HEADER_SCHEMA, i, target, data)
  {
  }

  lemma HeaderIsRestored(data: Record, items: seq<seq<Byte>>)
    requires IsBlock(data, items)
    ensures Encode(BLOCK_SCHEMA, data).Some?
    ensures Decode(HEADER_SCHEMA, map[], Encode(BLOCK_SCHEMA, data).value) ==
      Some((Restored(HEADER_SCHEMA, map[], data), ItemsBytes(items).value))
    ensures var header := Restored(HEADER_SCHEMA, map[], data);
      && COUNT in header && header[COUNT] == data[COUNT]
      && PayloadSize in header && header[PayloadSize] == data[PayloadSize]
  {
    hide Encode, Decode, Restored, ItemsBytes, Sized, Counted;
    BlockBytes(data, items);
    HeaderIsDistinct();
    HeaderHasNoList(map[], data);
    RoundTrip(HEADER_SCHEMA, map[], data, ItemsBytes(items).value);
    RestoredIs(HEADER_SCHEMA, map[], data, COUNT);
    RestoredIs(HEADER_SCHEMA, map[], data, PayloadSize);
    assert HEADER_SCHEMA[7].property == COUNT && HEADER_SCHEMA[11].property == PayloadSize;
  }

  lemma TransactionsAreRestored(header: Record, items: seq<seq<Byte>>)
    requires ItemsBytes(items).Some? && COUNT in header && header[COUNT] == Number(|items|)
    ensures Decode(TRANSACTIONS_SCHEMA, header, ItemsBytes(items).value) ==
      Some((header[TransactionList := List(items)], []))
  {
    hide ItemsBytes, DecodeItems;
    DecodeOne(TRANSACTIONS_SCHEMA[0], header, ItemsBytes(items).value);
    ItemsRoundTrip(items, []);
    assert ItemsBytes(items).value + [] == ItemsBytes(items).value;
  }

  lemma HasSize(items: seq<seq<Byte>>)
    requires items != []
    ensures SizeOfItems(items) >= 4
  {
  }

  /** A serialized block has exactly the size of a header plus the payload the forger counts, and is read back as it was
      written if and only if the header states that payload size; otherwise it is refused. */
  lemma BlockRoundTrip(data: Record, items: seq<seq<Byte>>)
    requires IsBlock(data, items)
    ensures Encode(BLOCK_SCHEMA, data).Some?
    ensures |Encode(BLOCK_SCHEMA, data).value| == HEADER_SIZE + SizeOfItems(items)
    ensures DecodeBlock(Encode(BLOCK_SCHEMA, data).value) ==
      if data[PayloadSize] == Number(SizeOfItems(items)) then Some((Restored(HEADER_SCHEMA, map[], data), items))
      else None
  {
    hide Encode, Decode, Restored, ItemsBytes, SizeOfItems;
    BlockBytes(data, items);
    HeaderIsRestored(data, items);
    TransactionsAreRestored(Restored(HEADER_SCHEMA, map[], data), items);
    if items != [] {
      HasSize(items);
    }
  }

  lemma {:induction false} SizeOfAppend(items: seq<seq<Byte>>, item: seq<Byte>)
    ensures SizeOfItems(items + [item]) == SizeOfItems(items) + 4 + |item|
  {
    if items != [] {
      SizeOfAppend(items[1..], item);
      assert (items + [item])[1..] == items[1..] + [item];
    } else {
      assert (items + [item])[1..] == [];
    }
  }

  /** The payload size the forger puts into the header is the size of the serialized transactions, so a forged block is
      read back from its bytes. */
  lemma {:induction false} ForgedPayloadSize(txs: seq<SenderPool.Tx>, items: seq<seq<Byte>>)
    requires |txs| == |items| && forall i :: 0 <= i < |txs| ==> txs[i].size == |items[i]|
    ensures PriorityQuery.Bytes(txs) == SizeOfItems(items)
    decreases |txs|
  {
    if txs == [] {
    } else {
      var n := |txs| - 1;
      ForgedPayloadSize(txs[..n], items[..n]);
      SizeOfAppend(items[..n], items[n]);
      assert items == items[..n] + [items[n]];
    }
  }

  lemma NoItems()
    ensures ItemsBytes([]) == Some([])
  {
  }

  lemma {:induction false} EncodeIgnores(schema: seq<Field>, data: Record, other: Record, p: Property)
    requires forall q :: q != p ==> (q in data <==> q in other) && (q in data ==> data[q] == other[q])
    requires forall i :: 0 <= i < |schema| ==> schema[i].property != p
    ensures Encode(schema, data) == Encode(schema, other)
    decreases |schema|
  {
    if schema == [] {
    } else {
      EncodeIgnores(schema[1..], data, other, p);
    }
  }

  /** No two byte strings are read as the same block. */
  lemma BlockIsCanonical(s: seq<Byte>)
    requires DecodeBlock(s).Some?
    ensures var (header, items) := DecodeBlock(s).value;
      Encode(BLOCK_SCHEMA, header[TransactionList := List(items)]) == Some(s)
  {
    hide Encode, Decode, ItemsBytes, DecodeItems;
    var (header, items) := DecodeBlock(s).value;
    var rest := DecodeHeader(s).value.1;
    var data := header[TransactionList := List(items)];
    HeaderIsDistinct();
    Canonical(HEADER_SCHEMA, map[], s);
    EncodeIgnores(HEADER_SCHEMA, header, data, TransactionList);
    EncodeSplit(HEADER_SCHEMA, TRANSACTIONS_SCHEMA, data);
    EncodeOne(TRANSACTIONS_SCHEMA[0], data);
    if rest == [] {
      NoItems();
    } else {
      DecodeOne(TRANSACTIONS_SCHEMA[0], header, rest);
      ItemsCanonical(if header[COUNT].n < 0 then 0 else header[COUNT].n, rest);
      assert ItemsBytes(items).value + [] == ItemsBytes(items).value;
    }
  }

  // Messages, proposals and proofs

  const MESSAGE_FIELDS: seq<Field> := [
    Field(MessageKind, Uint(1), false),
    Field(BlockNumber, Uint(4), false),
    Field(Round, Uint(4), false),
    Field(BlockHashOf, BlockHash, true)]

  const SIGNED_MESSAGE_SCHEMA: seq<Field> :=
    [Field(GenesisBlockHash, Hash(HASH_SIZE), false), Field(PreviousBlockHash, Hash(HASH_SIZE), false)] + MESSAGE_FIELDS

  const MESSAGE_SCHEMA: seq<Field> :=
    MESSAGE_FIELDS + [Field(ValidatorIndex, Uint(1), false), Field(Signature, ConsensusSignature, false)]

  const LOCK_PROOF_SCHEMA: seq<Field> :=
    [Field(Signature, ConsensusSignature, false), Field(Validators, ValidatorSet, false)]

  const COMMIT_PROOF_SCHEMA: seq<Field> := [Field(Round, Uint(4), false)] + LOCK_PROOF_SCHEMA

  const UNSIGNED_PROPOSAL_SCHEMA: seq<Field> := [
    Field(Round, Uint(4), false),
    Field(ValidRound, Uint(4), true),
    Field(ValidatorIndex, Uint(1), false),
    Field(Payload, Hex, false)]

  const PROPOSAL_SCHEMA: seq<Field> := UNSIGNED_PROPOSAL_SCHEMA + [Field(Signature, ConsensusSignature, false)]

  const LOCK_PROOF_SIZE := SIGNATURE_SIZE + 1 + 8

  const COMMIT_PROOF_SIZE := 4 + SIGNATURE_SIZE + 1 + 8

  function MessageSize(message: Record): nat {
    1 + 4 + 4 + 1 + 1 + (if BlockHashOf in message then HASH_SIZE else 0) + SIGNATURE_SIZE
  }

  function SignedMessageSize(message: Record): nat {
    HASH_SIZE + HASH_SIZE + 1 + 4 + 4 + 1 + (if BlockHashOf in message then HASH_SIZE else 0)
  }

  function UnsignedProposalSize(proposal: Record): nat
    requires Payload in proposal && proposal[Payload].Bytes?
  {
    4 + (if ValidRound in proposal then 5 else 1) + 4 + |proposal[Payload].bytes| + 1
  }

  /** A record a schema can write, byte strings having the sizes they are read with. */
  ghost predicate Fits(schema: seq<Field>, data: Record) {
    && Encode(schema, data).Some? && DistinctProperties(schema)
    && (forall i :: 0 <= i < |schema| ==> Sized(schema[i], data) && !schema[i].kind.Transactions?)
  }

  lemma {:induction false} WrittenIsPresent(schema: seq<Field>, data: Record, i: nat)
    requires Encode(schema, data).Some? && i < |schema|
    ensures FieldBytes(schema[i], data).Some?
    decreases |schema|
  {
    hide FieldBytes;
    if i == 0 {
    } else {
      WrittenIsPresent(schema[1..], data, i - 1);
    }
  }

  // Where everything stands in the bytes

  function Concat(parts: seq<seq<Byte>>): seq<Byte> {
    if parts == [] then [] else parts[0] + Concat(parts[1..])
  }

  lemma {:induction false} EncodeIsConcat(schema: seq<Field>, data: Record, parts: seq<seq<Byte>>)
    requires |parts| == |schema| && forall i :: 0 <= i < |schema| ==> FieldBytes(schema[i], data) == Some(parts[i])
    ensures Encode(schema, data) == Some(Concat(parts))
    decreases |schema|
  {
    hide FieldBytes;
    if schema == [] {
    } else {
      EncodeIsConcat(schema[1..], data, parts[1..]);
    }
  }

  /** The number or bytes of a property. */
  function NumberOf(data: Record, p: Property): nat {
    if p in data && data[p].Number? && data[p].n >= 0 then data[p].n else 0
  }

  function BytesOf(data: Record, p: Property): seq<Byte> {
    if p in data && data[p].Bytes? then data[p].bytes else []
  }

  function OptionalHash(data: Record): seq<Byte> {
    if BlockHashOf in data then [1] + BytesOf(data, BlockHashOf) else [0]
  }

  lemma UintBytes(f: Field, data: Record)
    requires f.kind.Uint? && !f.optional && FieldBytes(f, data).Some?
    ensures FieldBytes(f, data) == Some(LittleEndian(NumberOf(data, f.property), f.kind.width))
  {
  }

  lemma Uint256Bytes(f: Field, data: Record)
    requires f.kind.Uint256? && !f.optional && FieldBytes(f, data).Some?
    ensures FieldBytes(f, data) == Some(BigEndian(NumberOf(data, f.property), 32))
  {
  }

  lemma FixedBytes(f: Field, data: Record)
    requires IsFixedBytes(f.kind) && !f.optional && FieldBytes(f, data).Some?
    ensures FieldBytes(f, data) == Some(BytesOf(data, f.property))
  {
  }

  function PlainPart(f: Field, data: Record): seq<Byte> {
    match f.kind
    case Uint(width) => LittleEndian(NumberOf(data, f.property), width)
    case Uint256 => BigEndian(NumberOf(data, f.property), 32)
    case _ => BytesOf(data, f.property)
  }

  predicate IsPlain(f: Field) {
    !f.optional && (f.kind.Uint? || f.kind.Uint256? || IsFixedBytes(f.kind))
  }

  lemma PlainBytes(schema: seq<Field>, data: Record, i: nat)
    requires Encode(schema, data).Some? && i < |schema| && IsPlain(schema[i])
    ensures FieldBytes(schema[i], data) == Some(PlainPart(schema[i], data))
  {
    WrittenIsPresent(schema, data, i);
    hide Encode, LittleEndian, BigEndian;
    match schema[i].kind
    case Uint(_) => UintBytes(schema[i], data);
    case Uint256 => Uint256Bytes(schema[i], data);
    case _ => FixedBytes(schema[i], data);
  }

  /** A header is these bytes: integers of up to six bytes have the least significant one first, fee and reward the most
      significant one. */
  lemma HeaderLayout(data: Record)
    requires Encode(HEADER_SCHEMA, data).Some?
    ensures Encode(HEADER_SCHEMA, data) == Some(Concat([
      LittleEndian(NumberOf(data, Version), 1),
      LittleEndian(NumberOf(data, Timestamp), 6),
      LittleEndian(NumberOf(data, BlockNumber), 4),
      LittleEndian(NumberOf(data, Round), 4),
      BytesOf(data, ParentHash),
      BytesOf(data, StateRoot),
      BytesOf(data, LogsBloom),
      LittleEndian(NumberOf(data, TransactionsCount), 2),
      LittleEndian(NumberOf(data, GasUsed), 4),
      BigEndian(NumberOf(data, Fee), 32),
      BigEndian(NumberOf(data, Reward), 32),
      LittleEndian(NumberOf(data, PayloadSize), 4),
      BytesOf(data, TransactionsRoot),
      BytesOf(data, Proposer),
      BytesOf(data, RandaoReveal)]))
  {
    hide Encode, FieldBytes, LittleEndian, BigEndian, Concat, NumberOf, BytesOf;
    var h := HEADER_SCHEMA;
    var parts := seq(15, i requires 0 <= i < 15 => PlainPart(h[i], data));
    forall i | 0 <= i < 15 ensures FieldBytes(h[i], data) == Some(parts[i]) {
      PlainBytes(h, data, i);
    }
    EncodeIsConcat(h, data, parts);
    assert parts == [parts[0], parts[1], parts[2], parts[3], parts[4], parts[5], parts[6], parts[7], parts[8], parts[9],
                     parts[10], parts[11], parts[12], parts[13], parts[14]];
  }

  lemma OptionalHashBytes(schema: seq<Field>, data: Record, i: nat)
    requires Encode(schema, data).Some? && i < |schema| && schema[i] == Field(BlockHashOf, BlockHash, true)
    ensures FieldBytes(schema[i], data) == Some(OptionalHash(data))
  {
    WrittenIsPresent(schema, data, i);
  }

  /** A vote is these bytes, */
  lemma MessageLayout(data: Record)
    requires Encode(MESSAGE_SCHEMA, data).Some?
    ensures Encode(MESSAGE_SCHEMA, data) == Some(Concat([
      LittleEndian(NumberOf(data, MessageKind), 1),
      LittleEndian(NumberOf(data, BlockNumber), 4),
      LittleEndian(NumberOf(data, Round), 4),
      OptionalHash(data),
      LittleEndian(NumberOf(data, ValidatorIndex), 1),
      BytesOf(data, Signature)]))
  {
    hide Encode, FieldBytes, LittleEndian, BigEndian, Concat, NumberOf, BytesOf, OptionalHash;
    var m := MESSAGE_SCHEMA;
    var parts := seq(6, i requires 0 <= i < 6 => if i == 3 then OptionalHash(data) else PlainPart(m[i], data));
    forall i | 0 <= i < 6 ensures FieldBytes(m[i], data) == Some(parts[i]) {
      if i == 3 {
        OptionalHashBytes(m, data, i);
      } else {
        PlainBytes(m, data, i);
      }
    }
    EncodeIsConcat(m, data, parts);
    assert parts == [parts[0], parts[1], parts[2], parts[3], parts[4], parts[5]];
  }

  /** and what is signed of it, these: the same fields behind the hashes of the genesis and of the previous block. */
  lemma SignedMessageLayout(data: Record)
    requires Encode(SIGNED_MESSAGE_SCHEMA, data).Some?
    ensures Encode(SIGNED_MESSAGE_SCHEMA, data) == Some(Concat([
      BytesOf(data, GenesisBlockHash),
      BytesOf(data, PreviousBlockHash),
      LittleEndian(NumberOf(data, MessageKind), 1),
      LittleEndian(NumberOf(data, BlockNumber), 4),
      LittleEndian(NumberOf(data, Round), 4),
      OptionalHash(data)]))
  {
    hide Encode, FieldBytes, LittleEndian, BigEndian, Concat, NumberOf, BytesOf, OptionalHash;
    var m := SIGNED_MESSAGE_SCHEMA;
    var parts := seq(6, i requires 0 <= i < 6 => if i == 5 then OptionalHash(data) else PlainPart(m[i], data));
    forall i | 0 <= i < 6 ensures FieldBytes(m[i], data) == Some(parts[i]) {
      if i == 5 {
        OptionalHashBytes(m, data, i);
      } else {
        PlainBytes(m, data, i);
      }
    }
    EncodeIsConcat(m, data, parts);
    assert parts == [parts[0], parts[1], parts[2], parts[3], parts[4], parts[5]];
  }

  function FlagsOf(data: Record, p: Property): seq<bool> {
    if p in data && data[p].Flags? then data[p].flags else []
  }

  lemma OtherProposalBytes(data: Record)
    requires Encode(PROPOSAL_SCHEMA, data).Some?
    ensures FieldBytes(PROPOSAL_SCHEMA[1], data) ==
      Some(if ValidRound in data then [1] + LittleEndian(NumberOf(data, ValidRound), 4) else [0])
    ensures FieldBytes(PROPOSAL_SCHEMA[3], data) ==
      Some(LittleEndian(|BytesOf(data, Payload)|, 4) + BytesOf(data, Payload))
  {
    hide LittleEndian, Encode;
    WrittenIsPresent(PROPOSAL_SCHEMA, data, 1);
    WrittenIsPresent(PROPOSAL_SCHEMA, data, 3);
  }

  /** A proposal is these bytes. */
  lemma ProposalLayout(data: Record)
    requires Encode(PROPOSAL_SCHEMA, data).Some?
    ensures Encode(PROPOSAL_SCHEMA, data) == Some(Concat([
      LittleEndian(NumberOf(data, Round), 4),
      if ValidRound in data then [1] + LittleEndian(NumberOf(data, ValidRound), 4) else [0],
      LittleEndian(NumberOf(data, ValidatorIndex), 1),
      LittleEndian(|BytesOf(data, Payload)|, 4) + BytesOf(data, Payload),
      BytesOf(data, Signature)]))
  {
    OtherProposalBytes(data);
    hide Encode, FieldBytes, LittleEndian, BigEndian, Concat, NumberOf, BytesOf;
    var m := PROPOSAL_SCHEMA;
    PlainBytes(m, data, 0);
    PlainBytes(m, data, 2);
    PlainBytes(m, data, 4);
    var parts := [FieldBytes(m[0], data).value, FieldBytes(m[1], data).value, FieldBytes(m[2], data).value,
                  FieldBytes(m[3], data).value, FieldBytes(m[4], data).value];
    EncodeIsConcat(m, data, parts);
  }

  lemma ValidatorSetBytes(schema: seq<Field>, data: Record, i: nat)
    requires Encode(schema, data).Some? && i < |schema| && schema[i] == Field(Validators, ValidatorSet, false)
    ensures |FlagsOf(data, Validators)| < 256
    ensures FieldBytes(schema[i], data) ==
      Some([|FlagsOf(data, Validators)|] + LittleEndian(Packed(FlagsOf(data, Validators)), 8))
  {
    hide LittleEndian, Packed, Pow256;
    WrittenIsPresent(schema, data, i);
  }

  /** A commit proof is these bytes, and a lock proof the same without the round. */
  lemma ProofLayout(data: Record)
    requires Encode(COMMIT_PROOF_SCHEMA, data).Some?
    ensures |FlagsOf(data, Validators)| < 256
    ensures var flags := FlagsOf(data, Validators);
      && Encode(COMMIT_PROOF_SCHEMA, data) == Some(Concat([
           LittleEndian(NumberOf(data, Round), 4),
           BytesOf(data, Signature),
           [|flags|] + LittleEndian(Packed(flags), 8)]))
      && Encode(LOCK_PROOF_SCHEMA, data) == Some(Concat([
           BytesOf(data, Signature), [|flags|] + LittleEndian(Packed(flags), 8)]))
  {
    var m, flags := COMMIT_PROOF_SCHEMA, FlagsOf(data, Validators);
    ValidatorSetBytes(m, data, 2);
    hide Encode, FieldBytes, LittleEndian, BigEndian, Concat, NumberOf, BytesOf, Packed;
    PlainBytes(m, data, 0);
    PlainBytes(m, data, 1);
    var round, signature, set_ := FieldBytes(m[0], data).value, FieldBytes(m[1], data).value,
      FieldBytes(m[2], data).value;
    EncodeIsConcat(m, data, [round, signature, set_]);
    EncodeIsConcat(LOCK_PROOF_SCHEMA, data, [signature, set_]);
  }

  lemma SchemaStep(schema: seq<Field>, i: nat, data: Record)
    requires i < |schema| && Encode(schema, data).Some?
    ensures SchemaSize(schema[i..], data) == FieldSize(schema[i], data) + SchemaSize(schema[i + 1..], data)
    ensures !IsOptional(schema[i]) ==> schema[i].property in data
    ensures i == 0 ==> schema[i..] == schema
    ensures i == |schema| - 1 ==> SchemaSize(schema[i + 1..], data) == 0
  {
    assert schema[i..][1..] == schema[i + 1..];
    WrittenIsPresent(schema, data, i);
  }

  /** A record without a list of transactions takes up the size of its schema and is read back whole. */
  lemma RecordRoundTrip(schema: seq<Field>, data: Record)
    requires Fits(schema, data)
    ensures |Encode(schema, data).value| == SchemaSize(schema, data)
    ensures Decode(schema, map[], Encode(schema, data).value) == Some((Restored(schema, map[], data), []))
  {
    hide Encode, Decode, Restored, SchemaSize;
    EncodedSize(schema, data);
    assert forall i :: 0 <= i < |schema| ==> Counted(schema, i, map[], data);
    RoundTrip(schema, map[], data, []);
    assert Encode(schema, data).value + [] == Encode(schema, data).value;
  }

  /** The length the message serializer allocates is exactly what the message takes up. */
  lemma MessageRoundTrip(message: Record)
    requires Fits(MESSAGE_SCHEMA, message)
    ensures |Encode(MESSAGE_SCHEMA, message).value| == MessageSize(message)
    ensures Decode(MESSAGE_SCHEMA, map[], Encode(MESSAGE_SCHEMA, message).value) ==
      Some((Restored(MESSAGE_SCHEMA, map[], message), []))
  {
    var s := MESSAGE_SCHEMA;
    RecordRoundTrip(s, message);
    hide SchemaSize, Encode, Decode, Restored, Sized, DistinctProperties;
    SchemaStep(s, 5, message); SchemaStep(s, 4, message); SchemaStep(s, 3, message);
    SchemaStep(s, 2, message); SchemaStep(s, 1, message); SchemaStep(s, 0, message);
  }

  lemma SignedMessageSizeIs(message: Record)
    requires Fits(SIGNED_MESSAGE_SCHEMA, message)
    ensures |Encode(SIGNED_MESSAGE_SCHEMA, message).value| == SignedMessageSize(message)
  {
    var s := SIGNED_MESSAGE_SCHEMA;
    RecordRoundTrip(s, message);
    hide SchemaSize, Encode, Decode, Restored, Sized, DistinctProperties;
    SchemaStep(s, 5, message); SchemaStep(s, 4, message); SchemaStep(s, 3, message);
    SchemaStep(s, 2, message); SchemaStep(s, 1, message); SchemaStep(s, 0, message);
  }

  lemma RecordsDiffer(schema: seq<Field>, a: Record, b: Record, i: nat)
    requires Fits(schema, a) && Fits(schema, b) && i < |schema| && Encode(schema, a) == Encode(schema, b)
    ensures var p := schema[i].property;
      (p in a <==> p in b) && (p in a ==> a[p] == b[p])
  {
    hide Encode, Sized, DistinctProperties;
    assert forall k :: 0 <= k < |schema| ==> Counted(schema, k, map[], a) && Counted(schema, k, map[], b);
    EncodeInjective(schema, a, b, i);
  }

  /** What is signed determines the vote: its kind, block number, round and block hash, and the chain it is on. */
  lemma SignedMessagesDiffer(a: Record, b: Record, p: Property)
    requires Fits(SIGNED_MESSAGE_SCHEMA, a) && Fits(SIGNED_MESSAGE_SCHEMA, b)
    requires Encode(SIGNED_MESSAGE_SCHEMA, a) == Encode(SIGNED_MESSAGE_SCHEMA, b)
    requires p in {GenesisBlockHash, PreviousBlockHash, MessageKind, BlockNumber, Round, BlockHashOf}
    ensures (p in a <==> p in b) && (p in a ==> a[p] == b[p])
  {
    hide Fits, Encode;
    var s := SIGNED_MESSAGE_SCHEMA;
    assert s[0].property == GenesisBlockHash && s[1].property == PreviousBlockHash && s[2].property == MessageKind;
    assert s[3].property == BlockNumber && s[4].property == Round && s[5].property == BlockHashOf;
    var i :| 0 <= i < |s| && s[i].property == p;
    RecordsDiffer(s, a, b, i);
  }

  lemma LockProofRoundTrip(proof: Record)
    requires Fits(LOCK_PROOF_SCHEMA, proof)
    ensures |Encode(LOCK_PROOF_SCHEMA, proof).value| == LOCK_PROOF_SIZE
    ensures Decode(LOCK_PROOF_SCHEMA, map[], Encode(LOCK_PROOF_SCHEMA, proof).value) ==
      Some((Restored(LOCK_PROOF_SCHEMA, map[], proof), []))
  {
    var s := LOCK_PROOF_SCHEMA;
    RecordRoundTrip(s, proof);
    hide SchemaSize, Encode, Decode, Restored, Sized, DistinctProperties;
    SchemaStep(s, 1, proof); SchemaStep(s, 0, proof);
  }

  lemma CommitProofRoundTrip(proof: Record)
    requires Fits(COMMIT_PROOF_SCHEMA, proof)
    ensures |Encode(COMMIT_PROOF_SCHEMA, proof).value| == COMMIT_PROOF_SIZE
    ensures Decode(COMMIT_PROOF_SCHEMA, map[], Encode(COMMIT_PROOF_SCHEMA, proof).value) ==
      Some((Restored(COMMIT_PROOF_SCHEMA, map[], proof), []))
  {
    var s := COMMIT_PROOF_SCHEMA;
    RecordRoundTrip(s, proof);
    hide SchemaSize, Encode, Decode, Restored, Sized, DistinctProperties;
    SchemaStep(s, 2, proof); SchemaStep(s, 1, proof); SchemaStep(s, 0, proof);
  }

  lemma ProposalRoundTrip(proposal: Record)
    requires Fits(PROPOSAL_SCHEMA, proposal)
    ensures Payload in proposal && proposal[Payload].Bytes?
    ensures |Encode(PROPOSAL_SCHEMA, proposal).value| == UnsignedProposalSize(proposal) + SIGNATURE_SIZE
    ensures Decode(PROPOSAL_SCHEMA, map[], Encode(PROPOSAL_SCHEMA, proposal).value) ==
      Some((Restored(PROPOSAL_SCHEMA, map[], proposal), []))
  {
    var s := PROPOSAL_SCHEMA;
    RecordRoundTrip(s, proposal);
    WrittenIsPresent(s, proposal, 3);
    hide SchemaSize, Encode, Decode, Restored, Sized, DistinctProperties;
    SchemaStep(s, 4, proposal); SchemaStep(s, 3, proposal); SchemaStep(s, 2, proposal);
    SchemaStep(s, 1, proposal); SchemaStep(s, 0, proposal);
  }
}
