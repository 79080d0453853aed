/** The schema-driven serializer: a list of typed fields is written to a cursor buffer in order, and read back. */
module Serializer {
  import opened Wrappers
  import opened Arithmetic
  import opened ByteBuffers

  /** `Hash` is a byte string of a fixed size; the other byte strings have a size of their own. */
  datatype Kind =
    | Uint(width: nat)
    | Uint256
    | Hash(size: nat)
    | BlockHash
    | Address
    | PublicKey
    | ConsensusSignature
    | ValidatorSet
    | Hex
    | Transactions

  /** The property names the schemas of the system use, and any other one. */
  datatype Property =
    | Version
    | Timestamp
    | BlockNumber
    | Round
    | ParentHash
    | StateRoot
    | LogsBloom
    | TransactionsCount
    | GasUsed
    | Fee
    | Reward
    | PayloadSize
    | TransactionsRoot
    | Proposer
    | RandaoReveal
    | TransactionList
    | MessageKind
    | BlockHashOf
    | ValidatorIndex
    | Signature
    | Validators
    | ValidRound
    | Payload
    | GenesisBlockHash
    | PreviousBlockHash
    | Named(name: string)

  datatype Field = Field(property: Property, kind: Kind, optional: bool)

  datatype Value =
    | Number(n: int)
    | Bytes(bytes: seq<Byte>)
    | Flags(flags: seq<bool>)
    | List(items: seq<seq<Byte>>)

  /** An object: a property that is not in the map is undefined. */
  type Record = map<Property, Value>

  const HASH_SIZE := 32
  const ADDRESS_SIZE := 20
  const PUBLIC_KEY_SIZE := 33
  const SIGNATURE_SIZE := 96
  const COUNT := TransactionsCount

  /** Only these kinds look at the `optional` mark of a field. */
  predicate TakesOptional(kind: Kind) {
    kind.Uint? || kind.Uint256? || kind.BlockHash?
  }

  predicate IsOptional(f: Field) {
    f.optional && TakesOptional(f.kind)
  }

  /** The number of bytes a byte string of this kind is read back with. */
  function SizeOf(kind: Kind): nat {
    match kind
    case Hash(size) => size
    case BlockHash => HASH_SIZE
    case Address => ADDRESS_SIZE
    case PublicKey => PUBLIC_KEY_SIZE
    case _ => SIGNATURE_SIZE
  }

  predicate IsFixedBytes(kind: Kind) {
    kind.Hash? || kind.BlockHash? || kind.Address? || kind.PublicKey? || kind.ConsensusSignature?
  }

  // Sets of validators as bits

  function Pow2(n: nat): (r: nat)
    ensures r > 0
  {
    if n == 0 then 1 else 2 * Pow2(n - 1)
  }

  /** The bit of weight 2^i is the flag of validator `i`. */
  function Packed(flags: seq<bool>): nat {
    if flags == [] then 0 else (if flags[0] then 1 else 0) + 2 * Packed(flags[1..])
  }

  function Unpacked(packed: nat, n: nat): (flags: seq<bool>)
    ensures |flags| == n
    decreases n
  {
    if n == 0 then [] else [packed % 2 == 1] + Unpacked(packed / 2, n - 1)
  }

  lemma {:induction false} UnpackedPacked(flags: seq<bool>)
    ensures Unpacked(Packed(flags), |flags|) == flags && Packed(flags) < Pow2(|flags|)
  {
    if flags == [] {
    } else {
      UnpackedPacked(flags[1..]);
      assert flags == [flags[0]] + flags[1..];
    }
  }

  lemma {:induction false} PackedUnpacked(packed: nat, n: nat)
    requires packed < Pow2(n)
    ensures Packed(Unpacked(packed, n)) == packed
    decreases n
  {
    if n == 0 {
    } else {
      PackedUnpacked(packed / 2, n - 1);
      assert Unpacked(packed, n)[1..] == Unpacked(packed / 2, n - 1);
    }
  }

  lemma {:induction false} PackedAppend(flags: seq<bool>, flag: bool)
    ensures Packed(flags + [flag]) == Packed(flags) + if flag then Pow2(|flags|) else 0
  {
    if flags == [] {
    } else {
      PackedAppend(flags[1..], flag);
      assert (flags + [flag])[1..] == flags[1..] + [flag];
    }
  }

  method ValidatorSetPack(validatorSet: seq<bool>) returns (packed: nat)
    ensures packed == Packed(validatorSet)
  {
    packed := 0;
    var weight := 1;
    for index := 0 to |validatorSet|
      invariant packed == Packed(validatorSet[..index]) && weight == Pow2(index)
    {
      assert validatorSet[..index + 1] == validatorSet[..index] + [validatorSet[index]];
      PackedAppend(validatorSet[..index], validatorSet[index]);
      if validatorSet[index] {
        packed := packed + weight;
      }
      weight := 2 * weight;
    }
    assert validatorSet[..|validatorSet|] == validatorSet;
  }

  lemma HalfOfQuotient(x: nat, p: nat)
    requires p > 0
    ensures x / 2 / p == x / (2 * p)
  {
    var q, r := x / (2 * p), x % (2 * p);
    assert x == 2 * p * q + r && 2 * p * q == 2 * (p * q);
    assert x / 2 == p * q + r / 2 && 0 <= r / 2 < p;
    QuotientIs(x / 2, p, q, r / 2);
  }

  lemma NoQuotient(x: nat, p: nat)
    requires p > 0
    ensures x / p == 0 <==> x < p
  {
    if x < p {
      QuotientIs(x, p, 0, x);
    }
  }

  lemma {:induction false} UnpackedAt(packed: nat, n: nat, i: nat)
    requires i < n
    ensures Unpacked(packed, n)[i] <==> packed / Pow2(i) % 2 == 1
  {
    if i == 0 {
    } else {
      UnpackedAt(packed / 2, n - 1, i - 1);
      HalfOfQuotient(packed, Pow2(i - 1));
    }
  }

  /** Refuses a number with bits beyond the validators. */
  method ValidatorSetUnpack(packed: nat, numberOfValidators: nat) returns (r: Option<seq<bool>>)
    ensures r == if packed < Pow2(numberOfValidators) then Some(Unpacked(packed, numberOfValidators)) else None
  {
    NoQuotient(packed, Pow2(numberOfValidators));
    if packed / Pow2(numberOfValidators) != 0 {
      return None;
    }
    var validatorSet, mask := [], 1;
    for index := 0 to numberOfValidators
      invariant validatorSet == Unpacked(packed, numberOfValidators)[..index] && mask == Pow2(index)
    {
      UnpackedAt(packed, numberOfValidators, index);
      validatorSet := validatorSet + [packed / mask % 2 == 1];
      mask := 2 * mask;
    }
    assert validatorSet == Unpacked(packed, numberOfValidators);
    return Some(validatorSet);
  }

  // What is written

  /** Every item behind its length, as four bytes. */
  function ItemsBytes(items: seq<seq<Byte>>): Option<seq<Byte>> {
    if items == [] then Some([])
    else
      match ItemsBytes(items[1..])
      case None => None
      case Some(rest) =>
        if |items[0]| < Pow256(4) then Some(LittleEndian(|items[0]|, 4) + items[0] + rest) else None
  }

  function ValueBytes(kind: Kind, v: Value): Option<seq<Byte>> {
    match kind
    case Uint(width) =>
      if v.Number? && 0 <= v.n < Pow256(width) then Some(LittleEndian(v.n, width)) else None
    case Uint256 =>
      if v.Number? && 0 <= v.n < Pow256(32) then Some(BigEndian(v.n, 32)) else None
    case ValidatorSet =>
      if v.Flags? && |v.flags| < 256 && Packed(v.flags) < Pow256(8)
      then Some([|v.flags|] + LittleEndian(Packed(v.flags), 8)) else None
    case Hex =>
      if v.Bytes? && |v.bytes| < Pow256(4) then Some(LittleEndian(|v.bytes|, 4) + v.bytes) else None
    case Transactions =>
      if v.List? then ItemsBytes(v.items) else None
    case _ =>
      if v.Bytes? then Some(v.bytes) else None
  }

  function FieldBytes(f: Field, data: Record): Option<seq<Byte>> {
    if f.property !in data then
      if IsOptional(f) then Some([0]) else None
    else
      match ValueBytes(f.kind, data[f.property])
      case None => None
      case Some(bytes) => if IsOptional(f) then Some([1] + bytes) else Some(bytes)
  }

  /** The bytes of a record under a schema, or `None` where writing it throws. */
  function Encode(schema: seq<Field>, data: Record): Option<seq<Byte>> {
    if schema == [] then Some([])
    else
      match FieldBytes(schema[0], data)
      case None => None
      case Some(bytes) =>
        match Encode(schema[1..], data)
        case None => None
        case Some(rest) => Some(bytes + rest)
  }

  // What is read

  function DecodeItems(count: nat, s: seq<Byte>): Option<(seq<seq<Byte>>, seq<Byte>)> {
    if count == 0 then Some(([], s))
    else if |s| < 4 then None
    else
      var length := FromLittleEndian(s[..4]);
      if |s| - 4 < length then None
      else
        match DecodeItems(count - 1, s[4 + length..])
        case None => None
        case Some((items, rest)) => Some(([s[4..4 + length]] + items, rest))
  }

  function DecodeValue(kind: Kind, target: Record, s: seq<Byte>): Option<(Value, seq<Byte>)> {
    match kind
    case Uint(width) =>
      if width <= |s| then Some((Number(FromLittleEndian(s[..width])), s[width..])) else None
    case Uint256 =>
      if 32 <= |s| then Some((Number(FromBigEndian(s[..32])), s[32..])) else None
    case ValidatorSet =>
      if |s| < 9 then None
      else
        var packed := FromLittleEndian(s[1..9]);
        if packed < Pow2(s[0]) then Some((Flags(Unpacked(packed, s[0])), s[9..])) else None
    case Hex =>
      if |s| < 4 then None
      else
        var length := FromLittleEndian(s[..4]);
        if |s| - 4 < length then None else Some((Bytes(s[4..4 + length]), s[4 + length..]))
    case Transactions =>
      if COUNT !in target || !target[COUNT].Number? then None
      else
        (match DecodeItems(if target[COUNT].n < 0 then 0 else target[COUNT].n, s)
         case None => None
         case Some((items, rest)) => Some((List(items), rest)))
    case _ =>
      if SizeOf(kind) <= |s| then Some((Bytes(s[..SizeOf(kind)]), s[SizeOf(kind)..])) else None
  }

  /** An optional field starts with 0 or 1; anything else is refused. */
  function DecodeField(f: Field, target: Record, s: seq<Byte>): Option<(Record, seq<Byte>)> {
    if IsOptional(f) && s == [] then None
    else if IsOptional(f) && s[0] == 0 then Some((target - {f.property}, s[1..]))
    else if IsOptional(f) && s[0] != 1 then None
    else
      match DecodeValue(f.kind, target, if IsOptional(f) then s[1..] else s)
      case None => None
      case Some((v, rest)) => Some((target[f.property := v], rest))
  }

  function Decode(schema: seq<Field>, target: Record, s: seq<Byte>): Option<(Record, seq<Byte>)> {
    if schema == [] then Some((target, s))
    else
      match DecodeField(schema[0], target, s)
      case None => None
      case Some((next, rest)) => Decode(schema[1..], next, rest)
  }

  // Reading back what was written

  predicate DistinctProperties(schema: seq<Field>) {
    forall i, j :: 0 <= i < j < |schema| ==> schema[i].property != schema[j].property
  }

  /** Byte strings of fixed size have that size: the writer does not look at it. */
  predicate Sized(f: Field, data: Record) {
    f.property in data && IsFixedBytes(f.kind) && data[f.property].Bytes? ==>
      |data[f.property].bytes| == SizeOf(f.kind)
  }

  /** The count of a list is known when the list is read. */
  predicate Counted(schema: seq<Field>, i: nat, target: Record, data: Record)
    requires i < |schema|
  {
    schema[i].kind.Transactions? && schema[i].property in data && data[schema[i].property].List? ==>
      && COUNT in data && data[COUNT] == Number(|data[schema[i].property].items|)
      && ((COUNT in target && target[COUNT] == data[COUNT]) ||
          exists j :: 0 <= j < i && schema[j].property == COUNT)
  }

  ghost predicate WellTyped(schema: seq<Field>, target: Record, data: Record) {
    && DistinctProperties(schema)
    && (forall i :: 0 <= i < |schema| ==> Sized(schema[i], data) && Counted(schema, i, target, data))
  }

  function Assigned(target: Record, property: Property, data: Record): Record {
    if property in data then target[property := data[property]] else target - {property}
  }

  function Restored(schema: seq<Field>, target: Record, data: Record): Record {
    if schema == [] then target
    else Restored(schema[1..], Assigned(target, schema[0].property, data), data)
  }

  lemma Sliced(head: seq<Byte>, item: seq<Byte>, rest: seq<Byte>)
    requires |head| == 4
    ensures var s := head + item + rest;
      s[..4] == head && s[4..4 + |item|] == item && s[4 + |item|..] == rest
  {
  }

  lemma FirstItem(count: nat, item: seq<Byte>, rest: seq<Byte>)
    requires |item| < Pow256(4)
    ensures DecodeItems(count + 1, LittleEndian(|item|, 4) + item + rest) ==
      match DecodeItems(count, rest)
      case None => None
      case Some((items, after)) => Some(([item] + items, after))
  {
    hide LittleEndian, FromLittleEndian, Pow256;
    LittleEndianRoundTrip(|item|, 4);
    Sliced(LittleEndian(|item|, 4), item, rest);
  }

  lemma Regrouped<T>(a: seq<T>, b: seq<T>, c: seq<T>, d: seq<T>)
    ensures a + b + c + d == a + b + (c + d)
  {
  }

  lemma HeadAndTail<T>(s: seq<T>)
    requires s != []
    ensures [s[0]] + s[1..] == s
  {
  }

  lemma {:induction false} ItemsRoundTrip(items: seq<seq<Byte>>, rest: seq<Byte>)
    requires ItemsBytes(items).Some?
    ensures DecodeItems(|items|, ItemsBytes(items).value + rest) == Some((items, rest))
  {
    hide LittleEndian, Pow256;
    if items != [] {
      ItemsRoundTrip(items[1..], rest);
      var tail := ItemsBytes(items[1..]).value;
      hide DecodeItems;
      FirstItem(|items| - 1, items[0], tail + rest);
      Regrouped(LittleEndian(|items[0]|, 4), items[0], tail, rest);
      HeadAndTail(items);
    } else {
      assert [] + rest == rest;
    }
  }

  lemma ValueRoundTrip(kind: Kind, v: Value, target: Record, rest: seq<Byte>)
    requires ValueBytes(kind, v).Some?
    requires IsFixedBytes(kind) ==> |v.bytes| == SizeOf(kind)
    requires kind.Transactions? ==> COUNT in target && target[COUNT] == Number(|v.items|)
    ensures DecodeValue(kind, target, ValueBytes(kind, v).value + rest) == Some((v, rest))
  {
    hide LittleEndian, FromLittleEndian, BigEndian, FromBigEndian, Pow256, Pow2, Packed, Unpacked;
    hide DecodeItems, ItemsBytes;
    var bytes := ValueBytes(kind, v).value;
    var s := bytes + rest;
    match kind
    case Uint(width) =>
      LittleEndianRoundTrip(v.n, width);
      assert s[..width] == bytes && s[width..] == rest;
    case Uint256 =>
      BigEndianRoundTrip(v.n, 32);
      assert s[..32] == bytes && s[32..] == rest;
    case ValidatorSet =>
      LittleEndianRoundTrip(Packed(v.flags), 8);
      UnpackedPacked(v.flags);
      assert s[1..9] == LittleEndian(Packed(v.flags), 8) && s[9..] == rest && s[0] == |v.flags|;
    case Hex =>
      LittleEndianRoundTrip(|v.bytes|, 4);
      assert s[..4] == LittleEndian(|v.bytes|, 4) && s[4..4 + |v.bytes|] == v.bytes && s[4 + |v.bytes|..] == rest;
    case Transactions =>
      ItemsRoundTrip(v.items, rest);
    case _ =>
      assert s[..SizeOf(kind)] == bytes && s[SizeOf(kind)..] == rest;
  }

  lemma FixedAreBytes(kind: Kind, v: Value)
    requires ValueBytes(kind, v).Some?
    ensures IsFixedBytes(kind) ==> v.Bytes?
    ensures kind.Transactions? ==> v.List?
  {
  }

  lemma FieldRoundTrip(f: Field, target: Record, data: Record, rest: seq<Byte>)
    requires FieldBytes(f, data).Some? && Sized(f, data)
    requires f.kind.Transactions? ==>
      COUNT in target && data[f.property].List? && target[COUNT] == Number(|data[f.property].items|)
    ensures DecodeField(f, target, FieldBytes(f, data).value + rest) == Some((Assigned(target, f.property, data), rest))
  {
    hide ValueBytes, DecodeValue;
    var s := FieldBytes(f, data).value + rest;
    if f.property in data {
      var v := data[f.property];
      FixedAreBytes(f.kind, v);
      ValueRoundTrip(f.kind, v, target, rest);
      if IsOptional(f) {
        assert s[1..] == ValueBytes(f.kind, v).value + rest;
      }
    } else {
      assert s[1..] == rest;
    }
  }

  lemma WellTypedTail(schema: seq<Field>, target: Record, data: Record)
    requires schema != [] && WellTyped(schema, target, data)
    ensures WellTyped(schema[1..], Assigned(target, schema[0].property, data), data)
  {
    var next := Assigned(target, schema[0].property, data);
    forall i | 0 <= i < |schema[1..]|
      ensures Sized(schema[1..][i], data) && Counted(schema[1..], i, next, data)
    {
      assert Sized(schema[i + 1], data) && Counted(schema, i + 1, target, data);
      if exists j :: 1 <= j < i + 1 && schema[j].property == COUNT {
        var j :| 1 <= j < i + 1 && schema[j].property == COUNT;
        assert schema[1..][j - 1].property == COUNT;
      }
    }
  }

  /** Reading consumes exactly the bytes written and restores every property of the schema. */
  lemma {:induction false} RoundTrip(schema: seq<Field>, target: Record, data: Record, rest: seq<Byte>)
    requires Encode(schema, data).Some? && WellTyped(schema, target, data)
    ensures Decode(schema, target, Encode(schema, data).value + rest) == Some((Restored(schema, target, data), rest))
    decreases |schema|
  {
    hide ValueBytes, DecodeField;
    if schema == [] {
      assert [] + rest == rest;
    } else {
      var f, tail := schema[0], Encode(schema[1..], data).value;
      assert Sized(f, data) && Counted(schema, 0, target, data);
      if f.kind.Transactions? {
        FixedAreBytes(f.kind, data[f.property]);
      }
      FieldRoundTrip(f, target, data, tail + rest);
      WellTypedTail(schema, target, data);
      RoundTrip(schema[1..], Assigned(target, f.property, data), data, rest);
      assert Encode(schema, data).value + rest == FieldBytes(f, data).value + (tail + rest);
    }
  }

  /** `Restored` in one line: the properties of the schema come from the data, the others stay. */
  lemma {:induction false} RestoredIs(schema: seq<Field>, target: Record, data: Record, p: Property)
    ensures (exists i :: 0 <= i < |schema| && schema[i].property == p) ==>
      (p in Restored(schema, target, data) <==> p in data) &&
      (p in data ==> Restored(schema, target, data)[p] == data[p])
    ensures (forall i :: 0 <= i < |schema| ==> schema[i].property != p) ==>
      (p in Restored(schema, target, data) <==> p in target) &&
      (p in target ==> Restored(schema, target, data)[p] == target[p])
    decreases |schema|
  {
    if schema == [] {
    } else {
      RestoredIs(schema[1..], Assigned(target, schema[0].property, data), data, p);
      if exists i :: 1 <= i < |schema| && schema[i].property == p {
        var i :| 1 <= i < |schema| && schema[i].property == p;
        assert schema[1..][i - 1].property == p;
      } else {
        assert forall i :: 0 <= i < |schema[1..]| ==> schema[1..][i].property != p;
      }
    }
  }

  /** Two records with the same bytes agree on every property of the schema. */
  lemma EncodeInjective(schema: seq<Field>, a: Record, b: Record, i: nat)
    requires i < |schema| && WellTyped(schema, map[], a) && WellTyped(schema, map[], b)
    requires Encode(schema, a).Some? && Encode(schema, a) == Encode(schema, b)
    ensures var p := schema[i].property;
      (p in a <==> p in b) && (p in a ==> a[p] == b[p])
  {
    hide Encode, Decode, Restored;
    RoundTrip(schema, map[], a, []);
    RoundTrip(schema, map[], b, []);
    RestoredIs(schema, map[], a, schema[i].property);
    RestoredIs(schema, map[], b, schema[i].property);
  }

  // Writing back what was read

  lemma {:induction false} ItemsCanonical(count: nat, s: seq<Byte>)
    requires DecodeItems(count, s).Some?
    ensures var (items, rest) := DecodeItems(count, s).value;
      |items| == count && ItemsBytes(items).Some? && ItemsBytes(items).value + rest == s
    decreases count
  {
    hide LittleEndian, FromLittleEndian, Pow256;
    if count > 0 {
      var length := FromLittleEndian(s[..4]);
      FromLittleEndianFits(s[..4]);
      var item, after := s[4..4 + length], s[4 + length..];
      ItemsCanonical(count - 1, after);
      var (tail, rest) := DecodeItems(count - 1, after).value;
      assert DecodeItems(count, s) == Some(([item] + tail, rest));
      hide DecodeItems;
      assert ([item] + tail)[1..] == tail;
      Regrouped(s[..4], item, ItemsBytes(tail).value, rest);
      assert s == s[..4] + item + after;
    } else {
      assert [] + s == s;
    }
  }

  lemma ValidatorSetCanonical(s: seq<Byte>)
    requires |s| >= 9 && FromLittleEndian(s[1..9]) < Pow2(s[0])
    ensures var flags := Unpacked(FromLittleEndian(s[1..9]), s[0]);
      Packed(flags) < Pow256(8) && [|flags|] + LittleEndian(Packed(flags), 8) + s[9..] == s
  {
    hide LittleEndian, FromLittleEndian, Pow256, Pow2, Packed, Unpacked;
    FromLittleEndianFits(s[1..9]);
    PackedUnpacked(FromLittleEndian(s[1..9]), s[0]);
    assert s == [s[0]] + s[1..9] + s[9..];
  }

  lemma HexCanonical(s: seq<Byte>)
    requires |s| >= 4 && |s| - 4 >= FromLittleEndian(s[..4])
    ensures var length := FromLittleEndian(s[..4]);
      length < Pow256(4) && LittleEndian(length, 4) + s[4..4 + length] + s[4 + length..] == s
  {
    hide LittleEndian, FromLittleEndian, Pow256;
    FromLittleEndianFits(s[..4]);
    var length := FromLittleEndian(s[..4]);
    assert s == s[..4] + s[4..4 + length] + s[4 + length..];
  }

  lemma ValueCanonical(kind: Kind, target: Record, s: seq<Byte>)
    requires DecodeValue(kind, target, s).Some?
    ensures var (v, rest) := DecodeValue(kind, target, s).value;
      ValueBytes(kind, v).Some? && ValueBytes(kind, v).value + rest == s
  {
    hide LittleEndian, FromLittleEndian, BigEndian, FromBigEndian, Pow256, Pow2, Packed, Unpacked;
    hide DecodeItems, ItemsBytes;
    var (v, rest) := DecodeValue(kind, target, s).value;
    match kind
    case Uint(width) =>
      FromLittleEndianFits(s[..width]);
      assert s == s[..width] + s[width..];
    case Uint256 =>
      FromBigEndianFits(s[..32]);
      assert s == s[..32] + s[32..];
    case ValidatorSet =>
      ValidatorSetCanonical(s);
    case Hex =>
      HexCanonical(s);
    case Transactions =>
      ItemsCanonical(if target[COUNT].n < 0 then 0 else target[COUNT].n, s);
    case _ =>
      assert s == s[..SizeOf(kind)] + s[SizeOf(kind)..];
  }

  lemma FieldCanonical(f: Field, target: Record, s: seq<Byte>)
    requires DecodeField(f, target, s).Some?
    ensures var (next, rest) := DecodeField(f, target, s).value;
      FieldBytes(f, next).Some? && FieldBytes(f, next).value + rest == s
  {
    hide ValueBytes, DecodeValue;
    if IsOptional(f) {
      assert s == [s[0]] + s[1..];
      if s[0] == 1 {
        ValueCanonical(f.kind, target, s[1..]);
        var (v, rest) := DecodeValue(f.kind, target, s[1..]).value;
        assert [1] + ValueBytes(f.kind, v).value + rest == [1] + (ValueBytes(f.kind, v).value + rest);
      }
    } else {
      ValueCanonical(f.kind, target, s);
    }
  }

  lemma {:induction false} DecodeKeeps(schema: seq<Field>, target: Record, s: seq<Byte>, p: Property)
    requires Decode(schema, target, s).Some? && forall i :: 0 <= i < |schema| ==> schema[i].property != p
    ensures p in Decode(schema, target, s).value.0 <==> p in target
    ensures p in target ==> Decode(schema, target, s).value.0[p] == target[p]
    decreases |schema|
  {
    hide DecodeValue;
    if schema == [] {
    } else {
      var (next, rest) := DecodeField(schema[0], target, s).value;
      DecodeKeeps(schema[1..], next, rest, p);
    }
  }

  /** There is one encoding of a record only: whatever is read is written back as the bytes it was read from. */
  lemma {:induction false} Canonical(schema: seq<Field>, target: Record, s: seq<Byte>)
    requires Decode(schema, target, s).Some? && DistinctProperties(schema)
    ensures var (data, rest) := Decode(schema, target, s).value;
      Encode(schema, data).Some? && Encode(schema, data).value + rest == s
    decreases |schema|
  {
    hide ValueBytes, DecodeField;
    if schema == [] {
      assert [] + s == s;
    } else {
      var f := schema[0];
      var (next, middle) := DecodeField(f, target, s).value;
      var (data, rest) := Decode(schema, target, s).value;
      FieldCanonical(f, target, s);
      Canonical(schema[1..], next, middle);
      DecodeKeeps(schema[1..], next, middle, f.property);
      assert FieldBytes(f, data) == FieldBytes(f, next);
      assert Encode(schema, data).value + rest == FieldBytes(f, next).value + (Encode(schema[1..], data).value + rest);
    }
  }

  // The serializer

  lemma OneByte(v: nat)
    ensures Pow256(1) == 256
    ensures v < 256 ==> LittleEndian(v, 1) == [v]
  {
  }

  method WriteValidatorSet(result: ByteBuffer, flags: seq<bool>) returns (ok: bool)
    requires result.Valid()
    modifies result, result.buffer
    ensures result.Valid()
    ensures ok ==> ValueBytes(ValidatorSet, Flags(flags)).Some?
    ensures ok ==> result.Result() == old(result.Result()) + ValueBytes(ValidatorSet, Flags(flags)).value
    ensures !ok ==> |flags| >= 256 || Packed(flags) >= Pow256(8) || 9 > result.buffer.Length - old(result.offset)
  {
    hide LittleEndian, Pow256, Packed;
    OneByte(|flags|);
    ghost var before := result.Result();
    var packed := ValidatorSetPack(flags);
    ok := result.WriteUint(|flags|, 1);
    if ok {
      ok := result.WriteUint(packed, 8);
      assert ok ==> result.Result() == before + ([|flags|] + LittleEndian(packed, 8));
    }
  }

  method WriteItem(result: ByteBuffer, item: seq<Byte>) returns (ok: bool)
    requires result.Valid()
    modifies result, result.buffer
    ensures result.Valid()
    ensures ok ==> |item| < Pow256(4) && result.offset == old(result.offset) + 4 + |item|
    ensures ok ==> result.Result() == old(result.Result()) + (LittleEndian(|item|, 4) + item)
    ensures !ok ==> |item| >= Pow256(4) || 4 + |item| > result.buffer.Length - old(result.offset)
  {
    hide LittleEndian, Pow256;
    ok := result.WriteUint(|item|, 4);
    if ok {
      ok := result.WriteBytes(item);
    }
  }

  method WriteItems(result: ByteBuffer, items: seq<seq<Byte>>) returns (ok: bool)
    requires result.Valid()
    modifies result, result.buffer
    ensures result.Valid()
    ensures ok ==> ItemsBytes(items).Some? && result.Result() == old(result.Result()) + ItemsBytes(items).value
    ensures !ok ==> ItemsBytes(items).None? || |ItemsBytes(items).value| > result.buffer.Length - old(result.offset)
  {
    hide LittleEndian, Pow256;
    ghost var before := result.Result();
    assert items[0..] == items;
    for i := 0 to |items|
      invariant result.Valid()
      invariant ItemsBytes(items[i..]).None? ==> ItemsBytes(items).None?
      invariant ItemsBytes(items[i..]).Some? ==>
        ItemsBytes(items).Some? && result.Result() + ItemsBytes(items[i..]).value == before + ItemsBytes(items).value
    {
      assert items[i..][1..] == items[i + 1..];
      ok := WriteItem(result, items[i]);
      if !ok {
        return;
      }
    }
    ok := true;
  }

  method WriteValue(result: ByteBuffer, kind: Kind, v: Value) returns (ok: bool)
    requires result.Valid()
    modifies result, result.buffer
    ensures result.Valid()
    ensures ok ==> ValueBytes(kind, v).Some? && result.Result() == old(result.Result()) + ValueBytes(kind, v).value
    ensures !ok ==> ValueBytes(kind, v).None? || |ValueBytes(kind, v).value| > result.buffer.Length - old(result.offset)
  {
    hide LittleEndian, BigEndian, Pow256, Packed;
    match kind
    case Uint(width) =>
      if !v.Number? {
        return false;
      }
      ok := result.WriteUint(v.n, width);
    case Uint256 =>
      if !v.Number? {
        return false;
      }
      ok := result.WriteUint256(v.n);
    case ValidatorSet =>
      if !v.Flags? {
        return false;
      }
      ok := WriteValidatorSet(result, v.flags);
    case Hex =>
      if !v.Bytes? {
        return false;
      }
      ok := WriteItem(result, v.bytes);
    case Transactions =>
      if !v.List? {
        return false;
      }
      ok := WriteItems(result, v.items);
    case _ =>
      if !v.Bytes? {
        return false;
      }
      ok := result.WriteBytes(v.bytes);
  }

  method WriteField(result: ByteBuffer, f: Field, data: Record) returns (ok: bool)
    requires result.Valid()
    modifies result, result.buffer
    ensures result.Valid()
    ensures ok ==> FieldBytes(f, data).Some? && result.Result() == old(result.Result()) + FieldBytes(f, data).value
    ensures !ok ==> FieldBytes(f, data).None? || |FieldBytes(f, data).value| > result.buffer.Length - old(result.offset)
  {
    hide ValueBytes;
    hide LittleEndian, Pow256;
    if IsOptional(f) {
      var flag := if f.property in data then 1 else 0;
      OneByte(flag);
      ok := result.WriteUint(flag, 1);
      if !ok || f.property !in data {
        return;
      }
    }
    if f.property !in data {
      return false;
    }
    ok := WriteValue(result, f.kind, data[f.property]);
  }

  /** Serializes a record into a buffer of exactly `length` bytes, behind `skip` bytes that stay zero; succeeds if and
      only if every value can be written and all of them fit. */
  method Serialize(data: Record, schema: seq<Field>, length: nat, skip: nat) returns (r: Option<seq<Byte>>)
    ensures r == match Encode(schema, data)
      case None => None
      case Some(bytes) => if skip + |bytes| <= length then Some(Zeros(skip) + bytes) else None
  {
    hide FieldBytes;
    var result := new ByteBuffer.FromSize(length);
    if skip > 0 {
      var ok := result.Skip(skip);
      if !ok {
        return None;
      }
    }
    assert result.Result() == result.buffer[..][..skip] == Zeros(skip);
    assert schema[0..] == schema;
    for i := 0 to |schema|
      invariant result.Valid() && fresh(result) && fresh(result.buffer) && result.buffer.Length == length
      invariant Encode(schema[i..], data).None? ==> Encode(schema, data).None?
      invariant Encode(schema[i..], data).Some? ==>
        && Encode(schema, data).Some?
        && result.Result() + Encode(schema[i..], data).value == Zeros(skip) + Encode(schema, data).value
    {
      assert schema[i..][1..] == schema[i + 1..];
      var ok := WriteField(result, schema[i], data);
      if !ok {
        return None;
      }
    }
    assert schema[|schema|..] == [] && result.Result() + [] == result.Result();
    return Some(result.Result());
  }

  lemma FromOneByte(b: Byte)
    ensures FromLittleEndian([b]) == b
  {
  }

  method ReadValidatorSet(source: ByteBuffer) returns (r: Option<Value>)
    requires source.Valid()
    modifies source
    ensures source.Valid()
    ensures match DecodeValue(ValidatorSet, map[], old(source.Remainder()))
      case None => r == None
      case Some((v, rest)) => r == Some(v) && source.Remainder() == rest
  {
    hide FromLittleEndian, Pow256, Pow2, Unpacked;
    ghost var s := source.Remainder();
    var length := source.ReadUint(1);
    if length.None? {
      return None;
    }
    FromOneByte(s[0]);
    assert s[..1] == [s[0]];
    var packed := source.ReadUint(8);
    if packed.None? {
      return None;
    }
    assert s[1..][..8] == s[1..9];
    var flags := ValidatorSetUnpack(packed.value, length.value);
    r := if flags.Some? then Some(Flags(flags.value)) else None;
  }

  method ReadItem(source: ByteBuffer) returns (r: Option<seq<Byte>>)
    requires source.Valid()
    modifies source
    ensures source.Valid()
    ensures r.Some? <==>
      |old(source.Remainder())| >= 4 &&
      |old(source.Remainder())| - 4 >= FromLittleEndian(old(source.Remainder())[..4])
    ensures r.Some? ==>
      && |r.value| == FromLittleEndian(old(source.Remainder())[..4])
      && r.value == old(source.Remainder())[4..4 + |r.value|]
      && source.Remainder() == old(source.Remainder())[4 + |r.value|..]
  {
    hide FromLittleEndian, Pow256;
    var length := source.ReadUint(4);
    if length.None? {
      return None;
    }
    r := source.ReadBytes(length.value);
  }

  ghost function Continued(items: seq<seq<Byte>>, more: Option<(seq<seq<Byte>>, seq<Byte>)>)
    : Option<(seq<seq<Byte>>, seq<Byte>)>
  {
    match more
    case None => None
    case Some((later, rest)) => Some((items + later, rest))
  }

  lemma ContinuedByOne(items: seq<seq<Byte>>, item: seq<Byte>, more: Option<(seq<seq<Byte>>, seq<Byte>)>)
    ensures Continued(items, Continued([item], more)) == Continued(items + [item], more)
  {
    if more.Some? {
      assert items + ([item] + more.value.0) == items + [item] + more.value.0;
    }
  }

  method ReadItems(source: ByteBuffer, count: int) returns (r: Option<seq<seq<Byte>>>)
    requires source.Valid()
    modifies source
    ensures source.Valid()
    ensures match DecodeItems(if count < 0 then 0 else count, old(source.Remainder()))
      case None => r == None
      case Some((items, rest)) => r == Some(items) && source.Remainder() == rest
  {
    hide FromLittleEndian;
    var items, index := [], 0;
    ghost var all := DecodeItems(if count < 0 then 0 else count, source.Remainder());
    assert all.Some? ==> [] + all.value.0 == all.value.0;
    while index < count
      invariant 0 <= index && (index <= count || index == 0) && source.Valid()
      invariant all == Continued(items, DecodeItems(if count < 0 then 0 else count - index, source.Remainder()))
    {
      var item := ReadItem(source);
      if item.None? {
        return None;
      }
      ContinuedByOne(items, item.value, DecodeItems(count - index - 1, source.Remainder()));
      items := items + [item.value];
      index := index + 1;
    }
    assert items + [] == items;
    return Some(items);
  }

  method ReadValue(source: ByteBuffer, kind: Kind, target: Record) returns (r: Option<Value>)
    requires source.Valid()
    modifies source
    ensures source.Valid()
    ensures match DecodeValue(kind, target, old(source.Remainder()))
      case None => r == None
      case Some((v, rest)) => r == Some(v) && source.Remainder() == rest
  {
    hide FromLittleEndian, FromBigEndian, Pow256, Pow2, Unpacked, DecodeItems;
    match kind
    case Uint(width) =>
      var n := source.ReadUint(width);
      r := if n.Some? then Some(Number(n.value)) else None;
    case Uint256 =>
      var n := source.ReadUint256();
      r := if n.Some? then Some(Number(n.value)) else None;
    case ValidatorSet =>
      r := ReadValidatorSet(source);
    case Hex =>
      var bytes := ReadItem(source);
      r := if bytes.Some? then Some(Bytes(bytes.value)) else None;
    case Transactions =>
      if COUNT !in target || !target[COUNT].Number? {
        return None;
      }
      var items := ReadItems(source, target[COUNT].n);
      r := if items.Some? then Some(List(items.value)) else None;
    case _ =>
      var bytes := source.ReadBytes(SizeOf(kind));
      r := if bytes.Some? then Some(Bytes(bytes.value)) else None;
  }

  method ReadField(source: ByteBuffer, f: Field, target: Record) returns (r: Option<Record>)
    requires source.Valid()
    modifies source
    ensures source.Valid()
    ensures match DecodeField(f, target, old(source.Remainder()))
      case None => r == None
      case Some((next, rest)) => r == Some(next) && source.Remainder() == rest
  {
    hide FromLittleEndian, Pow256, DecodeValue;
    ghost var s := source.Remainder();
    if IsOptional(f) {
      var isPresent := source.ReadUint(1);
      if isPresent.None? {
        return None;
      }
      FromOneByte(s[0]);
      assert s[..1] == [s[0]];
      if isPresent.value == 0 {
        return Some(target - {f.property});
      }
      if isPresent.value != 1 {
        return None;
      }
    }
    var v := ReadValue(source, f.kind, target);
    r := if v.Some? then Some(target[f.property := v.value]) else None;
  }

  method Deserialize(source: ByteBuffer, target: Record, schema: seq<Field>) returns (r: Option<Record>)
    requires source.Valid()
    modifies source
    ensures source.Valid()
    ensures match Decode(schema, target, old(source.Remainder()))
      case None => r == None
      case Some((data, rest)) => r == Some(data) && source.Remainder() == rest
  {
    hide DecodeField;
    var data: Record := target;
    ghost var all := Decode(schema, target, source.Remainder());
    assert schema[0..] == schema;
    for i := 0 to |schema|
      invariant source.Valid() && Decode(schema[i..], data, source.Remainder()) == all
    {
      assert schema[i..][1..] == schema[i + 1..];
      var next := ReadField(source, schema[i], data);
      if next.None? {
        return None;
      }
      data := next.value;
    }
    return Some(data);
  }
}
