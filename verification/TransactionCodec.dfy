/** Legacy transactions with the chain id in `v` (EIP-155) as RLP lists of nine or ten fields. */
module TransactionCodec {
  import opened Wrappers
  import opened ByteBuffers
  import opened Rlp

  /** `r` and `s` are held as 32 bytes; `to` is missing when a contract is created. */
  datatype Transaction = Transaction(
    nonce: nat, gasPrice: nat, gasLimit: nat, to: Option<seq<Byte>>, value: nat, data: seq<Byte>, network: int, v: int,
    r: seq<Byte>, s: seq<Byte>, legacySecondSignature: Option<seq<Byte>>)

  const SECP256K1_ORDER: nat := 0xfffffffffffffffffffffffffffffffebaaedce6af48a03bbfd25e8cd0364141

  /** Numbers from here on are not exact, and the serializer refuses them. */
  const UNSAFE: nat := 0x20_0000_0000_0000

  // Writing

  function CombinedV(tx: Transaction): int {
    tx.network * 2 + 35 + tx.v
  }

  predicate HasSecond(tx: Transaction) {
    tx.legacySecondSignature.Some? && tx.legacySecondSignature.value != []
  }

  function Fields(tx: Transaction): seq<seq<Byte>>
    requires CombinedV(tx) >= 0
  {
    [ Minimal(tx.nonce),
      Minimal(tx.gasPrice),
      Minimal(tx.gasLimit),
      if tx.to.Some? then tx.to.value else [],
      Minimal(tx.value),
      tx.data,
      Minimal(CombinedV(tx)),
      Minimal(FromBigEndian(tx.r)),
      Minimal(FromBigEndian(tx.s))]
    + if HasSecond(tx) then [tx.legacySecondSignature.value] else []
  }

  function Serialize(tx: Transaction): Option<seq<Byte>> {
    if tx.gasPrice >= UNSAFE || tx.gasLimit >= UNSAFE || !(0 <= CombinedV(tx) < UNSAFE) then None
    else EncodeList(Fields(tx))
  }

  /** What the fields are: integers with the most significant byte first, the address and the data as they are, and in
      the seventh field the chain and the parity of the signature as in EIP-155. */
  lemma FieldsAre(tx: Transaction)
    requires CombinedV(tx) >= 0
    ensures var f := Fields(tx);
      && |f| == (if HasSecond(tx) then 10 else 9)
      && FromBigEndian(f[0]) == tx.nonce && FromBigEndian(f[1]) == tx.gasPrice && FromBigEndian(f[2]) == tx.gasLimit
      && f[3] == (if tx.to.Some? then tx.to.value else []) && FromBigEndian(f[4]) == tx.value && f[5] == tx.data
      && FromBigEndian(f[6]) == 2 * tx.network + 35 + tx.v
      && FromBigEndian(f[7]) == FromBigEndian(tx.r) && FromBigEndian(f[8]) == FromBigEndian(tx.s)
      && (HasSecond(tx) ==> f[9] == tx.legacySecondSignature.value)
  {
    hide Minimal, FromBigEndian;
    MinimalIs(tx.nonce);
    MinimalIs(tx.gasPrice);
    MinimalIs(tx.gasLimit);
    MinimalIs(tx.value);
    MinimalIs(CombinedV(tx));
    MinimalIs(FromBigEndian(tx.r));
    MinimalIs(FromBigEndian(tx.s));
  }

  // Reading

  /** The field of an address is empty or has twenty bytes. */
  predicate IsAddress(field: seq<Byte>) {
    field == [] || |field| == 20
  }

  function ParseSignaturePart(field: seq<Byte>): Option<seq<Byte>> {
    if |field| > 32 || !NoLeadingZero(field) then None
    else
      var numeric := FromBigEndian(field);
      if numeric == 0 || numeric >= SECP256K1_ORDER then None
      else Some(seq(32 - |field|, _ => 0) + field)
  }

  predicate Parses(fields: seq<seq<Byte>>) {
    && |fields| >= 9
    && NoLeadingZero(fields[0]) && NoLeadingZero(fields[1]) && NoLeadingZero(fields[2]) && IsAddress(fields[3])
    && NoLeadingZero(fields[4]) && NoLeadingZero(fields[6])
    && ParseSignaturePart(fields[7]).Some? && ParseSignaturePart(fields[8]).Some?
  }

  function Parse(fields: seq<seq<Byte>>): Transaction
    requires Parses(fields)
  {
    var v := FromBigEndian(fields[6]);
    var chainId := (v - 35) / 2;
    Transaction(
      FromBigEndian(fields[0]), FromBigEndian(fields[1]), FromBigEndian(fields[2]),
      if fields[3] == [] then None else Some(fields[3]), FromBigEndian(fields[4]), fields[5],
      chainId, v - (chainId * 2 + 35),
      ParseSignaturePart(fields[7]).value, ParseSignaturePart(fields[8]).value,
      if |fields| == 10 && fields[9] != [] then Some(fields[9]) else None)
  }

  /** The fields of a list that takes up the whole input. */
  function FieldsOf(s: seq<Byte>): Option<seq<seq<Byte>>> {
    match ListBounds(s)
    case None => None
    case Some((start, end)) => if end != |s| then None else Items(s[start..], 0)
  }

  function Deserialized(s: seq<Byte>): Option<Transaction> {
    match FieldsOf(s)
    case None => None
    case Some(fields) => if Parses(fields) then Some(Parse(fields)) else None
  }

  lemma BoundsInside(s: seq<Byte>)
    requires ListBounds(s).Some?
    ensures ListBounds(s).value.0 <= ListBounds(s).value.1 <= |s|
  {
  }

  ghost function More(fields: seq<seq<Byte>>, more: Option<seq<seq<Byte>>>): Option<seq<seq<Byte>>> {
    match more
    case None => None
    case Some(later) => Some(fields + later)
  }

  lemma MoreByOne(fields: seq<seq<Byte>>, field: seq<Byte>, more: Option<seq<seq<Byte>>>)
    ensures More(fields, More([field], more)) == More(fields + [field], more)
  {
    if more.Some? {
      assert fields + ([field] + more.value) == fields + [field] + more.value;
    }
  }

  method Deserialize(serialized: seq<Byte>) returns (r: Option<Transaction>)
    ensures r == Deserialized(serialized)
  {
    hide ListBounds, Item, Parses, Parse;
    var bounds := DecodeListBounds(serialized);
    if bounds.None? || bounds.value.1 != |serialized| {
      return None;
    }
    BoundsInside(serialized);
    var fields, offset := [], bounds.value.0;
    ghost var all := Items(serialized[offset..], 0);
    assert all.Some? ==> [] + all.value == all.value;
    while offset < |serialized|
      invariant offset <= |serialized|
      invariant all == More(fields, Items(serialized[offset..], |fields|))
      decreases |serialized| - offset
    {
      if |fields| > 10 {
        return None;
      }
      var item := DecodeItem(serialized, offset);
      if item.None? {
        return None;
      }
      MoreByOne(fields, item.value.0, Items(serialized[item.value.1..], |fields| + 1));
      fields := fields + [item.value.0];
      offset := item.value.1;
    }
    assert serialized[offset..] == [] && fields + [] == fields;
    r := if Parses(fields) then Some(Parse(fields)) else None;
  }

  // Reading what was written

  predicate IsSignaturePart(part: seq<Byte>) {
    |part| == 32 && 0 < FromBigEndian(part) < SECP256K1_ORDER
  }

  /** What the schema of a signed transaction demands of its fields, apart from `v`. */
  predicate InRange(tx: Transaction) {
    && (tx.to.Some? ==> |tx.to.value| == 20)
    && IsSignaturePart(tx.r) && IsSignaturePart(tx.s)
    && (tx.legacySecondSignature.Some? ==> tx.legacySecondSignature.value != [])
  }

  lemma {:induction false} LeadingZeros(k: nat, s: seq<Byte>)
    ensures FromBigEndian(seq(k, _ => 0) + s) == FromBigEndian(s)
    decreases |s|, k
  {
    var zeros: seq<Byte> := seq(k, _ => 0);
    if s != [] {
      LeadingZeros(k, s[..|s| - 1]);
      assert (zeros + s)[..k + |s| - 1] == zeros + s[..|s| - 1];
    } else if k > 0 {
      LeadingZeros(k - 1, []);
      assert zeros + [] == zeros;
      assert zeros[..k - 1] == seq(k - 1, _ => 0);
      assert seq(k - 1, _ => 0) + [] == seq(k - 1, _ => 0 as Byte);
    } else {
      assert zeros + [] == [];
    }
  }

  lemma OneOfSize(a: seq<Byte>, b: seq<Byte>)
    requires |a| == |b| && FromBigEndian(a) == FromBigEndian(b)
    ensures a == b
  {
    FromBigEndianFits(a);
    FromBigEndianFits(b);
  }

  /** Stripping the leading zeros of a signature part and padding it again gives it back. */
  lemma PartRoundTrip(part: seq<Byte>)
    requires IsSignaturePart(part)
    ensures ParseSignaturePart(Minimal(FromBigEndian(part))) == Some(part)
  {
    hide FromBigEndian, Minimal, Pow256;
    var n := FromBigEndian(part);
    var field := Minimal(n);
    MinimalIs(n);
    FromBigEndianFits(part);
    MinimalSize(n, 32);
    LeadingZeros(32 - |field|, field);
    OneOfSize(seq(32 - |field|, _ => 0) + field, part);
  }

  lemma PartCanonical(field: seq<Byte>)
    requires ParseSignaturePart(field).Some?
    ensures Minimal(FromBigEndian(ParseSignaturePart(field).value)) == field
    ensures IsSignaturePart(ParseSignaturePart(field).value)
  {
    hide FromBigEndian, Minimal;
    LeadingZeros(32 - |field|, field);
    MinimalIsOnly(field);
  }

  lemma ItemsEncoded(fields: seq<seq<Byte>>)
    requires EncodeList(fields).Some?
    ensures EncodeItems(fields).Some?
  {
  }

  /** The fields of an encoded list are the ones it was encoded from, unless the decoder takes its length for
      negative. */
  lemma FieldsRoundTrip(fields: seq<seq<Byte>>)
    requires EncodeList(fields).Some? && |fields| <= 11
    ensures FieldsOf(EncodeList(fields).value) ==
      if |EncodeItems(fields).value| < TWO_31 then Some(fields) else None
  {
    hide EncodeList, EncodeItems, ListBounds, Items;
    ItemsEncoded(fields);
    ListRoundTrip(fields);
    if |EncodeItems(fields).value| < TWO_31 {
      forall i | 0 <= i < |fields| ensures |fields[i]| < TWO_31 {
        ItemsAreShorter(fields, i);
      }
      ItemsRoundTrip(fields, 0);
    }
  }

  lemma ParseFields(tx: Transaction)
    requires InRange(tx) && CombinedV(tx) >= 0
    ensures Parses(Fields(tx))
    ensures Parse(Fields(tx)) == tx.(network := (CombinedV(tx) - 35) / 2, v := (tx.v as int) % 2)
  {
    hide FromBigEndian, Minimal, ParseSignaturePart;
    MinimalIs(tx.nonce);
    MinimalIs(tx.gasPrice);
    MinimalIs(tx.gasLimit);
    MinimalIs(tx.value);
    MinimalIs(CombinedV(tx));
    PartRoundTrip(tx.r);
    PartRoundTrip(tx.s);
  }

  lemma FieldCount(tx: Transaction)
    requires CombinedV(tx) >= 0
    ensures |Fields(tx)| == if HasSecond(tx) then 10 else 9
    ensures HasSecond(tx) ==> Fields(tx)[9] != []
  {
  }

  /** A serialized transaction is read back as it was if and only if `v` is a parity and the list is shorter than 2^31
      bytes. */
  lemma TransactionRoundTrip(tx: Transaction)
    requires InRange(tx) && Serialize(tx).Some?
    ensures EncodeItems(Fields(tx)).Some?
    ensures Deserialized(Serialize(tx).value) == Some(tx) <==>
      0 <= tx.v <= 1 && |EncodeItems(Fields(tx)).value| < TWO_31
  {
    hide EncodeList, EncodeItems, FieldsOf, Fields, Parse, Parses, InRange;
    ItemsEncoded(Fields(tx));
    FieldCount(tx);
    FieldsRoundTrip(Fields(tx));
    ParseFields(tx);
  }

  // Writing what was read

  /** The fields a transaction read from `fields` is written with: a tenth field that is empty is dropped, and so is
      everything behind the ninth of eleven. */
  function Kept(fields: seq<seq<Byte>>): seq<seq<Byte>>
    requires |fields| >= 9
  {
    fields[..9] + if |fields| == 10 && fields[9] != [] then [fields[9]] else []
  }

  lemma FieldsParse(fields: seq<seq<Byte>>)
    requires Parses(fields)
    ensures |fields| >= 9 && CombinedV(Parse(fields)) == FromBigEndian(fields[6])
    ensures Fields(Parse(fields)) == Kept(fields)
  {
    hide FromBigEndian, Minimal, ParseSignaturePart;
    var tx := Parse(fields);
    assert CombinedV(tx) == FromBigEndian(fields[6]);
    MinimalIsOnly(fields[0]);
    MinimalIsOnly(fields[1]);
    MinimalIsOnly(fields[2]);
    MinimalIsOnly(fields[4]);
    MinimalIsOnly(fields[6]);
    PartCanonical(fields[7]);
    PartCanonical(fields[8]);
    assert Fields(tx)[..9] == fields[..9];
  }

  predicate SafeNumbers(fields: seq<seq<Byte>>)
    requires |fields| >= 9
  {
    FromBigEndian(fields[1]) < UNSAFE && FromBigEndian(fields[2]) < UNSAFE && FromBigEndian(fields[6]) < UNSAFE
  }

  /** No length takes up more than four bytes, neither of a field nor of the list. */
  predicate ShortPrefixes(s: seq<Byte>) {
    ListBounds(s).Some? && ListBounds(s).value.0 <= |s| && s[0] <= 0xfb && ShortLengths(s[ListBounds(s).value.0..])
  }

  lemma PrefixIsShort(fields: seq<seq<Byte>>)
    requires EncodeList(fields).Some?
    ensures EncodeList(fields).value[0] <= 0xfb
  {
    hide EncodeItems;
    var body := EncodeItems(fields).value;
    if |body| > 55 {
      LengthFits(|body|);
    }
  }

  lemma ListCanonical(s: seq<Byte>, fields: seq<seq<Byte>>)
    requires FieldsOf(s) == Some(fields)
    ensures |fields| <= 11
    ensures EncodeList(fields) == Some(s) <==> ShortPrefixes(s)
  {
    hide EncodeItems, Items, ShortLengths, Minimal, LengthAt;
    var (start, end) := ListBounds(s).value;
    var body := s[start..];
    ItemsCanonical(body, 0);
    if EncodeList(fields) == Some(s) {
      ListRoundTrip(fields);
      PrefixIsShort(fields);
    }
    if ShortPrefixes(s) {
      var p: int := s[0];
      if p >= 0xf8 {
        LengthInRange(s[1..], p - 0xf7);
        LengthIsMinimal(s[1..], p - 0xf7);
        assert s[1..][..p - 0xf7] == s[1..start];
        assert s == [s[0]] + s[1..start] + body;
      } else {
        assert s == [s[0]] + body;
      }
    }
  }

  lemma KeptFields(fields: seq<seq<Byte>>)
    requires |fields| >= 9
    ensures |Kept(fields)| == 9 || (|Kept(fields)| == 10 && Kept(fields)[9] != [])
  {
  }

  lemma KeepsAll(fields: seq<seq<Byte>>)
    requires |fields| == 9 || (|fields| == 10 && fields[9] != [])
    ensures Kept(fields) == fields
  {
  }

  /** Bytes that are read as a transaction are written back unchanged if and only if there are nine fields, or ten and
      the last is not empty, the numbers are exact, and no length takes up more than four bytes. */
  lemma TransactionCanonical(s: seq<Byte>, fields: seq<seq<Byte>>)
    requires FieldsOf(s) == Some(fields) && Parses(fields)
    ensures Deserialized(s).Some?
    ensures Serialize(Deserialized(s).value) == Some(s) <==>
      (|fields| == 9 || (|fields| == 10 && fields[9] != [])) && SafeNumbers(fields) && ShortPrefixes(s)
  {
    hide EncodeList, FieldsOf, Parses, Fields, ShortPrefixes;
    var tx := Parse(fields);
    FieldsParse(fields);
    ListCanonical(s, fields);
    if Serialize(tx) == Some(s) {
      KeptFields(fields);
      FieldsRoundTrip(Kept(fields));
    }
    if |fields| == 9 || (|fields| == 10 && fields[9] != []) {
      KeepsAll(fields);
    }
  }

  // Inputs that are read and not written back

  /** Any transaction with eleven fields, or with an empty tenth one, is read and then written with fewer. */
  lemma ExtraFieldsAreDropped(fields: seq<seq<Byte>>)
    requires Parses(fields) && EncodeItems(fields).Some? && |EncodeItems(fields).value| < TWO_31
    requires |fields| == 11 || (|fields| == 10 && fields[9] == [])
    ensures EncodeList(fields).Some?
    ensures var s := EncodeList(fields).value;
      Deserialized(s).Some? && Serialize(Deserialized(s).value) != Some(s)
  {
    hide Parses, EncodeItems, FieldsOf, ShortPrefixes;
    var s := EncodeList(fields).value;
    FieldsRoundTrip(fields);
    hide EncodeList, Serialize;
    TransactionCanonical(s, fields);
  }

  const ONE: seq<Byte> := [1]
  const TEN_FIELDS: seq<seq<Byte>> := [[], [], [], [], [], [], [], ONE, ONE, []]

  lemma {:induction false} SmallItems(items: seq<seq<Byte>>)
    requires forall i :: 0 <= i < |items| ==> |items[i]| <= 55
    ensures EncodeItems(items).Some? && |EncodeItems(items).value| <= 56 * |items|
  {
    if items == [] {
    } else {
      SmallItems(items[1..]);
    }
  }

  lemma TenFieldsAreDropped()
    ensures Parses(TEN_FIELDS) && EncodeItems(TEN_FIELDS).Some? && |EncodeItems(TEN_FIELDS).value| < TWO_31
    ensures EncodeList(TEN_FIELDS).Some?
    ensures var s := EncodeList(TEN_FIELDS).value;
      Deserialized(s).Some? && Serialize(Deserialized(s).value) != Some(s)
  {
    hide EncodeItems, EncodeList, Deserialized, Serialize;
    assert ParseSignaturePart(ONE).Some? by {
      assert ONE[..0] == [];
      assert FromBigEndian(ONE) == 1;
    }
    SmallItems(TEN_FIELDS);
    ExtraFieldsAreDropped(TEN_FIELDS);
  }

  /** A transaction with a number from 2^53 on is read, and the serializer refuses it. */
  lemma LargeNumbersAreRefused(fields: seq<seq<Byte>>)
    requires Parses(fields) && |fields| <= 11 && !SafeNumbers(fields)
    requires EncodeItems(fields).Some? && |EncodeItems(fields).value| < TWO_31
    ensures EncodeList(fields).Some?
    ensures var s := EncodeList(fields).value;
      Deserialized(s).Some? && Serialize(Deserialized(s).value) == None
  {
    FieldsRoundTrip(fields);
    hide Parses, EncodeItems, FieldsOf, Fields, FromBigEndian;
    FieldsParse(fields);
  }

  const TWO_53: seq<Byte> := [0x20, 0, 0, 0, 0, 0, 0]
  const LARGE_PRICE: seq<seq<Byte>> := [[], TWO_53, [], [], [], [], [], ONE, ONE]

  lemma TwoTo53()
    ensures FromBigEndian(TWO_53) == UNSAFE
  {
    assert TWO_53[..1] == [0x20] && TWO_53[..1][..0] == [];
    assert TWO_53[..2][..1] == TWO_53[..1] && TWO_53[..3][..2] == TWO_53[..2] && TWO_53[..4][..3] == TWO_53[..3];
    assert TWO_53[..5][..4] == TWO_53[..4] && TWO_53[..6][..5] == TWO_53[..5];
    assert FromBigEndian(TWO_53[..1]) == 0x20;
    assert FromBigEndian(TWO_53[..2]) == 0x2000;
    assert FromBigEndian(TWO_53[..3]) == 0x20_0000;
    assert FromBigEndian(TWO_53[..4]) == 0x2000_0000;
    assert FromBigEndian(TWO_53[..5]) == 0x20_0000_0000;
    assert FromBigEndian(TWO_53[..6]) == 0x2000_0000_0000;
  }

  lemma LargePriceIsRefused()
    ensures Parses(LARGE_PRICE) && !SafeNumbers(LARGE_PRICE) && EncodeItems(LARGE_PRICE).Some?
    ensures EncodeList(LARGE_PRICE).Some?
    ensures var s := EncodeList(LARGE_PRICE).value;
      Deserialized(s).Some? && Serialize(Deserialized(s).value) == None
  {
    hide EncodeItems, EncodeList, Deserialized, Serialize;
    assert FromBigEndian(LARGE_PRICE[1]) == UNSAFE by {
      TwoTo53();
    }
    assert ParseSignaturePart(ONE).Some? by {
      assert ONE[..0] == [];
      assert FromBigEndian(ONE) == 1;
    }
    hide FromBigEndian;
    SmallItems(LARGE_PRICE);
    LargeNumbersAreRefused(LARGE_PRICE);
  }
}
