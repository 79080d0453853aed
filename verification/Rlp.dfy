/** The flat RLP lists legacy transactions are made of: a list of byte strings, each behind a length prefix. */
module Rlp {
  import opened Wrappers
  import opened ByteBuffers

  // Integers without leading zeros

  function Minimal(n: nat): (s: seq<Byte>)
    ensures s == [] <==> n == 0
  {
    if n == 0 then [] else Minimal(n / 256) + [n % 256]
  }

  predicate NoLeadingZero(s: seq<Byte>) {
    s == [] || s[0] != 0
  }

  lemma {:induction false} MinimalIs(n: nat)
    ensures NoLeadingZero(Minimal(n)) && FromBigEndian(Minimal(n)) == n
  {
    if n == 0 {
    } else {
      MinimalIs(n / 256);
      assert Minimal(n)[..|Minimal(n)| - 1] == Minimal(n / 256);
    }
  }

  lemma {:induction false} NotZero(s: seq<Byte>)
    requires s != [] && s[0] != 0
    ensures FromBigEndian(s) > 0
  {
    if |s| > 1 {
      NotZero(s[..|s| - 1]);
    } else {
      assert s[..0] == [];
    }
  }

  lemma {:induction false} MinimalIsOnly(s: seq<Byte>)
    requires NoLeadingZero(s)
    ensures Minimal(FromBigEndian(s)) == s
  {
    if s == [] {
    } else {
      var front, last := s[..|s| - 1], s[|s| - 1];
      MinimalIsOnly(front);
      assert FromBigEndian(s) == 256 * FromBigEndian(front) + last;
      NotZero(s);
      assert FromBigEndian(s) / 256 == FromBigEndian(front) && FromBigEndian(s) % 256 == last;
      assert s == front + [last];
    }
  }

  lemma {:induction false} MinimalSize(n: nat, k: nat)
    ensures |Minimal(n)| <= k <==> n < Pow256(k)
    decreases k
  {
    if k == 0 || n == 0 {
    } else {
      MinimalSize(n / 256, k - 1);
    }
  }

  // Lengths, as 32-bit integers

  const TWO_31 := 0x8000_0000
  const TWO_32 := 0x1_0000_0000

  /** A signed 32-bit integer. */
  function Wrap32(x: int): (r: int)
    ensures -TWO_31 <= r < TWO_31
    ensures 0 <= x < TWO_31 ==> r == x
  {
    (x + TWO_31) % TWO_32 - TWO_31
  }

  lemma SameRemainder(x: nat, k: int)
    ensures (x - k * TWO_32) % TWO_32 == x % TWO_32
  {
  }

  lemma WrapShift(x: nat, v: Byte)
    ensures Wrap32(Wrap32(x) * 256 + v) == Wrap32(x * 256 + v)
  {
    var q := (x + TWO_31) / TWO_32;
    assert Wrap32(x) == x - q * TWO_32;
    SameRemainder(x * 256 + v + TWO_31, 256 * q);
    assert Wrap32(x) * 256 + v + TWO_31 == x * 256 + v + TWO_31 - 256 * q * TWO_32;
  }

  lemma Pow256Of4()
    ensures Pow256(4) == TWO_32
  {
    assert Pow256(2) == 65536;
  }

  /** The length read from `n` bytes, shifted in one after another; a leading zero is refused. */
  function LengthAt(s: seq<Byte>, n: nat): Option<int> {
    if n > |s| then None
    else if n > 1 && s[0] == 0 then None
    else Some(Wrap32(FromBigEndian(s[..n])))
  }

  method ReadLength(buffer: seq<Byte>, offset: nat, lengthOfLength: nat) returns (length: Option<int>)
    requires offset <= |buffer| && 1 <= lengthOfLength <= 8
    ensures length == LengthAt(buffer[offset..], lengthOfLength)
  {
    if offset + lengthOfLength > |buffer| {
      return None;
    }
    ghost var s := buffer[offset..];
    var len := 0;
    for index := 0 to lengthOfLength
      invariant len == Wrap32(FromBigEndian(s[..index]))
      invariant index > 0 && lengthOfLength > 1 ==> s[0] != 0
    {
      var v := buffer[offset + index];
      if index == 0 && lengthOfLength > 1 && v == 0 {
        return None;
      }
      assert s[..index + 1][..index] == s[..index] && v == s[index];
      WrapShift(FromBigEndian(s[..index]), v);
      len := Wrap32(len * 256 + v as int);
    }
    return Some(len);
  }

  // Items

  /** The byte string at the front of `s`, and what is behind it. */
  function Item(s: seq<Byte>): Option<(seq<Byte>, seq<Byte>)> {
    if s == [] then None
    else
      var p: int := s[0];
      if p <= 0x7f then Some((s[..1], s[1..]))
      else if p <= 0xb7 then
        var length := p - 0x80;
        if 1 + length > |s| then None
        else if length == 1 && s[1] < 0x80 then None
        else Some((s[1..1 + length], s[1 + length..]))
      else if p <= 0xbf then
        match LengthAt(s[1..], p - 0xb7)
        case None => None
        case Some(length) =>
          if length < 56 then None
          else if 1 + (p - 0xb7) + length > |s| then None
          else Some((s[1 + (p - 0xb7)..1 + (p - 0xb7) + length], s[1 + (p - 0xb7) + length..]))
      else None
  }

  method DecodeItem(buffer: seq<Byte>, offset: nat) returns (r: Option<(seq<Byte>, nat)>)
    requires offset <= |buffer|
    ensures match Item(buffer[offset..])
      case None => r == None
      case Some((item, rest)) =>
        r.Some? && r.value.0 == item && offset < r.value.1 <= |buffer| && buffer[r.value.1..] == rest
  {
    if offset >= |buffer| {
      return None;
    }
    var p: int := buffer[offset];
    if p <= 0x7f {
      return Some((buffer[offset..offset + 1], offset + 1));
    }
    if p <= 0xb7 {
      var length := p - 0x80;
      var start, end := offset + 1, offset + 1 + length;
      if end > |buffer| {
        return None;
      }
      if length == 1 && buffer[start] < 0x80 {
        return None;
      }
      return Some((buffer[start..end], end));
    }
    if p <= 0xbf {
      var lengthOfLength := p - 0xb7;
      var length := ReadLength(buffer, offset + 1, lengthOfLength);
      assert buffer[offset..][1..] == buffer[offset + 1..];
      if length.None? || length.value < 56 {
        return None;
      }
      var next := offset + 1 + lengthOfLength;
      var end := next + length.value;
      if end > |buffer| {
        return None;
      }
      return Some((buffer[next..end], end));
    }
    return None;
  }

  /** Where the fields of the list at the front of the buffer start, and their length. */
  function ListBounds(s: seq<Byte>): Option<(nat, nat)> {
    if s == [] then None
    else
      var p: int := s[0];
      if 0xc0 <= p <= 0xf7 then
        if 1 + (p - 0xc0) > |s| then None else Some((1, 1 + (p - 0xc0)))
      else if 0xf8 <= p then
        match LengthAt(s[1..], p - 0xf7)
        case None => None
        case Some(length) =>
          if length < 56 || 1 + (p - 0xf7) + length > |s| then None
          else Some((1 + (p - 0xf7), 1 + (p - 0xf7) + length))
      else None
  }

  method DecodeListBounds(buffer: seq<Byte>) returns (r: Option<(nat, nat)>)
    ensures r == ListBounds(buffer)
  {
    if |buffer| == 0 {
      return None;
    }
    var prefix: int := buffer[0];
    if 0xc0 <= prefix <= 0xf7 {
      var length := prefix - 0xc0;
      if 1 + length > |buffer| {
        return None;
      }
      return Some((1, 1 + length));
    }
    if 0xf8 <= prefix <= 0xff {
      var lengthOfLength := prefix - 0xf7;
      var length := ReadLength(buffer, 1, lengthOfLength);
      if length.None? || length.value < 56 {
        return None;
      }
      var start := 1 + lengthOfLength;
      if start + length.value > |buffer| {
        return None;
      }
      return Some((start, start + length.value));
    }
    return None;
  }

  /** All items of `s`; an item beyond the eleventh is refused. */
  function Items(s: seq<Byte>, count: nat): Option<seq<seq<Byte>>> {
    if s == [] then Some([])
    else if count > 10 then None
    else
      match Item(s)
      case None => None
      case Some((item, rest)) =>
        match Items(rest, count + 1)
        case None => None
        case Some(items) => Some([item] + items)
  }

  // Encoding

  lemma LengthFits(n: nat)
    requires n < TWO_32
    ensures |Minimal(n)| <= 4
  {
    Pow256Of4();
    MinimalSize(n, 4);
  }

  function EncodeItem(item: seq<Byte>): Option<seq<Byte>> {
    if |item| == 1 && item[0] < 0x80 then Some(item)
    else if |item| <= 55 then Some([0x80 + |item|] + item)
    else if |item| < TWO_32 then
      LengthFits(|item|);
      Some([0xb7 + |Minimal(|item|)|] + Minimal(|item|) + item)
    else None
  }

  function EncodeItems(items: seq<seq<Byte>>): Option<seq<Byte>> {
    if items == [] then Some([])
    else
      match EncodeItem(items[0])
      case None => None
      case Some(first) =>
        match EncodeItems(items[1..])
        case None => None
        case Some(rest) => Some(first + rest)
  }

  function EncodeList(items: seq<seq<Byte>>): Option<seq<Byte>> {
    match EncodeItems(items)
    case None => None
    case Some(body) =>
      if |body| <= 55 then Some([0xc0 + |body|] + body)
      else if |body| < TWO_32 then
        LengthFits(|body|);
        Some([0xf7 + |Minimal(|body|)|] + Minimal(|body|) + body)
      else None
  }

  lemma {:induction false} MinimalIsBigEndian(n: nat, k: nat)
    requires 0 < k && Pow256(k - 1) <= n < Pow256(k)
    ensures Minimal(n) == BigEndian(n, k)
    decreases k
  {
    if k == 1 {
      assert Minimal(n / 256) == [] && BigEndian(n / 256, 0) == [];
    } else {
      MinimalIsBigEndian(n / 256, k - 1);
    }
  }

  lemma FourBytes(k: nat)
    requires k <= 4
    ensures Pow256(k) <= TWO_32
  {
    assert Pow256(1) == 256 && Pow256(2) == 65536 && Pow256(3) == 16777216 && Pow256(4) == 4294967296;
  }

  /** Items and lists are encoded as appendix B of the Ethereum yellow paper says: a byte below 128 stands for itself,
      up to 55 bytes follow 128 plus their number, and more follow 183 plus the size of their number and the number
      itself, most significant byte first; for the items of a list it is 192 and 247. */
  lemma EncodesByTheBook(item: seq<Byte>, items: seq<seq<Byte>>, body: seq<Byte>, k: nat)
    requires 0 < k <= 4 && EncodeItems(items) == Some(body)
    ensures |item| == 1 && item[0] < 128 ==> EncodeItem(item) == Some(item)
    ensures |item| < 56 && !(|item| == 1 && item[0] < 128) ==> EncodeItem(item) == Some([128 + |item|] + item)
    ensures |item| >= 56 && Pow256(k - 1) <= |item| < Pow256(k) ==>
      EncodeItem(item) == Some([183 + k] + BigEndian(|item|, k) + item)
    ensures |body| < 56 ==> EncodeList(items) == Some([192 + |body|] + body)
    ensures |body| >= 56 && Pow256(k - 1) <= |body| < Pow256(k) ==>
      EncodeList(items) == Some([247 + k] + BigEndian(|body|, k) + body)
  {
    FourBytes(k);
    hide Minimal, EncodeItems, Pow256, BigEndian;
    if Pow256(k - 1) <= |item| < Pow256(k) {
      MinimalIsBigEndian(|item|, k);
    }
    if Pow256(k - 1) <= |body| < Pow256(k) {
      MinimalIsBigEndian(|body|, k);
    }
  }

  // Decoding what was encoded

  lemma LengthReads(n: nat, rest: seq<Byte>)
    requires 0 < n < TWO_32
    ensures LengthAt(Minimal(n) + rest, |Minimal(n)|) == Some(Wrap32(n))
    ensures 1 <= |Minimal(n)| <= 4
  {
    hide Minimal, FromBigEndian, Wrap32;
    MinimalIs(n);
    LengthFits(n);
    assert (Minimal(n) + rest)[..|Minimal(n)|] == Minimal(n);
  }

  lemma WrapsNegative(n: nat)
    requires TWO_31 <= n < TWO_32
    ensures Wrap32(n) < 0
  {
  }

  /** An item of up to 2^31 - 1 bytes is decoded as it was encoded; the decoder takes a longer one for negative. */
  lemma ItemRoundTrip(item: seq<Byte>, rest: seq<Byte>)
    requires EncodeItem(item).Some?
    ensures Item(EncodeItem(item).value + rest) == if |item| < TWO_31 then Some((item, rest)) else None
  {
    hide Minimal, LengthAt, Wrap32;
    var s := EncodeItem(item).value + rest;
    if |item| == 1 && item[0] < 0x80 {
      assert s[..1] == item && s[1..] == rest;
    } else if |item| <= 55 {
      assert s[1..1 + |item|] == item && s[1 + |item|..] == rest;
    } else {
      var length := Minimal(|item|);
      LengthReads(|item|, item + rest);
      assert s[1..] == length + (item + rest);
      assert s[0] == 0xb7 + |length|;
      if |item| < TWO_31 {
        assert s[1 + |length|..1 + |length| + |item|] == item && s[1 + |length| + |item|..] == rest;
      } else {
        WrapsNegative(|item|);
      }
    }
  }

  lemma NotEmpty(item: seq<Byte>)
    requires EncodeItem(item).Some?
    ensures |EncodeItem(item).value| > 0 && |EncodeItem(item).value| >= |item|
    ensures EncodeItem(item).value[0] <= 0xbb
  {
    if |item| > 55 {
      LengthFits(|item|);
    }
  }

  lemma {:induction false} ItemsRoundTrip(items: seq<seq<Byte>>, count: nat)
    requires EncodeItems(items).Some? && count + |items| <= 11
    requires forall i :: 0 <= i < |items| ==> |items[i]| < TWO_31
    ensures Items(EncodeItems(items).value, count) == Some(items)
  {
    hide Item, EncodeItem;
    if items == [] {
    } else {
      var first, rest := EncodeItem(items[0]).value, EncodeItems(items[1..]).value;
      ItemRoundTrip(items[0], rest);
      NotEmpty(items[0]);
      ItemsRoundTrip(items[1..], count + 1);
      assert [items[0]] + items[1..] == items;
    }
  }

  lemma {:induction false} ItemsAreShorter(items: seq<seq<Byte>>, i: nat)
    requires EncodeItems(items).Some? && i < |items|
    ensures |items[i]| <= |EncodeItems(items).value|
    decreases |items|
  {
    hide EncodeItem;
    NotEmpty(items[0]);
    if i == 0 {
    } else {
      ItemsAreShorter(items[1..], i - 1);
    }
  }

  lemma ListRoundTrip(items: seq<seq<Byte>>)
    requires EncodeList(items).Some?
    ensures var s, body := EncodeList(items).value, EncodeItems(items).value;
      && |body| < |s| && s[|s| - |body|..] == body
      && ListBounds(s) == if |body| < TWO_31 then Some((|s| - |body|, |s|)) else None
  {
    hide Minimal, LengthAt, Wrap32, EncodeItems;
    var s, body := EncodeList(items).value, EncodeItems(items).value;
    if |body| > 55 {
      LengthReads(|body|, body);
      assert s[1..] == Minimal(|body|) + body;
      if |body| >= TWO_31 {
        WrapsNegative(|body|);
      }
    }
  }

  // Encoding what was decoded

  lemma {:induction false} Pow256Grows(m: nat, n: nat)
    requires m <= n
    ensures Pow256(m) <= Pow256(n)
  {
    if m == n {
    } else {
      Pow256Grows(m, n - 1);
    }
  }

  lemma LengthIsMinimal(s: seq<Byte>, n: nat)
    requires 1 <= n <= 4 && LengthAt(s, n).Some? && LengthAt(s, n).value >= 56
    ensures Minimal(LengthAt(s, n).value) == s[..n] && LengthAt(s, n).value < TWO_31
  {
    var x := FromBigEndian(s[..n]);
    FromBigEndianFits(s[..n]);
    Pow256Of4();
    Pow256Grows(n, 4);
    if x >= TWO_31 {
      WrapsNegative(x);
    }
    if n == 1 {
      assert s[..1][..0] == [];
    }
    MinimalIsOnly(s[..n]);
  }

  lemma LengthInRange(s: seq<Byte>, n: nat)
    requires LengthAt(s, n).Some?
    ensures LengthAt(s, n).value < TWO_31
  {
  }

  /** An accepted item is the one encoding of its contents, unless its length takes up more than four bytes. */
  lemma ItemCanonical(s: seq<Byte>)
    requires Item(s).Some?
    ensures var (item, rest) := Item(s).value;
      && |item| < TWO_31 && |rest| < |s|
      && (s[0] <= 0xbb ==> EncodeItem(item).Some? && EncodeItem(item).value + rest == s)
      && (s[0] > 0xbb ==> EncodeItem(item).Some? && EncodeItem(item).value + rest != s)
  {
    hide Minimal, LengthAt;
    var (item, rest) := Item(s).value;
    var p: int := s[0];
    if p <= 0x7f {
      assert s == s[..1] + s[1..];
    } else if p <= 0xb7 {
      assert s == [s[0]] + s[1..1 + |item|] + s[1 + |item|..];
    } else {
      LengthInRange(s[1..], p - 0xb7);
      if p <= 0xbb {
        var n := p - 0xb7;
        LengthIsMinimal(s[1..], n);
        assert s[1..][..n] == s[1..1 + n];
        assert s == [s[0]] + s[1..1 + n] + s[1 + n..1 + n + |item|] + s[1 + n + |item|..];
      } else {
        NotEmpty(item);
        assert (EncodeItem(item).value + rest)[0] == EncodeItem(item).value[0];
      }
    }
  }

  /** No item of `s` has a length of more than four bytes. */
  predicate ShortLengths(s: seq<Byte>) {
    s == [] ||
    (s[0] <= 0xbb &&
     match Item(s)
     case None => false
     case Some((_, rest)) => ShortLengths(rest))
  }

  lemma {:induction false} ItemsCanonical(s: seq<Byte>, count: nat)
    requires Items(s, count).Some?
    ensures Items(s, count).value == [] || count + |Items(s, count).value| <= 11
    ensures EncodeItems(Items(s, count).value) == Some(s) <==> ShortLengths(s)
    decreases |s|
  {
    hide Item, EncodeItem;
    if s == [] {
    } else {
      var (item, rest) := Item(s).value;
      ItemCanonical(s);
      ItemsCanonical(rest, count + 1);
      var items := Items(s, count).value;
      assert items[1..] == Items(rest, count + 1).value;
      if EncodeItems(items) == Some(s) {
        ItemRoundTrip(item, EncodeItems(items[1..]).value);
      }
    }
  }

  function FiveBytes(n: nat): seq<Byte> {
    [1] + BigEndian(n, 4)
  }

  lemma WrapsTo(n: nat)
    requires n < TWO_31
    ensures Wrap32(TWO_32 + n) == n
  {
  }

  lemma {:induction false} FirstByte(s: seq<Byte>)
    ensures FromBigEndian([1] + s) == Pow256(|s|) + FromBigEndian(s)
  {
    if s != [] {
      FirstByte(s[..|s| - 1]);
      assert ([1] + s)[..|s|] == [1] + s[..|s| - 1];
    } else {
      assert ([1] + s)[..0] == [];
    }
  }

  lemma FiveBytesRead(n: nat, tail: seq<Byte>)
    requires n < TWO_31
    ensures LengthAt(FiveBytes(n) + tail, 5) == Some(n)
  {
    hide BigEndian, FromBigEndian, Wrap32;
    assert (FiveBytes(n) + tail)[..5] == [1] + BigEndian(n, 4);
    FirstByte(BigEndian(n, 4));
    Pow256Of4();
    BigEndianRoundTrip(n, 4);
    WrapsTo(n);
  }

  lemma FiveBytesLong(n: nat)
    ensures |FiveBytes(n)| == 5
  {
  }

  lemma EncodesSmall(item: seq<Byte>)
    requires |item| < TWO_31
    ensures EncodeItem(item).Some?
  {
  }

  /** A length of five bytes loses its first byte: every longer item has a second encoding the decoder accepts. */
  lemma LongLengthIsRead(item: seq<Byte>, rest: seq<Byte>)
    requires 56 <= |item| < TWO_31
    ensures Item([0xbc] + FiveBytes(|item|) + item + rest) == Some((item, rest))
    ensures EncodeItem(item).Some? && EncodeItem(item).value != [0xbc] + FiveBytes(|item|) + item
  {
    hide LengthAt, EncodeItem, FiveBytes;
    FiveBytesRead(|item|, item + rest);
    assert |FiveBytes(|item|)| == 5 by {
      FiveBytesLong(|item|);
    }
    var s := [0xbc] + FiveBytes(|item|) + item + rest;
    assert s[1..] == FiveBytes(|item|) + (item + rest);
    assert s[6..6 + |item|] == item && s[6 + |item|..] == rest;
    EncodesSmall(item);
    NotEmpty(item);
  }
}
