/** Fixed-width integers as bytes, and the cursor buffer every serializer writes to and reads from. */
module ByteBuffers {
  import opened Wrappers
  import opened Arithmetic

  type Byte = x: int | 0 <= x < 256

  // Integers of a fixed width

  function Pow256(n: nat): (r: nat)
    ensures r > 0
  {
    if n == 0 then 1 else 256 * Pow256(n - 1)
  }

  /** The lowest `n` bytes of `v`, least significant first. */
  function LittleEndian(v: nat, n: nat): (s: seq<Byte>)
    ensures |s| == n
    decreases n
  {
    if n == 0 then [] else [v % 256] + LittleEndian(v / 256, n - 1)
  }

  /** The byte at `i` has the weight 256^i. */
  lemma {:induction false} LittleEndianAt(v: nat, n: nat, i: nat)
    requires i < n
    ensures LittleEndian(v, n)[i] == v / Pow256(i) % 256
    decreases n
  {
    if i == 0 {
    } else {
      LittleEndianAt(v / 256, n - 1, i - 1);
      DivideTwice(v, 256, Pow256(i - 1));
    }
  }

  function FromLittleEndian(s: seq<Byte>): nat {
    if s == [] then 0 else s[0] + 256 * FromLittleEndian(s[1..])
  }

  lemma {:induction false} LittleEndianRoundTrip(v: nat, n: nat)
    requires v < Pow256(n)
    ensures FromLittleEndian(LittleEndian(v, n)) == v
    decreases n
  {
    if n == 0 {
    } else {
      LittleEndianRoundTrip(v / 256, n - 1);
      assert LittleEndian(v, n)[1..] == LittleEndian(v / 256, n - 1);
    }
  }

  lemma {:induction false} FromLittleEndianFits(s: seq<Byte>)
    ensures FromLittleEndian(s) < Pow256(|s|)
    ensures LittleEndian(FromLittleEndian(s), |s|) == s
    decreases |s|
  {
    if s == [] {
    } else {
      FromLittleEndianFits(s[1..]);
      var rest := FromLittleEndian(s[1..]);
      assert (s[0] + 256 * rest) % 256 == s[0] && (s[0] + 256 * rest) / 256 == rest;
      assert s == [s[0]] + s[1..];
    }
  }

  /** The lowest `n` bytes of `v`, most significant first. */
  function BigEndian(v: nat, n: nat): (s: seq<Byte>)
    ensures |s| == n
    decreases n
  {
    if n == 0 then [] else BigEndian(v / 256, n - 1) + [v % 256]
  }

  /** The byte at `i` from the end has the weight 256^i. */
  lemma {:induction false} BigEndianAt(v: nat, n: nat, i: nat)
    requires i < n
    ensures BigEndian(v, n)[n - 1 - i] == v / Pow256(i) % 256
    decreases n
  {
    if i == 0 {
    } else {
      BigEndianAt(v / 256, n - 1, i - 1);
      DivideTwice(v, 256, Pow256(i - 1));
    }
  }

  function FromBigEndian(s: seq<Byte>): nat {
    if s == [] then 0 else 256 * FromBigEndian(s[..|s| - 1]) + s[|s| - 1]
  }

  lemma {:induction false} BigEndianRoundTrip(v: nat, n: nat)
    requires v < Pow256(n)
    ensures FromBigEndian(BigEndian(v, n)) == v
    decreases n
  {
    if n == 0 {
    } else {
      BigEndianRoundTrip(v / 256, n - 1);
      assert BigEndian(v, n)[..n - 1] == BigEndian(v / 256, n - 1);
    }
  }

  lemma {:induction false} FromBigEndianFits(s: seq<Byte>)
    ensures FromBigEndian(s) < Pow256(|s|)
    ensures BigEndian(FromBigEndian(s), |s|) == s
    decreases |s|
  {
    if s == [] {
    } else {
      var front, last := s[..|s| - 1], s[|s| - 1];
      FromBigEndianFits(front);
      var rest := FromBigEndian(front);
      assert (256 * rest + last) % 256 == last && (256 * rest + last) / 256 == rest;
      assert s == front + [last];
    }
  }

  function Zeros(n: nat): seq<Byte> {
    seq(n, _ => 0)
  }

  // The buffer

  class ByteBuffer {
    const buffer: array<Byte>
    var offset: nat

    ghost predicate Valid()
      reads this
    {
      offset <= buffer.Length
    }

    /** What has been written, or read, so far. */
    function Result(): seq<Byte>
      requires Valid()
      reads this, buffer
    {
      buffer[..offset]
    }

    function Remainder(): seq<Byte>
      requires Valid()
      reads this, buffer
    {
      buffer[offset..]
    }

    constructor FromSize(size: nat)
      ensures Valid() && fresh(buffer) && buffer.Length == size && offset == 0
      ensures buffer[..] == Zeros(size)
    {
      buffer := new Byte[size](_ => 0);
      offset := 0;
    }

    constructor FromBuffer(bytes: seq<Byte>)
      ensures Valid() && fresh(buffer) && offset == 0 && Remainder() == bytes
    {
      buffer := new Byte[|bytes|](i requires 0 <= i < |bytes| => bytes[i]);
      offset := 0;
    }

    /** Moves the cursor without writing, forwards or back, if it stays inside. */
    method Skip(length: int) returns (ok: bool)
      requires Valid()
      modifies this`offset
      ensures Valid()
      ensures ok <==> 0 <= old(offset) + length <= buffer.Length
      ensures offset == if ok then old(offset) + length else old(offset)
    {
      if length < -(offset as int) || length > buffer.Length - offset {
        return false;
      }
      offset := offset + length;
      return true;
    }

    /** Writes an integer of `width` bytes, little-endian, if it is in range and there is room. */
    method WriteUint(value: int, width: nat) returns (ok: bool)
      requires Valid()
      modifies this, buffer
      ensures Valid()
      ensures ok <==> 0 <= value < Pow256(width) && old(offset) + width <= buffer.Length
      ensures ok ==> offset == old(offset) + width && Result() == old(Result()) + LittleEndian(value, width)
      ensures !ok ==> offset == old(offset) && buffer[..] == old(buffer[..])
    {
      if value < 0 || value >= Pow256(width) || offset + width > buffer.Length {
        return false;
      }
      var left, k := value, 0;
      ghost var start, before := offset, Result();
      while k < width
        invariant 0 <= k <= width && left >= 0 && offset == start + k && Valid()
        invariant buffer[..start] == before
        invariant buffer[start..offset] + LittleEndian(left, width - k) == LittleEndian(value, width)
      {
        ghost var written := buffer[start..offset];
        buffer[offset] := left % 256;
        offset, left, k := offset + 1, left / 256, k + 1;
        assert buffer[start..offset] == written + [buffer[offset - 1]];
      }
      assert buffer[..offset] == buffer[..start] + buffer[start..offset];
      return true;
    }

    method ReadUint(width: nat) returns (r: Option<nat>)
      requires Valid()
      modifies this
      ensures Valid()
      ensures r.Some? <==> width <= |old(Remainder())|
      ensures r.Some? ==> r.value == FromLittleEndian(old(Remainder())[..width]) && r.value < Pow256(width)
      ensures r.Some? ==> offset == old(offset) + width && Remainder() == old(Remainder())[width..]
      ensures r.None? ==> offset == old(offset)
    {
      if offset + width > buffer.Length {
        return None;
      }
      var value: nat, k := 0, width;
      ghost var bytes := Remainder()[..width];
      while k > 0
        invariant 0 <= k <= width && value == FromLittleEndian(bytes[k..])
      {
        k := k - 1;
        assert bytes[k..] == [bytes[k]] + bytes[k + 1..];
        value := 256 * value + buffer[offset + k];
      }
      assert bytes[0..] == bytes;
      FromLittleEndianFits(bytes);
      offset := offset + width;
      return Some(value);
    }

    method WriteBytes(value: seq<Byte>) returns (ok: bool)
      requires Valid()
      modifies this, buffer
      ensures Valid()
      ensures ok <==> |value| <= buffer.Length - old(offset)
      ensures ok ==> offset == old(offset) + |value| && Result() == old(Result()) + value
      ensures !ok ==> offset == old(offset) && buffer[..] == old(buffer[..])
    {
      if |value| > buffer.Length - offset {
        return false;
      }
      forall i | 0 <= i < |value| {
        buffer[offset + i] := value[i];
      }
      offset := offset + |value|;
      return true;
    }

    method ReadBytes(length: nat) returns (r: Option<seq<Byte>>)
      requires Valid()
      modifies this
      ensures Valid()
      ensures r.Some? <==> length <= |old(Remainder())|
      ensures r.Some? ==> r.value == old(Remainder())[..length] && Remainder() == old(Remainder())[length..]
      ensures r.Some? ==> offset == old(offset) + length
      ensures r.None? ==> offset == old(offset)
    {
      if length > buffer.Length - offset {
        return None;
      }
      r := Some(buffer[offset..offset + length]);
      offset := offset + length;
    }

    /** A 256-bit integer is written big-endian, padded to 32 bytes. */
    method WriteUint256(value: int) returns (ok: bool)
      requires Valid()
      modifies this, buffer
      ensures Valid()
      ensures ok <==> 0 <= value < Pow256(32) && old(offset) + 32 <= buffer.Length
      ensures ok ==> offset == old(offset) + 32 && Result() == old(Result()) + BigEndian(value, 32)
      ensures !ok ==> offset == old(offset) && buffer[..] == old(buffer[..])
    {
      if value < 0 || value >= Pow256(32) {
        return false;
      }
      ok := WriteBytes(BigEndian(value, 32));
    }

    method ReadUint256() returns (r: Option<nat>)
      requires Valid()
      modifies this
      ensures Valid()
      ensures r.Some? <==> 32 <= |old(Remainder())|
      ensures r.Some? ==> r.value == FromBigEndian(old(Remainder())[..32]) && Remainder() == old(Remainder())[32..]
      ensures r.Some? ==> offset == old(offset) + 32
      ensures r.None? ==> offset == old(offset)
    {
      var bytes := ReadBytes(32);
      if bytes.None? {
        return None;
      }
      return Some(FromBigEndian(bytes.value));
    }
  }
}
