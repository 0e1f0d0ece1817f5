/**
 * Big-endian encoding of unsigned integers into byte strings, and the two Node.js
 * Buffer primitives the tree-note codec relies on: `slice` (which clamps its bounds
 * to the buffer) and `readUInt32BE` (which throws when the four bytes are not there).
 */
module ByteCodec {
  import opened Wrappers

  type byte = x: int | 0 <= x < 256

  /** 256^n: the number of distinct values an n-byte string can hold. */
  function Pow256(n: nat): (p: nat)
    ensures p >= 1
  {
    if n == 0 then 1 else 256 * Pow256(n - 1)
  }

  const UINT32_BOUND: nat := 0x1_0000_0000
  const UINT256_BOUND: nat := 0x1_0000_0000_0000_0000_0000_0000_0000_0000_0000_0000_0000_0000_0000_0000_0000_0000

  type uint32 = x: nat | x < UINT32_BOUND
  type uint256 = x: nat | x < UINT256_BOUND

  lemma Pow256Of4()
    ensures Pow256(4) == UINT32_BOUND
  {
  }

  lemma Pow256Of32()
    ensures Pow256(32) == UINT256_BOUND
  {
    assert Pow256(4) == UINT32_BOUND;
    assert Pow256(8) == UINT32_BOUND * UINT32_BOUND;
    assert Pow256(16) == Pow256(8) * Pow256(8) by { Pow256Add(8, 8); }
    assert Pow256(32) == Pow256(16) * Pow256(16) by { Pow256Add(16, 16); }
  }

  lemma {:induction false} Pow256Add(m: nat, n: nat)
    ensures Pow256(m + n) == Pow256(m) * Pow256(n)
  {
    if m > 0 {
      Pow256Add(m - 1, n);
      assert Pow256(m + n) == 256 * Pow256(m - 1 + n);
    }
  }

  lemma {:induction false} Pow256Monotone(m: nat, n: nat)
    requires m <= n
    ensures Pow256(m) <= Pow256(n)
  {
    if m < n {
      Pow256Monotone(m, n - 1);
    }
  }

  /** `v` written as exactly `width` bytes, most significant byte first. */
  function ToBytesBE(v: nat, width: nat): (r: seq<byte>)
    requires v < Pow256(width)
    ensures |r| == width
    decreases width
  {
    if width == 0 then []
    else
      assert v / 256 < Pow256(width - 1) by { DivBound(v, Pow256(width - 1)); }
      ToBytesBE(v / 256, width - 1) + [v % 256]
  }

  /** The unsigned integer a byte string denotes, most significant byte first. */
  function FromBytesBE(s: seq<byte>): (v: nat)
    ensures v < Pow256(|s|)
  {
    if s == [] then 0
    else
      var hi := FromBytesBE(s[..|s| - 1]);
      MulAddBound(hi, s[|s| - 1], Pow256(|s| - 1));
      hi * 256 + s[|s| - 1]
  }

  lemma DivBound(v: nat, p: nat)
    requires v < 256 * p
    ensures v / 256 < p
  {
  }

  lemma MulAddBound(hi: nat, lo: byte, p: nat)
    requires hi < p
    ensures hi * 256 + lo < 256 * p
  {
    assert hi * 256 <= (p - 1) * 256;
  }

  /** Decoding an encoding gives back the number. */
  lemma {:induction false} FromToBytesBE(v: nat, width: nat)
    requires v < Pow256(width)
    ensures FromBytesBE(ToBytesBE(v, width)) == v
    decreases width
  {
    if width > 0 {
      var r := ToBytesBE(v, width);
      assert v / 256 < Pow256(width - 1) by { DivBound(v, Pow256(width - 1)); }
      assert r[..width - 1] == ToBytesBE(v / 256, width - 1);
      FromToBytesBE(v / 256, width - 1);
    }
  }

  /** Encoding a decoded byte string at its own width gives back the bytes. */
  lemma {:induction false} ToFromBytesBE(s: seq<byte>)
    ensures ToBytesBE(FromBytesBE(s), |s|) == s
  {
    if s != [] {
      var hi := FromBytesBE(s[..|s| - 1]);
      var v := FromBytesBE(s);
      assert v / 256 == hi && v % 256 == s[|s| - 1];
      ToFromBytesBE(s[..|s| - 1]);
    }
  }

  /** Where each of seven concatenated byte strings lies in the concatenation. */
  lemma ConcatParts(p1: seq<byte>, p2: seq<byte>, p3: seq<byte>, p4: seq<byte>, p5: seq<byte>, p6: seq<byte>, p7: seq<byte>)
    ensures var b := p1 + p2 + p3 + p4 + p5 + p6 + p7;
      var o1 := |p1|; var o2 := o1 + |p2|; var o3 := o2 + |p3|; var o4 := o3 + |p4|; var o5 := o4 + |p5|; var o6 := o5 + |p6|;
      b[..o1] == p1 && b[o1..o2] == p2 && b[o2..o3] == p3 && b[o3..o4] == p4 && b[o4..o5] == p5 && b[o5..o6] == p6 &&
      b[o6..] == p7
  {
    var b := p1 + p2 + p3 + p4 + p5 + p6 + p7;
    var o1 := |p1|; var o2 := o1 + |p2|; var o3 := o2 + |p3|; var o4 := o3 + |p4|; var o5 := o4 + |p5|; var o6 := o5 + |p6|;
    assert b[..o1] == p1;
    assert b[o1..o2] == p2;
    assert b[o2..o3] == p3;
    assert b[o3..o4] == p4;
    assert b[o4..o5] == p5;
    assert b[o5..o6] == p6;
    assert b[o6..] == p7;
  }

  /** A byte string is the concatenation of its pieces between increasing offsets. */
  lemma SplitParts(b: seq<byte>, o1: nat, o2: nat, o3: nat, o4: nat, o5: nat, o6: nat)
    requires o1 <= o2 <= o3 <= o4 <= o5 <= o6 <= |b|
    ensures b == b[..o1] + b[o1..o2] + b[o2..o3] + b[o3..o4] + b[o4..o5] + b[o5..o6] + b[o6..]
  {
    assert b[..o2] == b[..o1] + b[o1..o2];
    assert b[..o3] == b[..o2] + b[o2..o3];
    assert b[..o4] == b[..o3] + b[o3..o4];
    assert b[..o5] == b[..o4] + b[o4..o5];
    assert b[..o6] == b[..o5] + b[o5..o6];
    assert b == b[..o6] + b[o6..];
  }

  /** Node's `buf.slice(start, end)`: both bounds are clamped to the buffer's length. */
  function Slice(buf: seq<byte>, start: nat, end: nat): (r: seq<byte>)
    ensures |r| == if start <= end && start <= |buf| then Min(end, |buf|) - start else 0
    ensures start <= end <= |buf| ==> r == buf[start..end]
    ensures forall k :: 0 <= k < |r| ==> r[k] == buf[start + k]
  {
    if start <= end && start <= |buf| then buf[start..Min(end, |buf|)] else []
  }

  function Min(a: nat, b: nat): nat {
    if a <= b then a else b
  }

  /** Why a read from a buffer failed. */
  datatype ReadError = OutOfRange(offset: nat, length: nat)

  /** Node's `buf.readUInt32BE(offset)`: throws a range error unless four bytes are available. */
  function ReadUInt32BE(buf: seq<byte>, offset: nat): (r: Result<uint32, ReadError>)
    ensures r.Ok? <==> offset + 4 <= |buf|
    ensures r.Ok? ==> r.value == FromBytesBE(buf[offset..offset + 4])
    ensures r.Err? ==> r.error == OutOfRange(offset, |buf|)
  {
    if offset + 4 <= |buf| then
      var v := FromBytesBE(buf[offset..offset + 4]);
      Pow256Of4();
      Ok(v)
    else Err(OutOfRange(offset, |buf|))
  }
}
