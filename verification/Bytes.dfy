/** Bytes and little-endian numbers. */
module Bytes {

  type Byte = b: nat | b < 256

  /** The number fits into so many bytes. */
  predicate Fits(n: nat, width: nat)
  {
    n < Range(width)
  }

  function Range(width: nat): nat
  {
    if width == 0 then 1 else 256 * Range(width - 1)
  }

  /** Least significant byte first; bits that do not fit are dropped. */
  function Encode(n: nat, width: nat): (s: seq<Byte>)
    ensures |s| == width
  {
    if width == 0 then [] else [n % 256] + Encode(n / 256, width - 1)
  }

  function Decode(s: seq<Byte>): nat
  {
    if s == [] then 0 else s[0] + 256 * Decode(s[1..])
  }

  /** Reading back what was stored gives the number, just if it fits. */
  lemma {:induction false} DecodeEncode(n: nat, width: nat)
    ensures Decode(Encode(n, width)) == n <==> Fits(n, width)
    ensures Decode(Encode(n, width)) <= n
  {
    if width == 0 {
    } else {
      DecodeEncode(n / 256, width - 1);
      assert Encode(n, width)[1..] == Encode(n / 256, width - 1);
      assert n == n % 256 + 256 * (n / 256);
    }
  }

  /** The least significant byte comes first. */
  lemma {:induction false} LittleEndian(a: nat, b: nat, c: nat, d: nat)
    requires a < 256 && b < 256 && c < 256 && d < 256
    ensures Decode([a, b]) == a + 0x100 * b
    ensures Decode([a, b, c, d]) == a + 0x100 * b + 0x1_0000 * c + 0x100_0000 * d
  {
    assert Decode([d]) == d && [c, d][1..] == [d] && [b, c, d][1..] == [c, d] && [a, b, c, d][1..] == [b, c, d];
    assert Decode([b]) == b && [a, b][1..] == [b];
    assert Decode([c, d]) == c + 256 * d && Decode([b, c, d]) == b + 256 * Decode([c, d]);
  }

  /** And storing what was read gives the bytes back. */
  lemma {:induction false} EncodeDecode(s: seq<Byte>)
    ensures Encode(Decode(s), |s|) == s && Fits(Decode(s), |s|)
  {
    if s == [] {
    } else {
      EncodeDecode(s[1..]);
      assert Decode(s) / 256 == Decode(s[1..]) && Decode(s) % 256 == s[0];
      assert s == [s[0]] + s[1..];
    }
  }

  lemma {:induction false} Ranges()
    ensures Range(2) == 0x1_0000 && Range(4) == 0x1_0000_0000 && Range(8) == 0x1_0000_0000_0000_0000
  {
    assert Range(2) == 256 * 256;
    assert Range(4) == 256 * 256 * Range(2);
    assert Range(6) == 256 * 256 * Range(4);
  }

  /** A buffer with some bytes stored in it. */
  function Put(b: seq<Byte>, at: nat, s: seq<Byte>): (r: seq<Byte>)
    requires at + |s| <= |b|
    ensures |r| == |b|
  {
    b[..at] + s + b[at + |s|..]
  }

  lemma {:induction false} PutSlice(b: seq<Byte>, at: nat, s: seq<Byte>, lo: nat, hi: nat)
    requires at + |s| <= |b| && lo <= hi <= |b|
    ensures hi <= at || at + |s| <= lo ==> Put(b, at, s)[lo..hi] == b[lo..hi]
    ensures lo <= at && hi == at + |s| ==> Put(b, at, s)[lo..hi] == b[lo..at] + s
  {
    var r := Put(b, at, s);
    assert forall k | 0 <= k < |b| :: r[k] == if at <= k < at + |s| then s[k - at] else b[k];
    if hi <= at || at + |s| <= lo {
      assert r[lo..hi] == b[lo..hi];
    }
    if lo <= at && hi == at + |s| {
      assert r[lo..hi] == b[lo..at] + s;
    }
  }

  method PutBytes(a: array<Byte>, at: nat, s: seq<Byte>)
    requires at + |s| <= a.Length
    modifies a
    ensures a[..] == Put(old(a[..]), at, s)
  {
    for i := 0 to |s|
      invariant a[..] == old(a[..at]) + s[..i] + old(a[at + i..])
    {
      a[at + i] := s[i];
      assert a[..] == old(a[..at]) + s[..i + 1] + old(a[at + i + 1..]);
    }
  }
}
