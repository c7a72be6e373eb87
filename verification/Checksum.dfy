/** The Internet checksum: the complement of the one's-complement sum of 16-bit words, section 1 of RFC 1071. */
module Checksum {
  import opened Bytes

  const START := 0xFFFF

  // ---------------------------------------------------------------- sums of words

  /** The sum of the big-endian words of some bytes; an odd byte at the end is the high half of a word. */
  function Sum(d: seq<Byte>): nat
  {
    if |d| == 0 then 0
    else if |d| == 1 then Word(d[0], 0)
    else Word(d[0], d[1]) + Sum(d[2..])
  }

  function Word(high: nat, low: nat): nat
  {
    high * 256 + low
  }

  /** The one's-complement value of a sum: carries are added back in until it fits into 16 bits. */
  function Fold(x: nat): (r: nat)
    ensures r <= 0xFFFF && (r == 0 <==> x == 0)
  {
    if x == 0 then 0 else (x - 1) % 0xFFFF + 1
  }

  function Not(x: nat): nat
    requires x <= 0xFFFF
  {
    0xFFFF - x
  }

  /** The checksum of some bytes, continuing a previous one. */
  function Internet(prev: nat, d: seq<Byte>): (r: nat)
    requires prev <= 0xFFFF
    ensures r <= 0xFFFF
  {
    Not(Fold(Sum(d) + Not(prev)))
  }

  // ---------------------------------------------------------------- folding

  lemma {:induction false} FoldCarry(x: nat)
    ensures Fold(x % 0x1_0000 + x / 0x1_0000) == Fold(x)
  {
    var q, r := x / 0x1_0000, x % 0x1_0000;
    assert x == (q + r) + 0xFFFF * q;
    if x > 0 {
      ModAdd(q + r - 1, q);
    }
  }

  lemma {:induction false} ModAdd(a: nat, q: nat)
    ensures (a + 0xFFFF * q) % 0xFFFF == a % 0xFFFF
  {
  }

  lemma {:induction false} FoldAdd(x: nat, y: nat)
    ensures Fold(Fold(x) + y) == Fold(x + y)
  {
    if x > 0 {
      var q := (x - 1) / 0xFFFF;
      assert x + y == (Fold(x) + y) + 0xFFFF * q;
      ModAdd(Fold(x) + y - 1, q);
    }
  }

  /** A sum folds to the other zero just if it is a positive multiple. */
  lemma {:induction false} FoldFull(x: nat)
    ensures Fold(x) == 0xFFFF <==> x > 0 && x % 0xFFFF == 0
  {
    if x > 0 {
      var q := (x - 1) / 0xFFFF;
      assert x == Fold(x) + 0xFFFF * q;
      ModAdd(Fold(x), q);
    }
  }

  // ---------------------------------------------------------------- the code

  method FoldCarries(x: nat) returns (r: nat)
    ensures r == Fold(x)
  {
    hide Fold;
    r := x;
    while r / 0x1_0000 != 0
      invariant Fold(r) == Fold(x)
      decreases r
    {
      FoldCarry(r);
      r := r % 0x1_0000 + r / 0x1_0000;
    }
    FoldSmall(r);
  }

  lemma {:induction false} FoldSmall(x: nat)
    requires x <= 0xFFFF
    ensures Fold(x) == x
  {
  }

  /** Sums are kept in 32 bits. */
  function Bits32(x: nat): nat
  {
    x % 0x1_0000_0000
  }

  function Wrapped(d: seq<Byte>): nat
  {
    Bits32(Sum(d))
  }

  lemma {:induction false} AddBits32(a: nat, b: nat, c: nat)
    ensures Bits32(Bits32(a + b) + c) == Bits32(a + (b + c))
  {
  }

  lemma {:induction false} SumStep(d: seq<Byte>, i: nat)
    requires 2 * i + 1 < |d|
    ensures Sum(d[2 * i..]) == Word(d[2 * i], d[2 * i + 1]) + Sum(d[2 * i + 2..])
  {
    assert d[2 * i..][2..] == d[2 * i + 2..];
  }

  lemma {:induction false} SumEnd(d: seq<Byte>)
    ensures Sum(d[2 * (|d| / 2)..]) == if |d| % 2 == 1 then Word(d[|d| - 1], 0) else 0
  {
    assert |d| % 2 == 1 ==> d[2 * (|d| / 2)..] == [d[|d| - 1]];
  }

  /** Add up the words and an odd byte at the end. */
  method AddWords(d: seq<Byte>) returns (ret: nat)
    ensures ret == Wrapped(d)
  {
    hide Bits32, Sum, Word;
    ret := 0;
    assert d[2 * 0..] == d;
    for i := 0 to |d| / 2
      invariant Bits32(ret + Sum(d[2 * i..])) == Wrapped(d)
    {
      SumStep(d, i);
      AddBits32(ret, Word(d[2 * i], d[2 * i + 1]), Sum(d[2 * i + 2..]));
      assert 2 * (i + 1) == 2 * i + 2;
      ret := Bits32(ret + Word(d[2 * i], d[2 * i + 1]));
    }
    SumEnd(d);
    if |d| % 2 == 1 {
      ret := ret + Word(d[|d| - 1], 0);
    }
    ret := Bits32(ret);
  }

  /** Add up the words, fold, add the complement of the previous checksum, and fold again. */
  method IPChecksum(prev: nat, d: seq<Byte>) returns (r: nat)
    requires prev <= 0xFFFF
    ensures r == Not(Fold(Wrapped(d) + Not(prev)))
    ensures |d| <= 2 * 65537 ==> r == Internet(prev, d)
  {
    hide Fold, Wrapped;
    if |d| <= 2 * 65537 {
      WrappedExact(d);
    }
    var ret := AddWords(d);
    ret := FoldCarries(ret);
    FoldAdd(Wrapped(d), Not(prev));
    ret := ret + Not(prev);
    ret := FoldCarries(ret);
    r := Not(ret);
  }

  // ---------------------------------------------------------------- no overflow

  lemma {:induction false} SumBound(d: seq<Byte>)
    ensures Sum(d) <= 0xFFFF * ((|d| + 1) / 2)
  {
    if |d| >= 2 {
      SumBound(d[2..]);
    }
  }

  function AllOnes(words: nat): (d: seq<Byte>)
    ensures |d| == 2 * words
  {
    if words == 0 then [] else [0xFF, 0xFF] + AllOnes(words - 1)
  }

  lemma {:induction false} SumAllOnes(words: nat)
    ensures Sum(AllOnes(words)) == 0xFFFF * words
  {
    if words > 0 {
      SumAllOnes(words - 1);
      assert AllOnes(words)[2..] == AllOnes(words - 1);
    }
  }

  /** Up to 65537 words never overflow 32 bits; with one more, some do. */
  lemma {:induction false} NoOverflow(words: nat)
    ensures (forall d: seq<Byte> | |d| == 2 * words :: Sum(d) < 0x1_0000_0000) <==> words <= 65537
  {
    if words <= 65537 {
      forall d: seq<Byte> | |d| == 2 * words
        ensures Sum(d) < 0x1_0000_0000
      {
        SumBound(d);
      }
    } else {
      SumAllOnes(words);
      assert |AllOnes(words)| == 2 * words;
    }
  }

  /** So for them the code computes the Internet checksum. */
  lemma {:induction false} WrappedExact(d: seq<Byte>)
    requires |d| <= 2 * 65537
    ensures Wrapped(d) == Sum(d)
  {
    SumBound(d);
  }

  // ---------------------------------------------------------------- chaining

  lemma {:induction false} SumConcat(a: seq<Byte>, b: seq<Byte>)
    requires |a| % 2 == 0
    ensures Sum(a + b) == Sum(a) + Sum(b)
  {
    if a == [] {
      assert a + b == b;
    } else {
      SumConcat(a[2..], b);
      assert (a + b)[2..] == a[2..] + b;
    }
  }

  /** The sum of the bytes at even positions. */
  function Highs(d: seq<Byte>): nat
  {
    if |d| == 0 then 0 else d[0] + Lows(d[1..])
  }

  /** The sum of the bytes at odd positions. */
  function Lows(d: seq<Byte>): nat
  {
    if |d| == 0 then 0 else Highs(d[1..])
  }

  lemma {:induction false} SumHalves(d: seq<Byte>)
    ensures Sum(d) == 256 * Highs(d) + Lows(d)
  {
    if |d| >= 2 {
      assert d[1..][1..] == d[2..];
      SumHalves(d[2..]);
    } else if |d| == 1 {
      assert d[1..] == [];
    }
  }

  /** Behind an odd number of bytes, high and low halves change places. */
  lemma {:induction false} SumSwapped(a: seq<Byte>, b: seq<Byte>)
    requires |a| % 2 == 1
    ensures Sum(a + b) == Sum(a) + Highs(b) + 256 * Lows(b)
  {
    if |a| > 1 {
      SumSwapped(a[2..], b);
      assert (a + b)[2..] == a[2..] + b;
    } else if b == [] {
      assert a + b == a;
    } else {
      assert (a + b)[2..] == b[1..];
      SumHalves(b[1..]);
    }
  }

  /** Two sums fold to the same value just if they are congruent and agree on being nothing. */
  lemma {:induction false} FoldEqual(x: nat, y: nat)
    ensures Fold(x) == Fold(y) <==> (x == 0 <==> y == 0) && (x - y) % 0xFFFF == 0
  {
    if x > 0 && y > 0 {
      Congruent(x - 1, y - 1);
    }
  }

  lemma {:induction false} Congruent(a: int, b: int)
    ensures a % 0xFFFF == b % 0xFFFF <==> (a - b) % 0xFFFF == 0
  {
    assert a == 0xFFFF * (a / 0xFFFF) + a % 0xFFFF && b == 0xFFFF * (b / 0xFFFF) + b % 0xFFFF;
  }

  lemma {:induction false} Multiple(x: int)
    ensures (255 * x) % 0xFFFF == 0 <==> x % 257 == 0
  {
    assert 255 * 257 == 0xFFFF;
    assert x == 257 * (x / 257) + x % 257;
    assert 255 * x == 0xFFFF * (x / 257) + 255 * (x % 257);
  }

  /** Continuing a checksum over a second piece is the same as one pass over both just if the first piece has an
      even length, or the bytes of the second at even positions and at odd positions sum to the same modulo 257. */
  lemma {:induction false} Chain(prev: nat, a: seq<Byte>, b: seq<Byte>)
    requires prev <= 0xFFFF
    ensures Internet(Internet(prev, a), b) == Internet(prev, a + b) <==>
            |a| % 2 == 0 || (Highs(b) - Lows(b)) % 257 == 0
  {
    hide Fold, Sum;
    FoldAdd(Sum(a) + Not(prev), Sum(b));
    if |a| % 2 == 0 {
      SumConcat(a, b);
    } else {
      SumHalves(b);
      SumSwapped(a, b);
      var x, y := Sum(a) + Sum(b) + Not(prev), Sum(a + b) + Not(prev);
      assert x - y == 255 * (Highs(b) - Lows(b));
      FoldEqual(x, y);
      Multiple(Highs(b) - Lows(b));
    }
  }

  /** So a piece can come before every other just if its length is even. */
  lemma {:induction false} ChainsAlways(a: seq<Byte>)
    ensures |a| % 2 == 0 <==> forall prev: nat, b: seq<Byte> | prev <= 0xFFFF ::
                                Internet(Internet(prev, a), b) == Internet(prev, a + b)
  {
    hide Internet;
    forall prev: nat, b: seq<Byte> | prev <= 0xFFFF
      ensures |a| % 2 == 0 ==> Internet(Internet(prev, a), b) == Internet(prev, a + b)
    {
      Chain(prev, a, b);
    }
    Chain(START, a, [1]);
    assert [1 as Byte][1..] == [];
  }

  /** An odd piece that does not chain: the padding ends up in the middle. */
  lemma {:induction false} ChainOddFails()
    ensures Internet(Internet(START, [1]), [1]) != Internet(START, [1] + [1])
  {
    assert Sum([1]) == 256;
    assert Sum([1] + [1]) == 257;
  }

  // ---------------------------------------------------------------- storing and verifying

  function Big16(x: nat): (s: seq<Byte>)
    ensures |s| == 2
  {
    [x / 256 % 256, x % 256]
  }

  /** A message with a checksum field at an even position. */
  function Stamped(head: seq<Byte>, checksum: nat, tail: seq<Byte>): seq<Byte>
  {
    head + Big16(checksum) + tail
  }

  lemma {:induction false} SumStamped(head: seq<Byte>, checksum: nat, tail: seq<Byte>)
    requires |head| % 2 == 0 && checksum <= 0xFFFF
    ensures Sum(Stamped(head, checksum, tail)) == Sum(Stamped(head, 0, tail)) + checksum
  {
    SumConcat(head + Big16(checksum), tail);
    SumConcat(head, Big16(checksum));
    SumConcat(head + Big16(0), tail);
    SumConcat(head, Big16(0));
    SumBig16(checksum);
    SumBig16(0);
  }

  lemma {:induction false} SumBig16(x: nat)
    requires x <= 0xFFFF
    ensures Sum(Big16(x)) == x
  {
    assert Big16(x)[2..] == [];
  }

  /** A stored checksum verifies to 0 just if it is the one computed with the field empty, or the other zero
      of one's-complement arithmetic in place of 0. */
  lemma {:induction false} Verifies(head: seq<Byte>, checksum: nat, tail: seq<Byte>)
    requires |head| % 2 == 0 && checksum <= 0xFFFF
    ensures var c := Internet(START, Stamped(head, 0, tail));
            Internet(START, Stamped(head, checksum, tail)) == 0 <==> checksum == c || (c == 0 && checksum == 0xFFFF)
  {
    SumStamped(head, checksum, tail);
    var s := Sum(Stamped(head, 0, tail));
    FoldFull(s + checksum);
    if s > 0 {
      var q := (s - 1) / 0xFFFF;
      assert s == Fold(s) + 0xFFFF * q;
      ModAdd(Fold(s) + checksum, q);
    }
  }
}
