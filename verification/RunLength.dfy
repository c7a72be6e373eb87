/** The run-length code of the SIF image format, on sequences of equal-sized blocks.

    A packet starts with a byte that holds a 7-bit count and, in its top bit, whether that many blocks follow
    verbatim or one block follows that is to be repeated. */
module RunLength {
  import opened Bytes

  type Block = seq<Byte>

  const MAX_COUNT := 127

  datatype Packet = Repeat(count: nat, block: Block) | Verbatim(blocks: seq<Block>)

  // ---------------------------------------------------------------- encoding

  /** How many blocks from `i` on, but no more than a packet can hold, equal the first; `r` are known to. */
  function Run(b: seq<Block>, i: nat, r: nat): (n: nat)
    requires 1 <= r <= MAX_COUNT && i + r <= |b| && forall k | i <= k < i + r :: b[k] == b[i]
    ensures r <= n <= MAX_COUNT && i + n <= |b|
    ensures forall k | i <= k < i + n :: b[k] == b[i]
    ensures n == MAX_COUNT || i + n == |b| || b[i + n] != b[i]
    decreases MAX_COUNT - r
  {
    if r < MAX_COUNT && i + r < |b| && b[i + r] == b[i] then Run(b, i, r + 1) else r
  }

  /** How many blocks from `i` on to take verbatim: until more than `min` blocks in a row equal the first
      one.  `r` blocks have been looked at, and the last `same` of them equal the first. */
  function VerbatimRun(b: seq<Block>, i: nat, r: nat, same: nat, min: nat): (n: nat)
    requires 1 <= r <= MAX_COUNT && i + r <= |b| && same < r && same <= min
    requires forall k | i + r - same <= k < i + r :: b[k] == b[i]
    ensures r - same <= n <= MAX_COUNT && i + n <= |b|
    ensures n == MAX_COUNT || i + n == |b|
            || (i + n + min + 1 <= |b| && min + 1 <= MAX_COUNT
                && forall k | i + n <= k < i + n + min + 1 :: b[k] == b[i])
    decreases MAX_COUNT - r
  {
    if r == MAX_COUNT || i + r == |b| then r
    else if b[i + r] != b[i] then VerbatimRun(b, i, r + 1, 0, min)
    else if same + 1 > min then r - same
    else VerbatimRun(b, i, r + 1, same + 1, min)
  }

  /** The packet that starts at block `i`. */
  function PacketAt(b: seq<Block>, i: nat, min: nat): (p: Packet)
    requires i < |b|
    ensures 1 <= Span(p) <= MAX_COUNT && i + Span(p) <= |b|
  {
    var run := Run(b, i, 1);
    if run <= min then Verbatim(b[i..i + VerbatimRun(b, i, 1, 0, min)]) else Repeat(run, b[i])
  }

  function Span(p: Packet): nat
  {
    match p
    case Repeat(count, _) => count
    case Verbatim(blocks) => |blocks|
  }

  function Flatten(b: seq<Block>): seq<Byte>
  {
    if b == [] then [] else b[0] + Flatten(b[1..])
  }

  function PacketBytes(p: Packet): seq<Byte>
    requires Span(p) <= MAX_COUNT
  {
    match p
    case Repeat(count, block) => [count] + block
    case Verbatim(blocks) => [|blocks| + 0x80] + Flatten(blocks)
  }

  /** The bytes from block `i` on. */
  function Encoded(b: seq<Block>, i: nat, min: nat): seq<Byte>
    requires i <= |b|
    decreases |b| - i
  {
    if i == |b| then [] else
      PacketBytes(PacketAt(b, i, min)) + Encoded(b, i + Span(PacketAt(b, i, min)), min)
  }

  // ---------------------------------------------------------------- decoding

  datatype Decoding = Bad | Good(blocks: seq<Block>, rest: seq<Byte>)

  function Cut(s: seq<Byte>, size: nat, n: nat): seq<Block>
    requires size * n <= |s|
  {
    if n == 0 then []
    else
      assert size * n == size + size * (n - 1);
      [s[..size]] + Cut(s[size..], size, n - 1)
  }

  function Copies(block: Block, n: nat): (b: seq<Block>)
    ensures |b| == n && forall k | 0 <= k < n :: b[k] == block
  {
    if n == 0 then [] else [block] + Copies(block, n - 1)
  }

  /** Decode packets until `n` blocks have come out. */
  function Decode(s: seq<Byte>, size: nat, n: nat): Decoding
    decreases n
  {
    if n == 0 then Good([], s)
    else if s == [] then Bad
    else
      var count := s[0] % 0x80;
      if count == 0 || count > n then Bad
      else if s[0] >= 0x80 then
        if 1 + size * count > |s| then Bad
        else
          match Decode(s[1 + size * count..], size, n - count)
          case Bad => Bad
          case Good(b, rest) => Good(Cut(s[1..], size, count) + b, rest)
      else
        if 1 + size > |s| then Bad
        else
          match Decode(s[1 + size..], size, n - count)
          case Bad => Bad
          case Good(b, rest) => Good(Copies(s[1..1 + size], count) + b, rest)
  }

  // ---------------------------------------------------------------- round trip

  ghost predicate Sized(b: seq<Block>, size: nat)
  {
    forall k | 0 <= k < |b| :: |b[k]| == size
  }

  lemma {:induction false} FlattenSize(b: seq<Block>, size: nat)
    requires Sized(b, size)
    ensures |Flatten(b)| == size * |b|
  {
    if b == [] {
    } else {
      FlattenSize(b[1..], size);
      assert size * |b| == size + size * (|b| - 1);
    }
  }

  lemma {:induction false} CutFlatten(b: seq<Block>, rest: seq<Byte>, size: nat)
    requires Sized(b, size)
    ensures size * |b| <= |Flatten(b) + rest| && Cut(Flatten(b) + rest, size, |b|) == b
    ensures (Flatten(b) + rest)[size * |b|..] == rest
  {
    FlattenSize(b, size);
    if b == [] {
    } else {
      CutFlatten(b[1..], rest, size);
      var s := Flatten(b) + rest;
      assert s[..size] == b[0] && s[size..] == Flatten(b[1..]) + rest;
      assert size * |b| == size + size * (|b| - 1);
    }
  }

  lemma {:induction false} DecodeRepeat(count: nat, block: Block, tail: seq<Byte>, size: nat, n: nat, b: seq<Block>,
                                        rest: seq<Byte>)
    requires 1 <= count <= MAX_COUNT && count <= n && |block| == size && Decode(tail, size, n - count) == Good(b, rest)
    ensures Decode([count] + block + tail, size, n) == Good(Copies(block, count) + b, rest)
  {
    hide Cut, Copies;
    var s: seq<Byte> := [count] + block + tail;
    assert s[0] % 0x80 == count;
    assert s[1..1 + size] == block && s[1 + size..] == tail;
  }

  lemma {:induction false} DecodeVerbatim(blocks: seq<Block>, tail: seq<Byte>, size: nat, n: nat, b: seq<Block>,
                                          rest: seq<Byte>)
    requires 1 <= |blocks| <= MAX_COUNT && |blocks| <= n && Sized(blocks, size)
             && Decode(tail, size, n - |blocks|) == Good(b, rest)
    ensures Decode([|blocks| + 0x80] + Flatten(blocks) + tail, size, n) == Good(blocks + b, rest)
  {
    hide Cut, Flatten, Decode;
    var s: seq<Byte> := [|blocks| + 0x80] + Flatten(blocks) + tail;
    CutFlatten(blocks, tail, size);
    assert s[1..] == Flatten(blocks) + tail;
    assert s[1 + size * |blocks|..] == s[1..][size * |blocks|..];
    Counted(|blocks|);
    DecodeVerbatimStep(s, size, n, |blocks|);
  }

  lemma {:induction false} Counted(count: nat)
    requires count <= MAX_COUNT
    ensures (count + 0x80) % 0x80 == count
  {
  }

  lemma {:induction false} DecodeVerbatimStep(s: seq<Byte>, size: nat, n: nat, count: nat)
    requires s != [] && s[0] >= 0x80 && s[0] % 0x80 == count && 0 < count <= n && 1 + size * count <= |s|
    ensures Decode(s, size, n) == match Decode(s[1 + size * count..], size, n - count)
                                  case Bad => Bad
                                  case Good(b, rest) => Good(Cut(s[1..], size, count) + b, rest)
  {
    hide Cut, Copies;
  }

  lemma {:induction false} DecodePacket(b: seq<Block>, i: nat, min: nat, size: nat, tail: seq<Byte>, rest: seq<Byte>)
    requires Sized(b, size) && i < |b|
    requires var j := i + Span(PacketAt(b, i, min)); Decode(tail, size, |b| - j) == Good(b[j..], rest)
    ensures Decode(PacketBytes(PacketAt(b, i, min)) + tail, size, |b| - i) == Good(b[i..], rest)
  {
    hide Copies, Flatten, PacketAt, Decode;
    var p := PacketAt(b, i, min);
    var j := i + Span(p);
    PacketBlocks(b, i, min);
    match p
    case Repeat(count, block) =>
      DecodeRepeat(count, block, tail, size, |b| - i, b[j..], rest);
      assert b[i..j] + b[j..] == b[i..];
    case Verbatim(blocks) =>
      DecodeVerbatim(blocks, tail, size, |b| - i, b[j..], rest);
      assert blocks + b[j..] == b[i..];
  }

  /** Decoding what was encoded gives the blocks back and leaves what follows. */
  lemma {:induction false} RoundTripFrom(b: seq<Block>, i: nat, min: nat, size: nat, rest: seq<Byte>)
    requires Sized(b, size) && i <= |b|
    ensures Decode(Encoded(b, i, min) + rest, size, |b| - i) == Good(b[i..], rest)
    decreases |b| - i
  {
    hide PacketAt, PacketBytes, Span, Decode, Sized;
    if i == |b| {
      assert Encoded(b, i, min) + rest == rest && b[i..] == [];
      NothingLeft(rest, size);
    } else {
      var p := PacketAt(b, i, min);
      var tail := Encoded(b, i + Span(p), min) + rest;
      assert Encoded(b, i, min) + rest == PacketBytes(p) + tail;
      RoundTripFrom(b, i + Span(p), min, size, rest);
      DecodePacket(b, i, min, size, tail, rest);
    }
  }

  lemma {:induction false} NothingLeft(rest: seq<Byte>, size: nat)
    ensures Decode(rest, size, 0) == Good([], rest)
  {
  }

  /** A packet stands for the blocks that it spans. */
  lemma {:induction false} PacketBlocks(b: seq<Block>, i: nat, min: nat)
    requires i < |b|
    ensures var p := PacketAt(b, i, min);
            match p
            case Repeat(count, block) => block == b[i] && Copies(block, count) == b[i..i + count]
            case Verbatim(blocks) => blocks == b[i..i + |blocks|]
  {
  }

  /** The decoder inverts the encoder on every sequence of blocks. */
  lemma {:induction false} RoundTrip(b: seq<Block>, min: nat, size: nat, rest: seq<Byte>)
    requires Sized(b, size)
    ensures Decode(Encoded(b, 0, min) + rest, size, |b|) == Good(b, rest)
  {
    RoundTripFrom(b, 0, min, size, rest);
    assert b[0..] == b;
  }

  // ---------------------------------------------------------------- the size of the code

  /** One byte for every 127 blocks or part of them. */
  function Overhead(n: nat): nat
  {
    (n + 126) / 127
  }

  lemma {:induction false} Overheads(n: nat, part: nat)
    requires part <= n
    ensures Overhead(n - part) <= Overhead(n) && (n > 0 ==> Overhead(n) >= 1)
    ensures part == MAX_COUNT ==> Overhead(n) == 1 + Overhead(n - part)
  {
  }

  /** A verbatim packet that is cut short is followed at once by a run. */
  lemma {:induction false} CutShort(b: seq<Block>, i: nat, min: nat)
    requires i < |b|
    ensures var p := PacketAt(b, i, min);
            p.Verbatim? && |p.blocks| < MAX_COUNT && i + |p.blocks| < |b| ==>
              PacketAt(b, i + |p.blocks|, min).Repeat?
  {
    var p := PacketAt(b, i, min);
    if p.Verbatim? && |p.blocks| < MAX_COUNT && i + |p.blocks| < |b| {
      var j := i + |p.blocks|;
      assert |p.blocks| == VerbatimRun(b, i, 1, 0, min);
      assert b[j] == b[i] && Run(b, j, 1) > min;
    }
  }

  lemma {:induction false} PacketSize(b: seq<Block>, i: nat, min: nat, size: nat)
    requires Sized(b, size) && i < |b|
    ensures var p := PacketAt(b, i, min);
            && (p.Repeat? ==> |PacketBytes(p)| == 1 + size && p.count > min)
            && (p.Verbatim? ==> |PacketBytes(p)| == 1 + size * |p.blocks|)
  {
    var p := PacketAt(b, i, min);
    if p.Verbatim? {
      FlattenSize(p.blocks, size);
    }
  }

  lemma {:induction false} Saves(count: nat, min: nat, size: nat)
    requires count > min && min * size >= 2
    ensures size * count >= size + 2
  {
    assert size * count == size + size * (count - 1);
    assert size * (count - 1) >= size * min;
  }

  lemma {:induction false} Split(size: nat, a: nat, b: nat)
    ensures size * (a + b) == size * a + size * b
  {
  }

  /** The code is never larger than the blocks themselves and one byte for every 127 of them: every verbatim
      packet that a repeat cuts short is paid for by the run that follows. */
  lemma {:induction false} Bound(b: seq<Block>, i: nat, min: nat, size: nat)
    requires Sized(b, size) && i <= |b| && min * size >= 2
    ensures |Encoded(b, i, min)| <= size * (|b| - i) + Overhead(|b| - i)
    decreases |b| - i
  {
    hide PacketAt, PacketBytes, Run, VerbatimRun, Sized, Overhead;
    Overheads(|b| - i, 0);
    if i < |b| {
      var p := PacketAt(b, i, min);
      var j := i + Span(p);
      Overheads(|b| - i, Span(p));
      PacketSize(b, i, min, size);
      CutShort(b, i, min);
      Bound(b, j, min, size);
      Split(size, Span(p), |b| - j);
      if p.Repeat? {
        Saves(p.count, min, size);
      } else if |p.blocks| < MAX_COUNT && j < |b| {
        var q := PacketAt(b, j, min);
        PacketSize(b, j, min, size);
        Saves(q.count, min, size);
        Overheads(|b| - j, Span(q));
        Bound(b, j + Span(q), min, size);
        Split(size, Span(q), |b| - j - Span(q));
      }
    }
  }

  /** The code of every sequence of blocks stays within the bound. */
  ghost predicate Bounded(min: nat, size: nat)
  {
    forall b: seq<Block> | Sized(b, size) :: |Encoded(b, 0, min)| <= size * |b| + Overhead(|b|)
  }

  /** It does just if a repeat packet always pays for itself and for a verbatim packet before it. */
  lemma {:induction false} BoundExactly(min: nat, size: nat)
    requires size >= 1
    ensures Bounded(min, size) <==> min * size >= 2
  {
    hide Encoded, Overhead;
    if min * size >= 2 {
      forall b: seq<Block> | Sized(b, size)
        ensures |Encoded(b, 0, min)| <= size * |b| + Overhead(|b|)
      {
        Bound(b, 0, min, size);
      }
    } else if min == 0 {
      RunsOfOne(size);
    } else {
      assert min == 1 && size == 1 by { SmallProduct(min, size); }
      BoundFails();
    }
  }

  lemma {:induction false} SmallProduct(min: nat, size: nat)
    requires min >= 1 && size >= 1 && min * size < 2
    ensures min == 1 && size == 1
  {
    assert min * size >= min && min * size >= size;
  }

  /** If a single block makes a run, two different blocks take two bytes more than themselves. */
  lemma {:induction false} RunsOfOne(size: nat)
    requires size >= 1
    ensures !Bounded(0, size)
  {
    var x, y := seq(size, _ => 0 as Byte), seq(size, _ => 1 as Byte);
    assert x[0] != y[0];
    var b := [x, y];
    assert Sized(b, size);
    assert PacketAt(b, 0, 0) == Repeat(1, x) && PacketAt(b, 1, 0) == Repeat(1, y);
    assert |Encoded(b, 1, 0)| == 1 + size;
    assert |Encoded(b, 0, 0)| == 2 + 2 * size;
  }

  /** With runs of two one-byte blocks, eight bytes take ten. */
  lemma {:induction false} BoundFails()
    ensures var b: seq<Block> := [[1], [2], [1], [1], [3], [4], [3], [3]];
            |Encoded(b, 0, 1)| == 10 && 10 > 1 * |b| + Overhead(|b|)
  {
    hide Run, VerbatimRun, Flatten;
    var b: seq<Block> := [[1], [2], [1], [1], [3], [4], [3], [3]];
    PairThenRun(b, 4);
    PairThenRun(b, 0);
  }

  /** Two different blocks and then two more like the first are coded as a verbatim pair and a run. */
  lemma {:induction false} PairThenRun(b: seq<Block>, i: nat)
    requires i + 4 <= |b| && Sized(b, 1) && b[i + 1] != b[i] && b[i + 2] == b[i] && b[i + 3] == b[i]
    requires i + 4 < |b| ==> b[i + 4] != b[i]
    ensures |Encoded(b, i, 1)| == 5 + |Encoded(b, i + 4, 1)|
  {
    hide PacketAt, PacketBytes, Run, VerbatimRun, Flatten;
    PairVerbatim(b, i);
    PairRun(b, i + 2);
    PacketSize(b, i, 1, 1);
    PacketSize(b, i + 2, 1, 1);
  }

  lemma {:induction false} PairVerbatim(b: seq<Block>, i: nat)
    requires i + 4 <= |b| && b[i + 1] != b[i] && b[i + 2] == b[i] && b[i + 3] == b[i]
    ensures PacketAt(b, i, 1) == Verbatim(b[i..i + 2])
  {
    assert VerbatimRun(b, i, 3, 1, 1) == 2;
    assert VerbatimRun(b, i, 2, 0, 1) == VerbatimRun(b, i, 3, 1, 1);
  }

  lemma {:induction false} PairRun(b: seq<Block>, j: nat)
    requires j + 2 <= |b| && b[j + 1] == b[j] && (j + 2 < |b| ==> b[j + 2] != b[j])
    ensures PacketAt(b, j, 1) == Repeat(2, b[j])
  {
    assert Run(b, j, 1) == Run(b, j, 2);
  }
}
