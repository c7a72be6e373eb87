/** The encoder as it works on memory: blocks that lie `step` bytes apart are scanned and packets are written
    to a destination, or only counted. */
module RunLengthEncoder {
  import opened Bytes
  import opened RunLength

  datatype Source = NoSource | Source(bytes: seq<Byte>)

  /** The source holds `n` blocks. */
  ghost predicate Holds(src: seq<Byte>, n: nat, size: nat, step: nat)
  {
    forall k | 0 <= k < n :: k * step + size <= |src|
  }

  function BlockAt(src: seq<Byte>, k: nat, size: nat, step: nat): Block
    requires k * step + size <= |src|
  {
    src[k * step..k * step + size]
  }

  ghost function Blocks(src: seq<Byte>, n: nat, size: nat, step: nat): (b: seq<Block>)
    requires Holds(src, n, size, step)
    ensures |b| == n && Sized(b, size)
    ensures forall k | 0 <= k < n :: b[k] == BlockAt(src, k, size, step)
  {
    if n == 0 then [] else Blocks(src, n - 1, size, step) + [BlockAt(src, n - 1, size, step)]
  }

  /** The bytes of block `k` in memory. */
  method ReadBlock(src: seq<Byte>, n: nat, size: nat, step: nat, k: nat) returns (block: Block)
    requires Holds(src, n, size, step) && k < n
    ensures block == Blocks(src, n, size, step)[k]
  {
    block := BlockAt(src, k, size, step);
  }

  /** Arguments that are not refused. */
  predicate Accepted(n: nat, size: int, step: int, min: int)
  {
    0 < size <= n && step > 0 && min >= 1
  }

  /** The length of the run at block `i`. */
  method ScanRun(src: seq<Byte>, n: nat, size: nat, step: nat, i: nat) returns (run: nat)
    requires Holds(src, n, size, step) && i < n
    ensures run == Run(Blocks(src, n, size, step), i, 1)
  {
    hide Holds, Blocks;
    ghost var b := Blocks(src, n, size, step);
    run := 1;
    var first := ReadBlock(src, n, size, step, i);
    while run < MAX_COUNT && i + run < n
      invariant 1 <= run <= MAX_COUNT && i + run <= n && forall k | i <= k < i + run :: b[k] == b[i]
      invariant Run(b, i, run) == Run(b, i, 1)
      decreases MAX_COUNT - run
    {
      var other := ReadBlock(src, n, size, step, i + run);
      if first != other {
        break;
      }
      run := run + 1;
    }
  }

  /** The number of blocks to take verbatim from block `i` on. */
  method ScanVerbatim(src: seq<Byte>, n: nat, size: nat, step: nat, min: nat, i: nat) returns (run: nat)
    requires Holds(src, n, size, step) && i < n
    ensures run == VerbatimRun(Blocks(src, n, size, step), i, 1, 0, min)
  {
    hide Holds, Blocks, VerbatimRun;
    ghost var b := Blocks(src, n, size, step);
    var same := 0;
    run := 1;
    var first := ReadBlock(src, n, size, step, i);
    while run < MAX_COUNT && i + run < n
      invariant 1 <= run <= MAX_COUNT && i + run <= n && same < run && same <= min
      invariant forall k | i + run - same <= k < i + run :: b[k] == b[i]
      invariant VerbatimRun(b, i, run, same, min) == VerbatimRun(b, i, 1, 0, min)
      decreases MAX_COUNT - run
    {
      VerbatimStep(b, i, run, same, min);
      var other := ReadBlock(src, n, size, step, i + run);
      if first != other {
        same := 0;
      } else {
        same := same + 1;
        if same > min {
          run := run - (same - 1);
          return;
        }
      }
      run := run + 1;
    }
    VerbatimStep(b, i, run, same, min);
  }

  lemma {:induction false} VerbatimStep(b: seq<Block>, i: nat, r: nat, same: nat, min: nat)
    requires 1 <= r <= MAX_COUNT && i + r <= |b| && same < r && same <= min
    requires forall k | i + r - same <= k < i + r :: b[k] == b[i]
    ensures var v := VerbatimRun(b, i, r, same, min);
            if r == MAX_COUNT || i + r == |b| then v == r
            else if b[i + r] != b[i] then v == VerbatimRun(b, i, r + 1, 0, min)
            else if same + 1 > min then v == r - same
            else v == VerbatimRun(b, i, r + 1, same + 1, min)
  {
  }

  /** Store bytes at the end of what has been written so far. */
  method Emit(dest: array<Byte>, at: nat, written: nat, s: seq<Byte>, ghost before: seq<Byte>)
    requires at + written + |s| <= dest.Length && dest[at..at + written] == before
    modifies dest
    ensures dest[at..at + written + |s|] == before + s
    ensures dest[..at] == old(dest[..at])
  {
    ghost var d := dest[..];
    PutBytes(dest, at + written, s);
    PutSlice(d, at + written, s, at, at + written + |s|);
    PutSlice(d, at + written, s, 0, at);
    assert dest[at..at + written + |s|] == dest[..][at..at + written + |s|] && dest[..at] == dest[..][..at];
    assert d[at..at + written] == before;
  }

  /** Store blocks one by one. */
  method EmitBlocks(dest: array<Byte>, at: nat, written: nat, src: seq<Byte>, n: nat, size: nat, step: nat, i: nat,
                    run: nat, ghost before: seq<Byte>)
    returns (now: nat)
    requires Holds(src, n, size, step) && i + run <= n
    requires at + written + |Flatten(Blocks(src, n, size, step)[i..i + run])| <= dest.Length
             && dest[at..at + written] == before
    modifies dest
    ensures var s := Flatten(Blocks(src, n, size, step)[i..i + run]);
            now == written + |s| && dest[at..at + now] == before + s && dest[..at] == old(dest[..at])
  {
    hide Holds, Blocks, Flatten;
    ghost var b := Blocks(src, n, size, step);
    now := written;
    NoBlocks(b, i);
    assert before + [] == before;
    for k := 0 to run
      invariant now == written + |Flatten(b[i..i + k])| && at + now <= dest.Length
      invariant dest[at..at + now] == before + Flatten(b[i..i + k]) && dest[..at] == old(dest[..at])
    {
      FlattenUpTo(b[i..i + run], k);
      assert b[i..i + run][..k] == b[i..i + k] && b[i..i + run][..k + 1] == b[i..i + k + 1];
      var block := ReadBlock(src, n, size, step, i + k);
      Emit(dest, at, now, block, before + Flatten(b[i..i + k]));
      assert before + Flatten(b[i..i + k]) + block == before + (Flatten(b[i..i + k]) + block);
      now := now + size;
    }
  }

  lemma {:induction false} NoBlocks(b: seq<Block>, i: nat)
    requires i <= |b|
    ensures Flatten(b[i..i]) == []
  {
  }

  lemma {:induction false} FlattenUpTo(b: seq<Block>, k: nat)
    requires k < |b|
    ensures Flatten(b[..k + 1]) == Flatten(b[..k]) + b[k] && |Flatten(b[..k + 1])| <= |Flatten(b)|
  {
    assert b[..k] + [b[k]] == b[..k + 1];
    FlattenAppend(b[..k], b[k]);
    FlattenConcat(b[..k + 1], b[k + 1..]);
    assert b[..k + 1] + b[k + 1..] == b;
  }

  lemma {:induction false} FlattenConcat(a: seq<Block>, b: seq<Block>)
    ensures Flatten(a + b) == Flatten(a) + Flatten(b)
  {
    if a == [] {
      assert a + b == b;
    } else {
      FlattenConcat(a[1..], b);
      assert (a + b)[1..] == a[1..] + b;
    }
  }

  lemma {:induction false} FlattenAppend(b: seq<Block>, x: Block)
    ensures Flatten(b + [x]) == Flatten(b) + x
  {
    FlattenConcat(b, [x]);
    assert Flatten([x]) == x + Flatten([]);
  }

  lemma {:induction false} PacketCases(b: seq<Block>, i: nat, min: nat, size: nat)
    requires i < |b| && Sized(b, size)
    ensures var p, run, v := PacketAt(b, i, min), Run(b, i, 1), VerbatimRun(b, i, 1, 0, min);
            && (run <= min ==> Span(p) == v && PacketBytes(p) == [v + 0x80] + Flatten(b[i..i + v]))
            && (run > min ==> Span(p) == run && PacketBytes(p) == [run] + b[i])
            && |Flatten(b[i..i + v])| == v * size
  {
    hide Run, VerbatimRun, Flatten;
    FlattenSize(b[i..i + VerbatimRun(b, i, 1, 0, min)], size);
  }

  /** Write or count the packet that starts at block `i`. */
  method EncodePacket(dest: array?<Byte>, at: nat, written: nat, src: seq<Byte>, n: nat, size: nat, step: nat,
                      min: nat, i: nat, ghost before: seq<Byte>)
    returns (now: nat, run: nat)
    requires Holds(src, n, size, step) && i < n
    requires dest != null ==> at + written + |PacketBytes(PacketAt(Blocks(src, n, size, step), i, min))| <= dest.Length
    requires dest != null ==> dest[at..at + written] == before
    modifies dest
    ensures var p := PacketAt(Blocks(src, n, size, step), i, min);
            && run == Span(p) && now == written + |PacketBytes(p)|
            && (dest != null ==> dest[at..at + now] == before + PacketBytes(p) && dest[..at] == old(dest[..at]))
  {
    hide Run, VerbatimRun, Flatten, Holds, Blocks, PacketAt, PacketBytes, Span;
    ghost var b := Blocks(src, n, size, step);
    PacketCases(b, i, min, size);
    run := ScanRun(src, n, size, step, i);
    if run <= min {
      run := ScanVerbatim(src, n, size, step, min, i);
      if dest != null {
        Emit(dest, at, written, [run + 0x80], before);
        now := EmitBlocks(dest, at, written + 1, src, n, size, step, i, run, before + [run + 0x80]);
        assert before + [run + 0x80] + Flatten(b[i..i + run]) == before + ([run + 0x80] + Flatten(b[i..i + run]));
      } else {
        now := written + 1 + run * size;
      }
    } else if dest != null {
      var block := ReadBlock(src, n, size, step, i);
      Emit(dest, at, written, [run], before);
      Emit(dest, at, written + 1, block, before + [run]);
      now := written + 1 + size;
      assert before + [run] + b[i] == before + ([run] + b[i]);
    } else {
      now := written + 1 + size;
    }
  }

  /** Encode all packets. */
  method EncodePackets(dest: array?<Byte>, at: nat, src: seq<Byte>, n: nat, size: nat, step: nat, min: nat)
    returns (ret: nat)
    requires Holds(src, n, size, step)
    requires dest != null ==> at + |Encoded(Blocks(src, n, size, step), 0, min)| <= dest.Length
    modifies dest
    ensures var code := Encoded(Blocks(src, n, size, step), 0, min);
            ret == |code| && (dest != null ==> dest[at..at + ret] == code && dest[..at] == old(dest[..at]))
  {
    hide PacketAt, PacketBytes, Span, Holds, Blocks;
    ghost var b := Blocks(src, n, size, step);
    ghost var code: seq<Byte> := [];
    ret := 0;
    var i := 0;
    assert code + Encoded(b, 0, min) == Encoded(b, 0, min);
    while i < n
      invariant 0 <= i <= n && ret == |code| && code + Encoded(b, i, min) == Encoded(b, 0, min)
      invariant dest != null ==> at + ret <= dest.Length && dest[at..at + ret] == code && dest[..at] == old(dest[..at])
      decreases n - i
    {
      var run;
      ghost var p := PacketAt(b, i, min);
      assert code + Encoded(b, i, min) == (code + PacketBytes(p)) + Encoded(b, i + Span(p), min);
      ret, run := EncodePacket(dest, at, ret, src, n, size, step, min, i, code);
      code := code + PacketBytes(p);
      i := i + run;
    }
    assert code + [] == code;
  }

  /** Encode `n` blocks to `dest` from position `at` on, or count the bytes that this would take if there is
      no destination.  Both give the same length. */
  method Encode17(dest: array?<Byte>, at: nat, source: Source, n: nat, size: int, step: int, min: int)
    returns (ret: int)
    requires source.Source? && Accepted(n, size, step, min) ==>
               Holds(source.bytes, n, size, step)
               && (dest != null ==> at + |Encoded(Blocks(source.bytes, n, size, step), 0, min)| <= dest.Length)
    requires dest != null ==> at <= dest.Length
    modifies dest
    ensures dest != null ==> dest[..at] == old(dest[..at])
    ensures source.NoSource? || !Accepted(n, size, step, min) ==> ret == -1
    ensures source.Source? && Accepted(n, size, step, min) ==>
              var code := Encoded(Blocks(source.bytes, n, size, step), 0, min);
              ret == |code| && (dest != null ==> dest[at..at + ret] == code)
  {
    hide Encoded, Holds, Blocks;
    if n < size || size < 0 || source.NoSource? || size <= 0 || step <= 0 || min < 1 {
      return -1;
    }
    ret := EncodePackets(dest, at, source.bytes, n, size, step, min);
  }

  // ---------------------------------------------------------------- images

  ghost function Pixels(src: seq<Byte>, n: nat): seq<Block>
    requires Holds(src, n, 4, 4)
  {
    Blocks(src, n, 4, 4)
  }

  /** One stream of whole pixels. */
  method CompressRLE1x32(dest: array?<Byte>, src: seq<Byte>, n: nat) returns (ret: int)
    requires Holds(src, n, 4, 4)
    requires dest != null ==> |Encoded(Pixels(src, n), 0, 2)| <= dest.Length
    modifies dest
    ensures n < 4 ==> ret == -1
    ensures n >= 4 ==>
              && ret == |Encoded(Pixels(src, n), 0, 2)|
              && (dest != null ==> dest[..ret] == Encoded(Pixels(src, n), 0, 2))
  {
    hide Encoded, Holds, Blocks;
    ret := Encode17(dest, 0, Source(src), n, 4, 4, 2);
  }

  lemma {:induction false} ChannelHolds(src: seq<Byte>, n: nat, c: nat)
    requires Holds(src, n, 4, 4) && c < 4 && n > 0
    ensures 4 <= |src| && Holds(src[c..], n, 1, 4)
  {
    assert 0 * 4 + 4 <= |src|;
    forall k | 0 <= k < n
      ensures k * 4 + 1 <= |src[c..]|
    {
      assert k * 4 + 4 <= |src|;
    }
  }

  /** One colour channel. */
  ghost function Channel(src: seq<Byte>, n: nat, c: nat): seq<Block>
    requires Holds(src, n, 4, 4) && c < 4 && n > 0
  {
    ChannelHolds(src, n, c);
    Blocks(src[c..], n, 1, 4)
  }

  ghost function ChannelCode(src: seq<Byte>, n: nat, c: nat): seq<Byte>
    requires Holds(src, n, 4, 4) && c < 4 && n > 0
  {
    Encoded(Channel(src, n, c), 0, 3)
  }

  /** Four streams, one behind the other. */
  ghost function ChannelCodes(src: seq<Byte>, n: nat): seq<Byte>
    requires Holds(src, n, 4, 4) && n > 0
  {
    ChannelCode(src, n, 0) + ChannelCode(src, n, 1) + ChannelCode(src, n, 2) + ChannelCode(src, n, 3)
  }

  /** Encode one channel behind what is there already. */
  method CompressChannel(dest: array?<Byte>, at: int, src: seq<Byte>, n: nat, c: nat) returns (ret: int)
    requires Holds(src, n, 4, 4) && c < 4
    requires n > 0 ==> 0 <= at && (dest != null ==> at + |ChannelCode(src, n, c)| <= dest.Length)
    modifies dest
    ensures n == 0 ==> ret == -1
    ensures n > 0 ==> ret == |ChannelCode(src, n, c)|
    ensures n > 0 && dest != null ==> dest[..at + ret] == old(dest[..at]) + ChannelCode(src, n, c)
  {
    hide Encoded, Holds, Blocks;
    if n == 0 {
      ret := Encode17(dest, 0, Source(src), n, 1, 4, 3);
    } else {
      ChannelHolds(src, n, c);
      ret := Encode17(dest, at, Source(src[c..]), n, 1, 4, 3);
      if dest != null {
        assert dest[..at + ret] == dest[..at] + dest[at..at + ret];
      }
    }
  }

  method CompressRLE4x8(dest: array?<Byte>, src: seq<Byte>, n: nat) returns (ret: int)
    requires Holds(src, n, 4, 4)
    requires n > 0 && dest != null ==> |ChannelCodes(src, n)| <= dest.Length
    modifies dest
    ensures n == 0 ==> ret == -4
    ensures n > 0 ==> ret == |ChannelCodes(src, n)| && (dest != null ==> dest[..ret] == ChannelCodes(src, n))
  {
    hide ChannelCode, Holds;
    var r := CompressChannel(dest, 0, src, n, 0);
    ret := r;
    r := CompressChannel(dest, ret, src, n, 1);
    ret := ret + r;
    r := CompressChannel(dest, ret, src, n, 2);
    ret := ret + r;
    r := CompressChannel(dest, ret, src, n, 3);
    ret := ret + r;
  }

  // ---------------------------------------------------------------- decoding images

  /** Put the bytes of four channels together again. */
  function Interleave(a: seq<Block>, b: seq<Block>, c: seq<Block>, d: seq<Block>): (r: seq<Block>)
    requires |a| == |b| == |c| == |d|
    ensures |r| == |a| && forall k | 0 <= k < |a| :: r[k] == a[k] + b[k] + c[k] + d[k]
  {
    if a == [] then [] else [a[0] + b[0] + c[0] + d[0]] + Interleave(a[1..], b[1..], c[1..], d[1..])
  }

  function Decode4x8(s: seq<Byte>, n: nat): Decoding
  {
    match RunLength.Decode(s, 1, n)
    case Bad => Bad
    case Good(c0, s1) =>
      match RunLength.Decode(s1, 1, n)
      case Bad => Bad
      case Good(c1, s2) =>
        match RunLength.Decode(s2, 1, n)
        case Bad => Bad
        case Good(c2, s3) =>
          match RunLength.Decode(s3, 1, n)
          case Bad => Bad
          case Good(c3, rest) =>
            if |c0| == |c1| == |c2| == |c3| then Good(Interleave(c0, c1, c2, c3), rest) else Bad
  }

  /** The single stream decodes to the pixels. */
  lemma {:induction false} RoundTrip1x32(src: seq<Byte>, n: nat, rest: seq<Byte>)
    requires Holds(src, n, 4, 4)
    ensures RunLength.Decode(Encoded(Pixels(src, n), 0, 2) + rest, 4, n) == Good(Pixels(src, n), rest)
    ensures |Encoded(Pixels(src, n), 0, 2)| <= 4 * n + Overhead(n)
  {
    RunLength.RoundTrip(Pixels(src, n), 2, 4, rest);
    Bound(Pixels(src, n), 0, 2, 4);
  }

  lemma {:induction false} ChannelsArePixels(src: seq<Byte>, n: nat)
    requires Holds(src, n, 4, 4) && n > 0
    ensures Interleave(Channel(src, n, 0), Channel(src, n, 1), Channel(src, n, 2), Channel(src, n, 3)) == Pixels(src, n)
  {
    var r := Interleave(Channel(src, n, 0), Channel(src, n, 1), Channel(src, n, 2), Channel(src, n, 3));
    forall k | 0 <= k < n
      ensures r[k] == Pixels(src, n)[k]
    {
      assert k * 4 + 4 <= |src|;
      ChannelByte(src, n, 0, k);
      ChannelByte(src, n, 1, k);
      ChannelByte(src, n, 2, k);
      ChannelByte(src, n, 3, k);
    }
  }

  lemma {:induction false} ChannelByte(src: seq<Byte>, n: nat, c: nat, k: nat)
    requires Holds(src, n, 4, 4) && c < 4 && k < n
    ensures k * 4 + 4 <= |src| && Channel(src, n, c)[k] == [src[k * 4 + c]]
  {
    ChannelHolds(src, n, c);
    assert k * 4 + 4 <= |src|;
    assert src[c..][k * 4..k * 4 + 1] == [src[k * 4 + c]];
  }

  /** The four streams, one behind the other, decode to the pixels. */
  lemma {:induction false} RoundTrip4x8(src: seq<Byte>, n: nat, rest: seq<Byte>)
    requires Holds(src, n, 4, 4) && n > 0
    ensures Decode4x8(ChannelCodes(src, n) + rest, n) == Good(Pixels(src, n), rest)
    ensures |ChannelCodes(src, n)| <= 4 * n + 4 * Overhead(n)
  {
    hide RunLength.Decode, Encoded, Holds, Blocks, Interleave, Overhead;
    ChannelsArePixels(src, n);
    var s3 := ChannelCode(src, n, 3) + rest;
    var s2 := ChannelCode(src, n, 2) + s3;
    var s1 := ChannelCode(src, n, 1) + s2;
    assert ChannelCodes(src, n) + rest == ChannelCode(src, n, 0) + s1;
    ChannelRoundTrip(src, n, 0, s1);
    ChannelRoundTrip(src, n, 1, s2);
    ChannelRoundTrip(src, n, 2, s3);
    ChannelRoundTrip(src, n, 3, rest);
  }

  lemma {:induction false} ChannelRoundTrip(src: seq<Byte>, n: nat, c: nat, rest: seq<Byte>)
    requires Holds(src, n, 4, 4) && c < 4 && n > 0
    ensures |Channel(src, n, c)| == n
            && RunLength.Decode(ChannelCode(src, n, c) + rest, 1, n) == Good(Channel(src, n, c), rest)
    ensures |ChannelCode(src, n, c)| <= n + Overhead(n)
  {
    hide RunLength.Decode, Encoded;
    ChannelHolds(src, n, c);
    RunLength.RoundTrip(Channel(src, n, c), 3, 1, rest);
    Bound(Channel(src, n, c), 0, 3, 1);
  }
}
