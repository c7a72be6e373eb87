/** What the image library makes of a file that is cut short: the pixels that are there, and no others. */
module LoaderCuts {
  import opened Bytes
  import opened RunLength
  import opened RunLengthEncoder
  import opened ImageLoader

  /** A verbatim packet whose last bytes are missing gives the blocks that are whole. */
  lemma {:induction false} VerbatimCut(blocks: seq<Block>, size: nat, n: nat, j: nat) returns (k: nat)
    requires size > 0 && Sized(blocks, size) && |blocks| <= n && j < |Flatten(blocks)|
    ensures k < |blocks| && size * k <= j < size * k + size
    ensures var l := LoadVerbatim(Flatten(blocks)[..j], size, n, |blocks|);
            l.Loading? && l.blocks == blocks[..k] && !l.complete
    decreases |blocks|
  {
    hide Load, LoadRepeat, Flatten;
    FlattenFirst(blocks, size, j);
    if j < size {
      k := 0;
    } else {
      var k' := VerbatimCut(blocks[1..], size, n - 1, j - size);
      k := k' + 1;
      assert size * k == size * k' + size;
      assert [blocks[0]] + blocks[1..][..k'] == blocks[..k];
    }
  }

  lemma {:induction false} FlattenFirst(blocks: seq<Block>, size: nat, j: nat)
    requires Sized(blocks, size) && j < |Flatten(blocks)|
    ensures blocks != [] && |blocks[0]| == size && |Flatten(blocks)| == size + |Flatten(blocks[1..])|
    ensures j >= size ==> var s := Flatten(blocks)[..j];
                          s[..size] == blocks[0] && s[size..] == Flatten(blocks[1..])[..j - size]
  {
  }

  /** One packet is cut short. */
  lemma {:induction false} PacketCut(b: seq<Block>, i: nat, min: nat, size: nat, j: nat) returns (k: nat)
    requires size > 0 && Sized(b, size) && i < |b| && j < |PacketBytes(PacketAt(b, i, min))|
    ensures i + k < |b| && j < size * k + size + 1
    ensures var l := Load(PacketBytes(PacketAt(b, i, min))[..j], size, |b| - i);
            l.Loading? && l.blocks == b[i..i + k] && !l.complete
  {
    hide PacketAt, Flatten, Run, VerbatimRun, LoadVerbatim, LoadRepeat;
    var p := PacketAt(b, i, min);
    PacketBlocks(b, i, min);
    PacketSize(b, i, min, size);
    var s := PacketBytes(p)[..j];
    if j == 0 {
      k := 0;
    } else if p.Repeat? {
      k := 0;
      assert s[0] == p.count;
    } else {
      assert s[0] == |p.blocks| + 0x80 && s[1..] == Flatten(p.blocks)[..j - 1];
      k := VerbatimCut(p.blocks, size, |b| - i, j - 1);
      assert p.blocks[..k] == b[i..i + k];
    }
  }

  lemma {:induction false} Scaled(size: nat, span: nat, k: nat)
    ensures (size + 1) * (span + k + 1) == (size + 1) * span + (size + 1) * (k + 1)
    ensures size * k + size + 1 <= (size + 1) * (k + 1)
    ensures span > 0 ==> 1 + size * span <= (size + 1) * span && 1 + size <= (size + 1) * span
  {
    assert (size + 1) * (k + 1) == size * k + size + k + 1;
    assert (size + 1) * span == size * span + span;
    if span > 0 {
      Multiples(size, 1, span);
    }
  }

  /** However the code of some blocks is cut, the blocks that come out are the first ones, all of them exactly if the
      loader says so; and `j` bytes of code give at least `j / (size + 1)` blocks. */
  lemma {:induction false} CodeCut(b: seq<Block>, i: nat, min: nat, size: nat, j: nat) returns (k: nat)
    requires size > 0 && Sized(b, size) && i <= |b| && j <= |Encoded(b, i, min)|
    ensures i + k <= |b| && j < (size + 1) * (k + 1)
    ensures var l := Load(Encoded(b, i, min)[..j], size, |b| - i);
            l.Loading? && l.blocks == b[i..i + k] && (l.complete <==> i + k == |b|)
    decreases |b| - i
  {
    hide PacketAt, PacketBytes, Span, Load, Sized;
    if i == |b| {
      k := 0;
      NothingToLoad(Encoded(b, i, min)[..j], size);
    } else {
      var p := PacketAt(b, i, min);
      var bytes, tail := PacketBytes(p), Encoded(b, i + Span(p), min);
      if j < |bytes| {
        k := PacketCut(b, i, min, size, j);
        assert Encoded(b, i, min)[..j] == bytes[..j];
        Scaled(size, 0, k);
      } else {
        var k' := CodeCut(b, i + Span(p), min, size, j - |bytes|);
        k := Span(p) + k';
        assert Encoded(b, i, min)[..j] == bytes + tail[..j - |bytes|];
        WholePacket(b, i, min, size, tail[..j - |bytes|]);
        Scaled(size, Span(p), k');
        assert b[i..i + Span(p)] + b[i + Span(p)..i + k] == b[i..i + k];
      }
    }
  }

  lemma {:induction false} NothingToLoad(s: seq<Byte>, size: nat)
    requires size > 0
    ensures Load(s, size, 0) == Loading([], s, true)
  {
  }

  /** A packet that is whole gives its blocks, and then comes what follows. */
  lemma {:induction false} WholePacket(b: seq<Block>, i: nat, min: nat, size: nat, rest: seq<Byte>)
    requires size > 0 && Sized(b, size) && i < |b|
    ensures var p := PacketAt(b, i, min);
            && Load(PacketBytes(p) + rest, size, |b| - i)
               == Then(b[i..i + Span(p)], Load(rest, size, |b| - i - Span(p)))
            && |PacketBytes(p)| <= (size + 1) * Span(p)
  {
    hide PacketAt, Flatten, Run, VerbatimRun, Load, Cut, Copies;
    var p := PacketAt(b, i, min);
    PacketBlocks(b, i, min);
    PacketSize(b, i, min, size);
    Scaled(size, Span(p), 0);
    var s := PacketBytes(p) + rest;
    match p
    case Repeat(count, block) =>
      assert s[0] == count && s[1..1 + size] == block && s[1 + size..] == rest;
      LoadPacket(s, size, |b| - i, count);
    case Verbatim(blocks) =>
      CutFlatten(blocks, rest, size);
      assert s[0] == |blocks| + 0x80 && s[1..] == Flatten(blocks) + rest;
      assert s[1 + size * |blocks|..] == s[1..][size * |blocks|..];
      LoadPacket(s, size, |b| - i, |blocks|);
  }

  /** So an image whose single stream is cut after `j` bytes shows the right pixels first and is white behind them. */
  lemma {:induction false} ImageCut(src: seq<Byte>, n: nat, j: nat) returns (k: nat)
    requires Holds(src, n, 4, 4) && j <= |Encoded(Pixels(src, n), 0, 2)|
    ensures k <= n && j < 5 * (k + 1)
    ensures var l := Load(Encoded(Pixels(src, n), 0, 2)[..j], 4, n);
            && l.Loading? && l.blocks == Pixels(src, n)[..k] && (l.complete <==> k == n)
            && Canvas(l.blocks, 4, n) == Flatten(Pixels(src, n)[..k]) + Blank(4 * n - 4 * k)
  {
    hide Load, Encoded, Flatten, Blank;
    k := CodeCut(Pixels(src, n), 0, 2, 4, j);
    assert Pixels(src, n)[0..0 + k] == Pixels(src, n)[..k];
    FlattenSize(Pixels(src, n)[..k], 4);
  }
}
