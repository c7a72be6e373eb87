/** The image library's loops that unpack run-length coded images, in place into a buffer of pixels. */
module ImageLoader {
  import opened Bytes
  import opened RunLength
  import opened RunLengthEncoder

  // ---------------------------------------------------------------- what the loops read

  /** The blocks that come out of a stream, what is left of it, and whether all of them came out.  Streams that run
      over hold more blocks than there is room for. */
  datatype Loading = Overrun | Loading(blocks: seq<Block>, rest: seq<Byte>, complete: bool)

  function Then(b: seq<Block>, l: Loading): Loading
  {
    match l
    case Overrun => Overrun
    case Loading(blocks, rest, complete) => Loading(b + blocks, rest, complete)
  }

  /** Packet by packet, until `n` blocks have come out or the stream ends. */
  function Load(s: seq<Byte>, size: nat, n: nat): Loading
    requires size > 0
    decreases |s|, 0, 0
  {
    if n == 0 then Loading([], s, true)
    else if s == [] then Loading([], s, false)
    else if s[0] >= 0x80 then LoadVerbatim(s[1..], size, n, s[0] - 0x80)
    else if 1 + size > |s| then Loading([], s[1..], false)
    else LoadRepeat(s[1 + size..], s[1..1 + size], size, n, s[0])
  }

  /** Within a verbatim packet that has `left` blocks left. */
  function LoadVerbatim(s: seq<Byte>, size: nat, n: nat, left: nat): Loading
    requires size > 0
    decreases |s|, 1, left
  {
    if left == 0 then Load(s, size, n)
    else if size > |s| then Loading([], s, false)
    else if n == 0 then Overrun
    else Then([s[..size]], LoadVerbatim(s[size..], size, n - 1, left - 1))
  }

  /** Within a packet that repeats a block. */
  function LoadRepeat(s: seq<Byte>, block: Block, size: nat, n: nat, left: nat): Loading
    requires size > 0
    decreases |s|, 1, left
  {
    if left == 0 then Load(s, size, n)
    else if n == 0 then Overrun
    else Then([block], LoadRepeat(s, block, size, n - 1, left - 1))
  }

  lemma {:induction false} ThenOne(b: seq<Block>, x: Block, l: Loading)
    ensures Then(b, Then([x], l)) == Then(b + [x], l)
  {
    if l.Loading? {
      assert b + ([x] + l.blocks) == (b + [x]) + l.blocks;
    }
  }

  lemma {:induction false} ThenNone(l: Loading)
    ensures Then([], l) == l
  {
    if l.Loading? {
      assert [] + l.blocks == l.blocks;
    }
  }

  // ---------------------------------------------------------------- agreement with the format

  lemma {:induction false} LoadVerbatimAll(s: seq<Byte>, size: nat, n: nat, left: nat)
    requires size > 0 && size * left <= |s| && left <= n
    ensures LoadVerbatim(s, size, n, left) == Then(Cut(s, size, left), Load(s[size * left..], size, n - left))
    decreases left
  {
    hide Load;
    if left == 0 {
      assert s[size * left..] == s;
      ThenNone(Load(s, size, n));
    } else {
      assert size * left == size + size * (left - 1);
      LoadVerbatimAll(s[size..], size, n - 1, left - 1);
      assert s[size..][size * (left - 1)..] == s[size * left..];
      ThenMore([s[..size]], Cut(s[size..], size, left - 1), Load(s[size * left..], size, n - left));
    }
  }

  lemma {:induction false} ThenMore(a: seq<Block>, b: seq<Block>, l: Loading)
    ensures Then(a, Then(b, l)) == Then(a + b, l)
  {
    if l.Loading? {
      assert a + (b + l.blocks) == (a + b) + l.blocks;
    }
  }

  lemma {:induction false} LoadRepeatAll(s: seq<Byte>, block: Block, size: nat, n: nat, left: nat)
    requires size > 0 && left <= n
    ensures LoadRepeat(s, block, size, n, left) == Then(Copies(block, left), Load(s, size, n - left))
    decreases left
  {
    hide Load;
    if left == 0 {
      ThenNone(Load(s, size, n));
    } else {
      LoadRepeatAll(s, block, size, n - 1, left - 1);
      ThenMore([block], Copies(block, left - 1), Load(s, size, n - left));
    }
  }

  lemma {:induction false} LoadPacket(s: seq<Byte>, size: nat, n: nat, count: nat)
    requires size > 0 && s != [] && count == s[0] % 0x80 && 0 < count <= n
    requires if s[0] >= 0x80 then 1 + size * count <= |s| else 1 + size <= |s|
    ensures Load(s, size, n)
         == if s[0] >= 0x80 then Then(Cut(s[1..], size, count), Load(s[1 + size * count..], size, n - count))
            else Then(Copies(s[1..1 + size], count), Load(s[1 + size..], size, n - count))
  {
    hide Cut, Copies, LoadVerbatim, LoadRepeat;
    if s[0] >= 0x80 {
      assert count == s[0] - 0x80;
      LoadVerbatimAll(s[1..], size, n, count);
      assert s[1..][size * count..] == s[1 + size * count..];
    } else {
      LoadRepeatAll(s[1 + size..], s[1..1 + size], size, n, count);
    }
  }

  /** What the format decodes, the library loads. */
  lemma {:induction false} LoadDecodes(s: seq<Byte>, size: nat, n: nat)
    requires size > 0 && RunLength.Decode(s, size, n).Good?
    ensures var d := RunLength.Decode(s, size, n); Load(s, size, n) == Loading(d.blocks, d.rest, true)
    decreases n
  {
    hide Cut, Copies, LoadVerbatim, LoadRepeat;
    if n > 0 {
      var count := s[0] % 0x80;
      LoadPacket(s, size, n, count);
      LoadDecodes(if s[0] >= 0x80 then s[1 + size * count..] else s[1 + size..], size, n - count);
    }
  }

  // ---------------------------------------------------------------- whole pixels in place

  function Blank(n: nat): (s: seq<Byte>)
    ensures |s| == n && forall k | 0 <= k < n :: s[k] == 255
  {
    if n == 0 then [] else [255] + Blank(n - 1)
  }

  /** An image whose first blocks have been filled in. */
  ghost function Canvas(b: seq<Block>, size: nat, n: nat): seq<Byte>
    requires Sized(b, size) && |b| <= n
  {
    CanvasFits(b, size, n);
    Flatten(b) + Blank(size * n - |Flatten(b)|)
  }

  lemma {:induction false} CanvasFits(b: seq<Block>, size: nat, n: nat)
    requires Sized(b, size) && |b| <= n
    ensures |Flatten(b)| == size * |b| <= size * n
    ensures |b| < n ==> size * |b| + size <= size * n
  {
    hide Flatten;
    FlattenSize(b, size);
    Multiples(size, |b|, n);
  }

  lemma {:induction false} Multiples(size: nat, a: nat, b: nat)
    requires a <= b
    ensures size * a <= size * b && (a < b ==> size * a + size <= size * b)
  {
    if a < b {
      Multiples(size, a, b - 1);
      assert size * b == size * (b - 1) + size;
    }
  }

  /** Storing the next block. */
  lemma {:induction false} CanvasStep(b: seq<Block>, x: Block, size: nat, n: nat)
    requires Sized(b, size) && |x| == size && |b| < n
    ensures Sized(b + [x], size) && |Flatten(b)| + size <= size * n && |Flatten(b + [x])| == |Flatten(b)| + size
    ensures Canvas(b + [x], size, n) == Put(Canvas(b, size, n), |Flatten(b)|, x)
  {
    hide Flatten, Blank;
    CanvasFits(b, size, n);
    CanvasFits(b + [x], size, n);
    FlattenAppend(b, x);
  }

  /** Loading is at this point: so many blocks are in place and the rest is yet to come. */
  ghost predicate Loaded(data: seq<Byte>, done: seq<Block>, total: Loading, left: Loading, size: nat, n: nat, ofs: nat)
  {
    && Sized(done, size) && |done| <= n && data == Canvas(done, size, n) && ofs == |Flatten(done)|
    && total == Then(done, left) && total.Loading?
  }

  /** Put a block in its place. */
  method StoreBlock(data: array<Byte>, ofs: nat, block: Block, ghost done: seq<Block>, ghost total: Loading,
                    ghost left: Loading, ghost size: nat, ghost n: nat)
    requires |block| == size && |done| < n
    requires Loaded(data[..], done, total, Then([block], left), size, n, ofs)
    modifies data
    ensures Loaded(data[..], done + [block], total, left, size, n, ofs + size)
  {
    hide Canvas, Flatten;
    CanvasStep(done, block, size, n);
    CanvasLength(done, size, n);
    ThenOne(done, block, left);
    PutBytes(data, ofs, block);
  }

  lemma {:induction false} CanvasLength(b: seq<Block>, size: nat, n: nat)
    requires Sized(b, size) && |b| <= n
    ensures |Canvas(b, size, n)| == size * n
  {
    CanvasFits(b, size, n);
  }

  /** The stream is read from a position on. */
  function From(buffer: seq<Byte>, at: nat): seq<Byte>
    requires at <= |buffer|
  {
    buffer[at..]
  }

  lemma {:induction false} FromFrom(buffer: seq<Byte>, at: nat, k: nat)
    requires at + k <= |buffer|
    ensures From(buffer, at)[k..] == From(buffer, at + k) && From(buffer, at)[..k] == buffer[at..at + k]
    ensures k > 0 ==> From(buffer, at)[0] == buffer[at]
  {
  }

  /** The blocks of a verbatim packet, as long as the stream lasts. */
  method CopyVerbatim(buffer: seq<Byte>, start: nat, data: array<Byte>, start': nat, count: nat, size: nat,
                      ghost n: nat, ghost done: seq<Block>, ghost total: Loading)
    returns (at: nat, ofs: nat, ended: bool, ghost done': seq<Block>)
    requires size > 0 && start <= |buffer| && |done| <= n
    requires Loaded(data[..], done, total, LoadVerbatim(From(buffer, start), size, n - |done|, count), size, n, start')
    modifies data
    ensures start <= at <= |buffer| && |done'| <= n
    ensures Loaded(data[..], done', total,
                   if ended then Loading([], From(buffer, at), false) else Load(From(buffer, at), size, n - |done'|),
                   size, n, ofs)
  {
    hide Loaded, Load, From;
    at, ofs, done' := start, start', done;
    var left := count;
    while left > 0
      invariant start <= at <= |buffer| && |done'| <= n
      invariant Loaded(data[..], done', total, LoadVerbatim(From(buffer, at), size, n - |done'|, left), size, n, ofs)
    {
      FromLength(buffer, at);
      if at + size > |buffer| {
        return at, ofs, true, done';
      }
      NoOverrun(data[..], done', total, LoadVerbatim(From(buffer, at), size, n - |done'|, left), size, n, ofs);
      FromFrom(buffer, at, size);
      var block := buffer[at..at + size];
      StoreBlock(data, ofs, block, done', total,
                 LoadVerbatim(From(buffer, at + size), size, n - |done'| - 1, left - 1), size, n);
      at, ofs, left, done' := at + size, ofs + size, left - 1, done' + [block];
    }
    ended := false;
  }

  lemma {:induction false} FromLength(buffer: seq<Byte>, at: nat)
    requires at <= |buffer|
    ensures |From(buffer, at)| == |buffer| - at
  {
  }

  /** A stream that does not run over has room for what comes next. */
  lemma {:induction false} NoOverrun(data: seq<Byte>, done: seq<Block>, total: Loading, left: Loading, size: nat,
                                     n: nat, ofs: nat)
    requires Loaded(data, done, total, left, size, n, ofs)
    ensures left != Overrun
  {
  }

  /** One block, so many times. */
  method CopyRepeat(buffer: seq<Byte>, at: nat, data: array<Byte>, start: nat, block: Block, count: nat, size: nat,
                    ghost n: nat, ghost done: seq<Block>, ghost total: Loading)
    returns (ofs: nat, ghost done': seq<Block>)
    requires size > 0 && at <= |buffer| && |done| <= n && |block| == size
    requires Loaded(data[..], done, total, LoadRepeat(From(buffer, at), block, size, n - |done|, count), size, n, start)
    modifies data
    ensures |done'| <= n && Loaded(data[..], done', total, Load(From(buffer, at), size, n - |done'|), size, n, ofs)
  {
    hide Loaded, Load, From;
    ofs, done' := start, done;
    var left := count;
    while left > 0
      invariant |done'| <= n
      invariant Loaded(data[..], done', total, LoadRepeat(From(buffer, at), block, size, n - |done'|, left), size, n,
                       ofs)
    {
      NoOverrun(data[..], done', total, LoadRepeat(From(buffer, at), block, size, n - |done'|, left), size, n, ofs);
      StoreBlock(data, ofs, block, done', total,
                 LoadRepeat(From(buffer, at), block, size, n - |done'| - 1, left - 1), size, n);
      ofs, left, done' := ofs + size, left - 1, done' + [block];
    }
  }

  /** Start with an all-white image. */
  method Clear(data: array<Byte>)
    modifies data
    ensures data[..] == Blank(data.Length)
  {
    for ofs := 0 to data.Length
      invariant forall k | 0 <= k < ofs :: data[k] == 255
    {
      data[ofs] := 255;
    }
  }

  lemma {:induction false} LoadBegins(size: nat, n: nat, total: Loading)
    requires total.Loading?
    ensures Loaded(Blank(size * n), [], total, total, size, n, 0)
  {
    ThenNone(total);
    assert [] + Blank(size * n) == Blank(size * n);
  }

  lemma {:induction false} LoadEnds(data: seq<Byte>, done: seq<Block>, total: Loading, rest: seq<Byte>, complete: bool,
                                    size: nat, n: nat, ofs: nat)
    requires Loaded(data, done, total, Loading([], rest, complete), size, n, ofs)
    ensures Sized(total.blocks, size) && |total.blocks| <= n && data == Canvas(total.blocks, size, n)
    ensures total.rest == rest && total.complete == complete
  {
    assert total.blocks == done;
  }

  /** How far the image is filled shows whether another block is to come. */
  lemma {:induction false} MoreToCome(data: seq<Byte>, done: seq<Block>, total: Loading, left: Loading, size: nat,
                                      n: nat, ofs: nat)
    requires Loaded(data, done, total, left, size, n, ofs) && size > 0
    ensures ofs < |data| <==> |done| < n
  {
    CanvasFits(done, size, n);
    CanvasLength(done, size, n);
  }

  /** Unpack one packet. */
  method LoadOne(buffer: seq<Byte>, start: nat, data: array<Byte>, start': nat, size: nat, ghost n: nat,
                 ghost done: seq<Block>, ghost total: Loading)
    returns (at: nat, ofs: nat, ended: bool, ghost done': seq<Block>)
    requires size > 0 && start <= |buffer| && |done| < n
    requires Loaded(data[..], done, total, Load(From(buffer, start), size, n - |done|), size, n, start')
    modifies data
    ensures start <= at <= |buffer| && |done'| <= n && (ended || start < at)
    ensures Loaded(data[..], done', total,
                   if ended then Loading([], From(buffer, at), false) else Load(From(buffer, at), size, n - |done'|),
                   size, n, ofs)
  {
    hide Loaded, LoadVerbatim, LoadRepeat, From;
    FromLength(buffer, start);
    if start + 1 > |buffer| {
      return start, start', true, done;
    }
    FromFrom(buffer, start, 1);
    var len := buffer[start];
    at := start + 1;
    if len >= 0x80 {
      at, ofs, ended, done' := CopyVerbatim(buffer, at, data, start', len - 0x80, size, n, done, total);
    } else {
      if at + size > |buffer| {
        return at, start', true, done;
      }
      FromFrom(buffer, start, 1 + size);
      var block := buffer[at..at + size];
      assert From(buffer, start)[1..1 + size] == block by { FromPart(buffer, start, size); }
      at := at + size;
      ofs, done' := CopyRepeat(buffer, at, data, start', block, len, size, n, done, total);
      ended := false;
    }
  }

  lemma {:induction false} FromPart(buffer: seq<Byte>, at: nat, size: nat)
    requires at + 1 + size <= |buffer|
    ensures From(buffer, at)[1..1 + size] == buffer[at + 1..at + 1 + size]
  {
  }

  /** Unpack whole pixels.  Where the stream ends early, the rest of the image stays white. */
  method LoadPixels(buffer: seq<Byte>, start: nat, data: array<Byte>, size: nat, n: nat)
    returns (at: nat, complete: bool)
    requires size > 0 && start <= |buffer| && data.Length == size * n
    requires Load(buffer[start..], size, n).Loading?
    modifies data
    ensures var l := Load(buffer[start..], size, n);
            && Sized(l.blocks, size) && |l.blocks| <= n && data[..] == Canvas(l.blocks, size, n)
            && at <= |buffer| && buffer[at..] == l.rest && complete == l.complete
  {
    hide Loaded, LoadVerbatim, LoadRepeat, Canvas, Blank;
    Clear(data);
    ghost var total := Load(From(buffer, start), size, n);
    ghost var done: seq<Block> := [];
    LoadBegins(size, n, total);
    at := start;
    var ofs: nat := 0;
    MoreToCome(data[..], done, total, total, size, n, ofs);
    while ofs < data.Length
      invariant at <= |buffer| && |done| <= n && (ofs < data.Length <==> |done| < n)
      invariant Loaded(data[..], done, total, Load(From(buffer, at), size, n - |done|), size, n, ofs)
      decreases |buffer| - at
    {
      var ended;
      at, ofs, ended, done := LoadOne(buffer, at, data, ofs, size, n, done, total);
      if ended {
        LoadEnds(data[..], done, total, From(buffer, at), false, size, n, ofs);
        return at, false;
      }
      MoreToCome(data[..], done, total, Load(From(buffer, at), size, n - |done|), size, n, ofs);
    }
    LoadEnds(data[..], done, total, From(buffer, at), true, size, n, ofs);
    complete := true;
  }
}
