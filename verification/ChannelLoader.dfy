/** The image library's loops for images whose channels are coded one after the other: the samples of a channel are
    stored one pixel apart. */
module ChannelLoader {
  import opened Bytes
  import opened RunLength
  import opened RunLengthEncoder
  import opened ImageLoader

  // ---------------------------------------------------------------- what the loops read

  datatype Channels = Overran | Channels(columns: seq<seq<Byte>>, rest: seq<Byte>, complete: bool)

  /** Channel by channel, until the stream ends. */
  function LoadAll(s: seq<Byte>, n: nat, count: nat): Channels
    decreases count
  {
    if count == 0 then Channels([], s, true)
    else
      match Load(s, 1, n)
      case Overrun => Overran
      case Loading(b, rest, complete) =>
        if !complete then Channels([Flatten(b)], rest, false)
        else Before(Flatten(b), LoadAll(rest, n, count - 1))
  }

  function Before(column: seq<Byte>, c: Channels): Channels
  {
    match c
    case Overran => Overran
    case Channels(columns, rest, complete) => Channels([column] + columns, rest, complete)
  }

  // ---------------------------------------------------------------- the image

  function Sample(columns: seq<seq<Byte>>, channel: nat, row: nat): Byte
  {
    if channel < |columns| && row < |columns[channel]| then columns[channel][row] else 255
  }

  /** The image with the columns that have been filled in. */
  ghost function Image(columns: seq<seq<Byte>>, size: nat, n: nat): (s: seq<Byte>)
    requires size > 0
    ensures |s| == size * n
    ensures forall p | 0 <= p < size * n :: s[p] == Sample(columns, p % size, p / size)
  {
    seq(size * n, p requires 0 <= p < size * n => Sample(columns, p % size, p / size))
  }

  /** The position of a sample. */
  function At(row: nat, size: nat, channel: nat): nat
  {
    size * row + channel
  }

  lemma {:induction false} AtBack(row: nat, size: nat, channel: nat)
    requires channel < size
    ensures At(row, size, channel) % size == channel && At(row, size, channel) / size == row
  {
    Quotient(At(row, size, channel), size, row, channel);
  }

  lemma {:induction false} Quotient(p: nat, size: nat, q: nat, r: nat)
    requires p == size * q + r && r < size
    ensures p / size == q && p % size == r
  {
    var q', r' := p / size, p % size;
    assert p == size * q' + r';
    if q < q' {
      Multiples(size, q, q');
    } else if q' < q {
      Multiples(size, q', q);
    }
  }

  lemma {:induction false} AtBelow(row: nat, n: nat, size: nat, channel: nat)
    requires channel < size
    ensures At(row, size, channel) < size * n <==> row < n
    ensures At(row + 1, size, channel) == At(row, size, channel) + size
  {
    if row < n {
      Multiples(size, row, n);
    } else {
      Multiples(size, n, row);
    }
    assert size * (row + 1) == size * row + size;
  }

  /** Storing the next sample of the last column. */
  lemma {:induction false} ImageStep(columns: seq<seq<Byte>>, column: seq<Byte>, v: Byte, size: nat, n: nat)
    requires |columns| < size && |column| < n
    ensures var p := At(|column|, size, |columns|);
            p < size * n && Image(columns + [column + [v]], size, n) == Image(columns + [column], size, n)[p := v]
  {
    hide At;
    var p0 := At(|column|, size, |columns|);
    AtBelow(|column|, n, size, |columns|);
    AtBack(|column|, size, |columns|);
    var before, after := Image(columns + [column], size, n), Image(columns + [column + [v]], size, n);
    forall p | 0 <= p < size * n
      ensures after[p] == before[p0 := v][p]
    {
      SampleStep(columns, column, v, p % size, p / size);
      if p != p0 {
        AtApart(p, size, |column|, |columns|);
      }
    }
  }

  lemma {:induction false} AtApart(p: nat, size: nat, row: nat, channel: nat)
    requires size > 0 && p != At(row, size, channel)
    ensures p % size != channel || p / size != row
  {
    assert p == size * (p / size) + p % size;
  }

  lemma {:induction false} SampleStep(columns: seq<seq<Byte>>, column: seq<Byte>, v: Byte, i: nat, k: nat)
    ensures Sample(columns + [column + [v]], i, k)
         == if i == |columns| && k == |column| then v else Sample(columns + [column], i, k)
  {
  }

  lemma {:induction false} ImageNext(columns: seq<seq<Byte>>, size: nat, n: nat)
    requires size > 0
    ensures Image(columns + [[]], size, n) == Image(columns, size, n)
  {
    hide Sample;
    forall p | 0 <= p < size * n
      ensures Sample(columns + [[]], p % size, p / size) == Sample(columns, p % size, p / size)
    {
      SampleNext(columns, p % size, p / size);
    }
  }

  lemma {:induction false} SampleNext(columns: seq<seq<Byte>>, i: nat, k: nat)
    ensures Sample(columns + [[]], i, k) == Sample(columns, i, k)
  {
  }

  lemma {:induction false} ImageBlank(size: nat, n: nat)
    requires size > 0
    ensures Image([], size, n) == Blank(size * n)
  {
  }

  // ---------------------------------------------------------------- one channel in place

  /** Loading is at this point of a channel. */
  ghost predicate Filled(data: seq<Byte>, columns: seq<seq<Byte>>, done: seq<Block>, total: Loading, left: Loading,
                         size: nat, n: nat, ofs: nat)
  {
    && |columns| < size && Sized(done, 1) && |done| <= n && |Flatten(done)| == |done|
    && data == Image(columns + [Flatten(done)], size, n) && ofs == At(|done|, size, |columns|)
    && total == Then(done, left) && total.Loading?
  }

  /** Put a sample in its place. */
  method StoreSample(data: array<Byte>, ofs: nat, v: Byte, ghost columns: seq<seq<Byte>>, ghost done: seq<Block>,
                     ghost total: Loading, ghost left: Loading, ghost size: nat, ghost n: nat)
    requires |done| < n && Filled(data[..], columns, done, total, Then([[v]], left), size, n, ofs)
    modifies data
    ensures Filled(data[..], columns, done + [[v]], total, left, size, n, ofs + size)
  {
    hide Image, Flatten, At;
    ImageStep(columns, Flatten(done), v, size, n);
    FlattenAppend(done, [v]);
    ThenOne(done, [v], left);
    AtBelow(|done|, n, size, |columns|);
    data[ofs] := v;
  }

  lemma {:induction false} RoomLeft(data: seq<Byte>, columns: seq<seq<Byte>>, done: seq<Block>, total: Loading,
                                    left: Loading, size: nat, n: nat, ofs: nat)
    requires Filled(data, columns, done, total, left, size, n, ofs)
    ensures left != Overrun
  {
  }

  /** The samples of a verbatim packet, as long as the stream lasts. */
  method FillVerbatim(buffer: seq<Byte>, start: nat, data: array<Byte>, start': nat, count: nat, size: nat,
                      ghost n: nat, ghost columns: seq<seq<Byte>>, ghost done: seq<Block>, ghost total: Loading)
    returns (at: nat, ofs: nat, ended: bool, ghost done': seq<Block>)
    requires start <= |buffer| && |done| <= n
    requires Filled(data[..], columns, done, total, LoadVerbatim(From(buffer, start), 1, n - |done|, count), size, n,
                    start')
    modifies data
    ensures start <= at <= |buffer| && |done'| <= n
    ensures Filled(data[..], columns, done', total,
                   if ended then Loading([], From(buffer, at), false) else Load(From(buffer, at), 1, n - |done'|),
                   size, n, ofs)
  {
    hide Filled, Load, From;
    at, ofs, done' := start, start', done;
    var left := count;
    while left > 0
      invariant start <= at <= |buffer| && |done'| <= n
      invariant Filled(data[..], columns, done', total, LoadVerbatim(From(buffer, at), 1, n - |done'|, left), size, n,
                       ofs)
    {
      FromLength(buffer, at);
      if at + 1 > |buffer| {
        return at, ofs, true, done';
      }
      RoomLeft(data[..], columns, done', total, LoadVerbatim(From(buffer, at), 1, n - |done'|, left), size, n, ofs);
      FromFrom(buffer, at, 1);
      var v := buffer[at];
      assert buffer[at..at + 1] == [v];
      StoreSample(data, ofs, v, columns, done', total,
                  LoadVerbatim(From(buffer, at + 1), 1, n - |done'| - 1, left - 1), size, n);
      at, ofs, left, done' := at + 1, ofs + size, left - 1, done' + [[v]];
    }
    ended := false;
  }

  /** One sample, so many times. */
  method FillRepeat(buffer: seq<Byte>, at: nat, data: array<Byte>, start: nat, v: Byte, count: nat, size: nat,
                    ghost n: nat, ghost columns: seq<seq<Byte>>, ghost done: seq<Block>, ghost total: Loading)
    returns (ofs: nat, ghost done': seq<Block>)
    requires at <= |buffer| && |done| <= n
    requires Filled(data[..], columns, done, total, LoadRepeat(From(buffer, at), [v], 1, n - |done|, count), size, n,
                    start)
    modifies data
    ensures |done'| <= n
    ensures Filled(data[..], columns, done', total, Load(From(buffer, at), 1, n - |done'|), size, n, ofs)
  {
    hide Filled, Load, From;
    ofs, done' := start, done;
    var left := count;
    while left > 0
      invariant |done'| <= n
      invariant Filled(data[..], columns, done', total, LoadRepeat(From(buffer, at), [v], 1, n - |done'|, left), size,
                       n, ofs)
    {
      RoomLeft(data[..], columns, done', total, LoadRepeat(From(buffer, at), [v], 1, n - |done'|, left), size, n, ofs);
      StoreSample(data, ofs, v, columns, done', total,
                  LoadRepeat(From(buffer, at), [v], 1, n - |done'| - 1, left - 1), size, n);
      ofs, left, done' := ofs + size, left - 1, done' + [[v]];
    }
  }

  /** Unpack one packet. */
  method FillOne(buffer: seq<Byte>, start: nat, data: array<Byte>, start': nat, size: nat, ghost n: nat,
                 ghost columns: seq<seq<Byte>>, ghost done: seq<Block>, ghost total: Loading)
    returns (at: nat, ofs: nat, ended: bool, ghost done': seq<Block>)
    requires start <= |buffer| && |done| < n
    requires Filled(data[..], columns, done, total, Load(From(buffer, start), 1, n - |done|), size, n, start')
    modifies data
    ensures start <= at <= |buffer| && |done'| <= n && (ended || start < at)
    ensures Filled(data[..], columns, done', total,
                   if ended then Loading([], From(buffer, at), false) else Load(From(buffer, at), 1, n - |done'|),
                   size, n, ofs)
  {
    hide Filled, LoadVerbatim, LoadRepeat, From;
    FromLength(buffer, start);
    if start + 1 > |buffer| {
      return start, start', true, done;
    }
    FromFrom(buffer, start, 1);
    var len := buffer[start];
    at := start + 1;
    if len >= 0x80 {
      at, ofs, ended, done' := FillVerbatim(buffer, at, data, start', len - 0x80, size, n, columns, done, total);
    } else {
      if at + 1 > |buffer| {
        return at, start', true, done;
      }
      FromFrom(buffer, start, 2);
      var v := buffer[at];
      assert From(buffer, start)[1..1 + 1] == [v] by { FromPart(buffer, start, 1); }
      at := at + 1;
      ofs, done' := FillRepeat(buffer, at, data, start', v, len, size, n, columns, done, total);
      ended := false;
    }
  }

  lemma {:induction false} FillBegins(data: seq<Byte>, columns: seq<seq<Byte>>, total: Loading, size: nat, n: nat)
    requires |columns| < size && data == Image(columns, size, n) && total.Loading?
    ensures Filled(data, columns, [], total, total, size, n, |columns|)
  {
    hide Image;
    ImageNext(columns, size, n);
    ThenNone(total);
  }

  lemma {:induction false} FillEnds(data: seq<Byte>, columns: seq<seq<Byte>>, done: seq<Block>, total: Loading,
                                    rest: seq<Byte>, complete: bool, size: nat, n: nat, ofs: nat)
    requires Filled(data, columns, done, total, Loading([], rest, complete), size, n, ofs)
    ensures data == Image(columns + [Flatten(total.blocks)], size, n)
    ensures total.rest == rest && total.complete == complete
  {
    hide Image, Flatten;
    assert total.blocks == done;
  }

  /** How far the channel is filled shows whether another sample is to come. */
  lemma {:induction false} FillMore(data: seq<Byte>, columns: seq<seq<Byte>>, done: seq<Block>, total: Loading,
                                    left: Loading, size: nat, n: nat, ofs: nat)
    requires Filled(data, columns, done, total, left, size, n, ofs)
    ensures ofs < |data| <==> |done| < n
  {
    hide At;
    AtBelow(|done|, n, size, |columns|);
  }

  /** Unpack one channel behind those that are there. */
  method LoadChannel(buffer: seq<Byte>, start: nat, data: array<Byte>, size: nat, channel: nat, ghost n: nat,
                     ghost columns: seq<seq<Byte>>)
    returns (at: nat, complete: bool)
    requires start <= |buffer| && channel == |columns| < size && data[..] == Image(columns, size, n)
    requires Load(From(buffer, start), 1, n).Loading?
    modifies data
    ensures var l := Load(From(buffer, start), 1, n);
            && data[..] == Image(columns + [Flatten(l.blocks)], size, n)
            && at <= |buffer| && From(buffer, at) == l.rest && complete == l.complete
  {
    hide Filled, LoadVerbatim, LoadRepeat, Image, From, Flatten;
    ghost var total := Load(From(buffer, start), 1, n);
    ghost var done: seq<Block> := [];
    FillBegins(data[..], columns, total, size, n);
    at := start;
    var ofs: nat := channel;
    FillMore(data[..], columns, done, total, total, size, n, ofs);
    while ofs < data.Length
      invariant at <= |buffer| && |done| <= n && (ofs < data.Length <==> |done| < n)
      invariant Filled(data[..], columns, done, total, Load(From(buffer, at), 1, n - |done|), size, n, ofs)
      decreases |buffer| - at
    {
      var ended;
      at, ofs, ended, done := FillOne(buffer, at, data, ofs, size, n, columns, done, total);
      if ended {
        FillEnds(data[..], columns, done, total, From(buffer, at), false, size, n, ofs);
        return at, false;
      }
      FillMore(data[..], columns, done, total, Load(From(buffer, at), 1, n - |done|), size, n, ofs);
    }
    FillEnds(data[..], columns, done, total, From(buffer, at), true, size, n, ofs);
    complete := true;
  }

  /** The rest of the channels belongs behind those that are there. */
  function Behind(columns: seq<seq<Byte>>, c: Channels): Channels
  {
    match c
    case Overran => Overran
    case Channels(more, rest, complete) => Channels(columns + more, rest, complete)
  }

  lemma {:induction false} BehindNext(columns: seq<seq<Byte>>, column: seq<Byte>, c: Channels)
    ensures Behind(columns, Before(column, c)) == Behind(columns + [column], c)
  {
    if c.Channels? {
      assert columns + ([column] + c.columns) == (columns + [column]) + c.columns;
    }
  }

  /** Unpack all channels.  Where the stream ends early, the samples that are missing stay white. */
  method LoadChannels(buffer: seq<Byte>, start: nat, data: array<Byte>, size: nat, ghost n: nat)
    returns (at: nat, complete: bool)
    requires size > 0 && start <= |buffer| && data.Length == size * n
    requires LoadAll(buffer[start..], n, size).Channels?
    modifies data
    ensures var c := LoadAll(buffer[start..], n, size);
            && data[..] == Image(c.columns, size, n)
            && at <= |buffer| && buffer[at..] == c.rest && complete == c.complete
  {
    hide Image, Load, Blank, Flatten;
    Clear(data);
    ImageBlank(size, n);
    ghost var total := LoadAll(From(buffer, start), n, size);
    ghost var columns: seq<seq<Byte>> := [];
    assert Behind([], total) == total by { assert [] + total.columns == total.columns; }
    at := start;
    for i := 0 to size
      invariant at <= |buffer| && |columns| == i && data[..] == Image(columns, size, n)
      invariant total == Behind(columns, LoadAll(From(buffer, at), n, size - i)) && total.Channels?
    {
      ghost var l := Load(From(buffer, at), 1, n);
      if l.complete {
        BehindNext(columns, Flatten(l.blocks), LoadAll(l.rest, n, size - i - 1));
      }
      at, complete := LoadChannel(buffer, at, data, size, i, n, columns);
      columns := columns + [Flatten(l.blocks)];
      if !complete {
        return;
      }
    }
    assert columns + [] == columns;
    complete := true;
  }

  // ---------------------------------------------------------------- images come back

  lemma {:induction false} PixelsFlat(src: seq<Byte>, n: nat)
    requires Holds(src, n, 4, 4)
    ensures 4 * n <= |src| && Flatten(Pixels(src, n)) == src[..4 * n]
  {
    if n == 0 {
    } else {
      assert (n - 1) * 4 + 4 <= |src|;
      PixelsFlat(src, n - 1);
      FlattenAppend(Pixels(src, n - 1), BlockAt(src, n - 1, 4, 4));
      assert src[..4 * n] == src[..4 * (n - 1)] + src[4 * (n - 1)..4 * n];
    }
  }

  /** The image of an encoded single stream is the pixels that were encoded, whatever follows in the file. */
  lemma {:induction false} LoadsBack1x32(src: seq<Byte>, n: nat, rest: seq<Byte>)
    requires Holds(src, n, 4, 4)
    ensures var l := Load(Encoded(Pixels(src, n), 0, 2) + rest, 4, n);
            && l == Loading(Pixels(src, n), rest, true)
            && 4 * n <= |src| && Canvas(l.blocks, 4, n) == src[..4 * n]
  {
    hide Load, Encoded, RunLength.Decode;
    RoundTrip1x32(src, n, rest);
    LoadDecodes(Encoded(Pixels(src, n), 0, 2) + rest, 4, n);
    PixelsFlat(src, n);
    assert src[..4 * n] + Blank(0) == src[..4 * n];
  }

  lemma {:induction false} FlattenOnes(b: seq<Block>, k: nat)
    requires Sized(b, 1) && k < |b|
    ensures |Flatten(b)| == |b| && Flatten(b)[k] == b[k][0]
  {
    FlattenSize(b, 1);
    if k > 0 {
      FlattenOnes(b[1..], k - 1);
    }
  }

  /** The channels of an image as columns. */
  ghost function Columns(src: seq<Byte>, n: nat): seq<seq<Byte>>
    requires Holds(src, n, 4, 4) && n > 0
  {
    [Flatten(Channel(src, n, 0)), Flatten(Channel(src, n, 1)), Flatten(Channel(src, n, 2)), Flatten(Channel(src, n, 3))]
  }

  lemma {:induction false} ColumnsImage(src: seq<Byte>, n: nat)
    requires Holds(src, n, 4, 4) && n > 0
    ensures 4 * n <= |src| && Image(Columns(src, n), 4, n) == src[..4 * n]
  {
    hide Flatten, Channel;
    PixelsFlat(src, n);
    forall p | 0 <= p < 4 * n
      ensures Sample(Columns(src, n), p % 4, p / 4) == src[p]
    {
      ColumnSample(src, n, p % 4, p / 4);
    }
  }

  lemma {:induction false} ColumnSample(src: seq<Byte>, n: nat, c: nat, k: nat)
    requires Holds(src, n, 4, 4) && c < 4 && k < n
    ensures k * 4 + 4 <= |src| && Sample(Columns(src, n), c, k) == src[k * 4 + c]
  {
    hide Flatten, Holds;
    ChannelByte(src, n, c, k);
    ChannelHolds(src, n, c);
    FlattenOnes(Channel(src, n, c), k);
    assert Columns(src, n)[c] == Flatten(Channel(src, n, c));
  }

  lemma {:induction false} ChannelLoads(src: seq<Byte>, n: nat, c: nat, rest: seq<Byte>)
    requires Holds(src, n, 4, 4) && c < 4 && n > 0
    ensures Load(ChannelCode(src, n, c) + rest, 1, n) == Loading(Channel(src, n, c), rest, true)
  {
    hide Load, Channel, ChannelCode, RunLength.Decode;
    ChannelRoundTrip(src, n, c, rest);
    LoadDecodes(ChannelCode(src, n, c) + rest, 1, n);
  }

  /** And so is the image of four encoded channels. */
  lemma {:induction false} LoadsBack4x8(src: seq<Byte>, n: nat, rest: seq<Byte>)
    requires Holds(src, n, 4, 4) && n > 0
    ensures var c := LoadAll(ChannelCodes(src, n) + rest, n, 4);
            && c == Channels(Columns(src, n), rest, true)
            && 4 * n <= |src| && Image(c.columns, 4, n) == src[..4 * n]
  {
    hide Load, Channel, ChannelCode, Flatten, Image, Holds;
    var s3 := ChannelCode(src, n, 3) + rest;
    var s2 := ChannelCode(src, n, 2) + s3;
    var s1 := ChannelCode(src, n, 1) + s2;
    assert ChannelCodes(src, n) + rest == ChannelCode(src, n, 0) + s1;
    ChannelLoads(src, n, 0, s1);
    ChannelLoads(src, n, 1, s2);
    ChannelLoads(src, n, 2, s3);
    ChannelLoads(src, n, 3, rest);
    assert LoadAll(rest, n, 0) == Channels([], rest, true);
    assert LoadAll(s3, n, 1) == Channels([Flatten(Channel(src, n, 3))], rest, true);
    assert LoadAll(s2, n, 2) == Channels([Flatten(Channel(src, n, 2)), Flatten(Channel(src, n, 3))], rest, true);
    ColumnsImage(src, n);
  }
}
