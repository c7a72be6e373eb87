/** The client side of a system call: the arguments are described by a format string and marshalled in two
    passes, one that sizes the message and one that fills it. */
module SyscallClient {
  import opened Bytes
  import opened SyscallWire

  datatype Option<T> = None | Some(value: T)

  /** An argument: a number, a C string, or the size and the contents of a caller's buffer (or NULL). */
  datatype Value =
    | Word(word: nat)
    | Long(long: nat)
    | Text(text: seq<Byte>)
    | Buffer(size: nat, contents: Option<seq<Byte>>)

  ghost predicate Proper(v: Value)
  {
    match v
    case Word(n) => n < 0x1_0000_0000
    case Long(n) => n < 0x1_0000_0000_0000_0000
    case Text(s) => 0 !in s
    case Buffer(size, contents) => contents.Some? ==> |contents.value| == size
  }

  /** What marshalling makes of one argument: its parameter block, and the bytes that go into the message. */
  datatype Item = Item(param: Param, data: seq<Byte>)

  /** Reading one entry of the format: the end was reached instead (and nothing was filled in), the format
      is refused, the arguments are not those that the format says, or an item was read. */
  datatype Reading = Ended | Refused | Mismatched | Read(item: Item, next: nat)

  function SkipSpaces(format: string, at: nat): (r: nat)
    requires at <= |format|
    ensures at <= r <= |format|
    decreases |format| - at
  {
    if at < |format| && format[at] == ' ' then SkipSpaces(format, at + 1) else at
  }

  function ReadEntry(format: string, at: nat, args: seq<Value>, k: nat): (r: Reading)
    requires at <= |format|
    ensures r.Read? ==> at < r.next <= |format| && k < |args|
  {
    var a := SkipSpaces(format, at);
    if a == |format| then Ended
    else
      // Whatever is not '<' or '?' counts as the direction '>'.
      var sends, comesBack := format[a] != '<', format[a] == '<' || format[a] == '?';
      var b := SkipSpaces(format, a + 1);
      if b == |format| then Ended
      else if format[b] !in ['i', 'I', 's', 'd'] || (format[b] != 'd' && comesBack) then Refused
      else if k >= |args| then Mismatched
      else
        match (format[b], args[k])
        case ('i', Word(n)) => Read(Item(Param(TYPE_INT32, false, false, 4), Encode(n, 4)), b + 1)
        case ('I', Long(n)) => Read(Item(Param(TYPE_INT64, false, false, 8), Encode(n, 8)), b + 1)
        case ('s', Text(s)) => Read(Item(Param(TYPE_STRING, false, false, |s| + 1), s + [0]), b + 1)
        case ('d', Buffer(size, contents)) =>
          var length := if contents.Some? then size else 0;
          var data := if sends && contents.Some? then contents.value else [];
          Read(Item(Param(TYPE_DATA, comesBack, !sends, length), data), b + 1)
        case _ => Mismatched
  }

  /** All entries of a format. */
  datatype Parse = Failed | Unspecified | Parsed(items: seq<Item>)

  function ParseFrom(format: string, at: nat, args: seq<Value>, k: nat): (r: Parse)
    requires at <= |format|
    decreases |format| - at
  {
    if at == |format| then Parsed([])
    else
      match ReadEntry(format, at, args, k)
      case Refused => Failed
      case Read(item, next) =>
        (match ParseFrom(format, next, args, k + 1)
         case Parsed(items) => Parsed([item] + items)
         case other => other)
      case _ => Unspecified
  }

  function ParamsIn(items: seq<Item>): (ps: seq<Param>)
    ensures |ps| == |items|
    ensures forall i | 0 <= i < |items| :: ps[i] == items[i].param
  {
    if items == [] then [] else [items[0].param] + ParamsIn(items[1..])
  }

  function DataIn(items: seq<Item>): seq<Byte>
  {
    if items == [] then [] else items[0].data + DataIn(items[1..])
  }

  function RequestOf(call: nat, items: seq<Item>): Message
  {
    Message(0, call, ParamsIn(items), DataIn(items))
  }

  // ---------------------------------------------------------------- the reply that is expected

  function ReturnedSizes(ps: seq<Param>): nat
  {
    if ps == [] then 0 else (if ps[0].returned then ps[0].length else 0) + ReturnedSizes(ps[1..])
  }

  function ReturnedCount(ps: seq<Param>): nat
  {
    if ps == [] then 0 else (if ps[0].returned then 1 else 0) + ReturnedCount(ps[1..])
  }

  /** The size of the reply: a 64-bit result, a 32-bit error number and the returned buffers. */
  function ReplySize(ps: seq<Param>): nat
  {
    HEADER_SIZE + 8 * (2 + ReturnedCount(ps)) + 12 + ReturnedSizes(ps)
  }

  // ---------------------------------------------------------------- facts about items

  /** The bytes of an item are as many as its parameter block says. */
  predicate ItemOk(item: Item)
  {
    |item.data| == DataSize(item.param)
  }

  lemma {:induction false} ReadEntryOk(format: string, at: nat, args: seq<Value>, k: nat)
    requires at <= |format| && ReadEntry(format, at, args, k).Read?
    requires forall i | 0 <= i < |args| :: Proper(args[i])
    ensures ItemOk(ReadEntry(format, at, args, k).item)
  {
    assert Proper(args[k]);
  }

  lemma {:induction false} ParseOk(format: string, at: nat, args: seq<Value>, k: nat)
    requires at <= |format| && ParseFrom(format, at, args, k).Parsed?
    requires forall i | 0 <= i < |args| :: Proper(args[i])
    ensures forall i | 0 <= i < |ParseFrom(format, at, args, k).items| ::
              ItemOk(ParseFrom(format, at, args, k).items[i])
    decreases |format| - at
  {
    hide ItemOk, ReadEntry;
    if at < |format| {
      ReadEntryOk(format, at, args, k);
      ParseOk(format, ReadEntry(format, at, args, k).next, args, k + 1);
    }
  }

  /** The data of a request is as long as its parameter blocks say. */
  lemma {:induction false} DataInSize(items: seq<Item>)
    requires forall i | 0 <= i < |items| :: ItemOk(items[i])
    ensures |DataIn(items)| == DataSizes(ParamsIn(items))
  {
    if items == [] {
    } else {
      DataInSize(items[1..]);
      assert ParamsIn(items)[1..] == ParamsIn(items[1..]);
    }
  }

  // ---------------------------------------------------------------- growing by one

  lemma {:induction false} ReturnedAppend(a: seq<Param>, p: Param)
    ensures ReturnedSizes(a + [p]) == ReturnedSizes(a) + if p.returned then p.length else 0
    ensures ReturnedCount(a + [p]) == ReturnedCount(a) + if p.returned then 1 else 0
  {
    if a == [] {
      assert a + [p] == [p];
    } else {
      ReturnedAppend(a[1..], p);
      assert (a + [p])[1..] == a[1..] + [p];
    }
  }

  lemma {:induction false} DataInConcat(a: seq<Item>, b: seq<Item>)
    ensures DataIn(a + b) == DataIn(a) + DataIn(b)
  {
    if a == [] {
      assert a + b == b;
    } else {
      DataInConcat(a[1..], b);
      assert (a + b)[1..] == a[1..] + b;
      assert DataIn(a + b) == a[0].data + (DataIn(a[1..]) + DataIn(b));
    }
  }

  lemma {:induction false} DataInAppend(a: seq<Item>, x: Item)
    ensures DataIn(a + [x]) == DataIn(a) + x.data
  {
    DataInConcat(a, [x]);
    assert DataIn([x]) == x.data + DataIn([]);
  }

  lemma {:induction false} ParamsInAppend(a: seq<Item>, x: Item)
    ensures ParamsIn(a + [x]) == ParamsIn(a) + [x.param]
  {
  }

  /** What has been read so far, continued with the rest of the format. */
  function Continue(done: seq<Item>, rest: Parse): Parse
  {
    if rest.Parsed? then Parsed(done + rest.items) else rest
  }

  lemma {:induction false} ContinueStep(format: string, at: nat, args: seq<Value>, done: seq<Item>)
    requires at < |format| && ReadEntry(format, at, args, |done|).Read?
    ensures var r := ReadEntry(format, at, args, |done|);
            Continue(done, ParseFrom(format, at, args, |done|))
            == Continue(done + [r.item], ParseFrom(format, r.next, args, |done| + 1))
  {
    hide ReadEntry;
    var r := ReadEntry(format, at, args, |done|);
    var rest := ParseFrom(format, r.next, args, |done| + 1);
    if rest.Parsed? {
      assert done + ([r.item] + rest.items) == (done + [r.item]) + rest.items;
    }
  }

  // ---------------------------------------------------------------- the two passes

  datatype Sizes = Sizes(count: nat, dataLength: nat, returnCount: nat, returnLength: nat)

  function SizesOf(ps: seq<Param>): Sizes
  {
    Sizes(|ps|, HEADER_SIZE + 8 * |ps| + DataSizes(ps), 2 + ReturnedCount(ps), ReplySize(ps))
  }

  /** First pass: the sizes of the request and of the reply. */
  method SizeRequest(format: string, args: seq<Value>) returns (ok: bool, sizes: Sizes)
    requires !ParseFrom(format, 0, args, 0).Unspecified?
    ensures ok == ParseFrom(format, 0, args, 0).Parsed?
    ensures ok ==> sizes == SizesOf(ParamsIn(ParseFrom(format, 0, args, 0).items))
  {
    hide ReadEntry;
    var at, count, dataLength, returnCount, returnLength := 0, 0, 0, 2, 12;
    ghost var done: seq<Item> := [];
    while at < |format|
      invariant at <= |format| && count == |done|
      invariant Continue(done, ParseFrom(format, at, args, count)) == ParseFrom(format, 0, args, 0)
      invariant dataLength == DataSizes(ParamsIn(done))
      invariant returnCount == 2 + ReturnedCount(ParamsIn(done)) && returnLength == 12 + ReturnedSizes(ParamsIn(done))
      decreases |format| - at
    {
      var r := ReadEntry(format, at, args, count);
      if r.Refused? {
        return false, Sizes(0, 0, 0, 0);
      }
      ContinueStep(format, at, args, done);
      ParamsInAppend(done, r.item);
      DataSizesAppend(ParamsIn(done), [r.item.param]);
      ReturnedAppend(ParamsIn(done), r.item.param);
      done := done + [r.item];
      count := count + 1;
      if !r.item.param.zeroed {
        dataLength := dataLength + r.item.param.length;
      }
      if r.item.param.returned {
        returnLength := returnLength + r.item.param.length;
        returnCount := returnCount + 1;
      }
      at := r.next;
    }
    assert done + [] == done;
    dataLength := dataLength + HEADER_SIZE + count * 8;
    returnLength := returnLength + HEADER_SIZE + returnCount * 8;
    return true, Sizes(count, dataLength, returnCount, returnLength);
  }

  /** The positions of the arguments that are returned, counted from `base`. */
  function ReturnedAt(ps: seq<Param>, base: nat): seq<nat>
  {
    if ps == [] then [] else (if ps[0].returned then [base] else []) + ReturnedAt(ps[1..], base + 1)
  }

  lemma {:induction false} ReturnedAtAppend(a: seq<Param>, base: nat, p: Param)
    ensures ReturnedAt(a + [p], base) == ReturnedAt(a, base) + if p.returned then [base + |a|] else []
  {
    if a == [] {
      assert a + [p] == [p];
    } else {
      ReturnedAtAppend(a[1..], base + 1, p);
      assert (a + [p])[1..] == a[1..] + [p];
    }
  }

  /** What the request buffer holds once `done` items have been filled in: the parameter blocks that are
      still to come and whatever lies behind the data are left as they were. */
  ghost predicate FilledTo(buffer: seq<Byte>, header: seq<Byte>, done: seq<Item>, count: nat)
  {
    && |header| == HEADER_SIZE && |done| <= count
    && HEADER_SIZE + 8 * count + |DataIn(done)| <= |buffer|
    && buffer[..HEADER_SIZE] == header
    && buffer[HEADER_SIZE..HEADER_SIZE + 8 * |done|] == EncodeParams(ParamsIn(done))
    && buffer[HEADER_SIZE + 8 * count..HEADER_SIZE + 8 * count + |DataIn(done)|] == DataIn(done)
  }

  /** Storing the parameter block and the data of the next item. */
  lemma {:induction false} FillStep(b: seq<Byte>, header: seq<Byte>, done: seq<Item>, x: Item, count: nat)
    requires FilledTo(b, header, done, count) && |done| < count
    requires HEADER_SIZE + 8 * count + |DataIn(done)| + |x.data| <= |b|
    ensures FilledTo(Put(Put(b, HEADER_SIZE + 8 * |done|, EncodeParam(x.param)),
                         HEADER_SIZE + 8 * count + |DataIn(done)|, x.data),
                     header, done + [x], count)
  {
    hide EncodeParam, Put;
    var p, q, d := HEADER_SIZE + 8 * |done|, HEADER_SIZE + 8 * count, HEADER_SIZE + 8 * count + |DataIn(done)|;
    var b1 := Put(b, p, EncodeParam(x.param));
    var b2 := Put(b1, d, x.data);
    DataInAppend(done, x);
    ParamsInAppend(done, x);
    EncodeParamsAppend(ParamsIn(done), [x.param]);
    OneParam(x.param);
    assert b2[..HEADER_SIZE] == header by {
      PutSlice(b, p, EncodeParam(x.param), 0, HEADER_SIZE);
      PutSlice(b1, d, x.data, 0, HEADER_SIZE);
    }
    assert b2[HEADER_SIZE..p + 8] == b[HEADER_SIZE..p] + EncodeParam(x.param) by {
      PutSlice(b, p, EncodeParam(x.param), HEADER_SIZE, p + 8);
      PutSlice(b1, d, x.data, HEADER_SIZE, p + 8);
    }
    assert b2[q..d + |x.data|] == b[q..d] + x.data by {
      PutSlice(b, p, EncodeParam(x.param), q, d);
      PutSlice(b1, d, x.data, q, d + |x.data|);
    }
  }

  lemma {:induction false} OneParam(p: Param)
    ensures EncodeParams([p]) == EncodeParam(p)
  {
    hide EncodeParam;
    assert [p][1..] == [];
  }

  lemma {:induction false} FilledAll(buffer: seq<Byte>, m: Message, items: seq<Item>)
    requires m.params == ParamsIn(items) && m.data == DataIn(items)
    requires FilledTo(buffer, EncodeHeader(m.client, Length(m), m.call, |items|), items, |items|)
    ensures Length(m) <= |buffer| && buffer[..Length(m)] == EncodeMessage(m)
  {
    var q := HEADER_SIZE + 8 * |items|;
    assert buffer[..Length(m)] == buffer[..HEADER_SIZE] + buffer[HEADER_SIZE..q] + buffer[q..Length(m)];
  }

  lemma {:induction false} FillStarts(b: seq<Byte>, header: seq<Byte>, count: nat)
    requires |header| == HEADER_SIZE && HEADER_SIZE + 8 * count <= |b|
    ensures FilledTo(Put(b, 0, header), header, [], count)
  {
  }

  /** Fill in one item. */
  method FillOne(request: array<Byte>, item: Item, count: nat, data: nat, ghost header: seq<Byte>,
                 ghost done: seq<Item>, ghost total: nat)
    requires FilledTo(request[..], header, done, total) && count == |done| < total
    requires data == HEADER_SIZE + 8 * total + |DataIn(done)| && data + |item.data| <= request.Length
    modifies request
    ensures FilledTo(request[..], header, done + [item], total)
  {
    hide FilledTo, Put, EncodeParam;
    FillStep(request[..], header, done, item, total);
    PutBytes(request, HEADER_SIZE + 8 * count, EncodeParam(item.param));
    PutBytes(request, data, item.data);
  }

  /** In the middle of a format that is known to parse, the next entry gives the next item. */
  lemma {:induction false} NextItem(format: string, at: nat, args: seq<Value>, done: seq<Item>, items: seq<Item>)
    requires at < |format| && Continue(done, ParseFrom(format, at, args, |done|)) == Parsed(items)
    requires forall i | 0 <= i < |args| :: Proper(args[i])
    ensures var r := ReadEntry(format, at, args, |done|);
            && r.Read? && ItemOk(r.item) && |done| < |items|
            && Continue(done + [r.item], ParseFrom(format, r.next, args, |done| + 1)) == Parsed(items)
            && |DataIn(done)| + |r.item.data| <= |DataIn(items)|
            && |DataIn(done + [r.item])| == |DataIn(done)| + |r.item.data|
            && ReturnedAt(ParamsIn(done + [r.item]), 0)
               == ReturnedAt(ParamsIn(done), 0) + if r.item.param.returned then [|done|] else []
  {
    hide ReadEntry, ItemOk, Proper, ReturnedAt;
    var r := ReadEntry(format, at, args, |done|);
    ReadEntryOk(format, at, args, |done|);
    ContinueStep(format, at, args, done);
    var rest := ParseFrom(format, r.next, args, |done| + 1).items;
    assert items == (done + [r.item]) + rest;
    DataInConcat(done + [r.item], rest);
    DataInAppend(done, r.item);
    ParamsInAppend(done, r.item);
    ReturnedAtAppend(ParamsIn(done), 0, r.item.param);
  }

  /** Fill in all items, and note which arguments are returned. */
  method FillItems(request: array<Byte>, format: string, args: seq<Value>, total: nat, ghost header: seq<Byte>,
                   ghost items: seq<Item>)
    returns (returnTo: seq<nat>)
    requires ParseFrom(format, 0, args, 0) == Parsed(items) && total == |items|
    requires forall i | 0 <= i < |args| :: Proper(args[i])
    requires FilledTo(request[..], header, [], total) && HEADER_SIZE + 8 * total + |DataIn(items)| <= request.Length
    modifies request
    ensures FilledTo(request[..], header, items, total) && returnTo == ReturnedAt(ParamsIn(items), 0)
  {
    hide ReadEntry, FilledTo, Proper, ReturnedAt, ParseFrom;
    var at, count, data := 0, 0, HEADER_SIZE + 8 * total;
    returnTo := [];
    ghost var done: seq<Item> := [];
    NoItems();
    while at < |format|
      invariant at <= |format| && count == |done|
      invariant Continue(done, ParseFrom(format, at, args, count)) == Parsed(items)
      invariant data == HEADER_SIZE + 8 * total + |DataIn(done)|
      invariant FilledTo(request[..], header, done, total)
      invariant returnTo == ReturnedAt(ParamsIn(done), 0)
      decreases |format| - at
    {
      NextItem(format, at, args, done, items);
      var r := ReadEntry(format, at, args, count);
      FillOne(request, r.item, count, data, header, done, total);
      if !r.item.param.zeroed {
        data := data + r.item.param.length;
      }
      if r.item.param.returned {
        returnTo := returnTo + [count];
      }
      done := done + [r.item];
      count := count + 1;
      at := r.next;
    }
    AtEnd(format, args, done, items);
  }

  lemma {:induction false} NoItems()
    ensures DataIn([]) == [] && ReturnedAt(ParamsIn([]), 0) == []
    ensures forall p :: Continue([], p) == p
  {
  }

  lemma {:induction false} AtEnd(format: string, args: seq<Value>, done: seq<Item>, items: seq<Item>)
    requires Continue(done, ParseFrom(format, |format|, args, |done|)) == Parsed(items)
    ensures done == items
  {
  }

  /** Second pass: fill a buffer that is large enough for the request and for the reply. */
  method FillRequest(call: nat, format: string, args: seq<Value>, sizes: Sizes)
    returns (request: array<Byte>, returnTo: seq<nat>)
    requires ParseFrom(format, 0, args, 0).Parsed?
    requires forall i | 0 <= i < |args| :: Proper(args[i])
    requires sizes == SizesOf(ParamsIn(ParseFrom(format, 0, args, 0).items))
    ensures var items := ParseFrom(format, 0, args, 0).items;
            && sizes.dataLength <= request.Length && sizes.returnLength <= request.Length
            && sizes.dataLength == Length(RequestOf(call, items))
            && request[..sizes.dataLength] == EncodeMessage(RequestOf(call, items))
            && returnTo == ReturnedAt(ParamsIn(items), 0)
  {
    hide ParseFrom, EncodeMessage, EncodeHeader, FilledTo, ItemOk, Proper, Put, ReturnedAt;
    ghost var items := ParseFrom(format, 0, args, 0).items;
    ParseOk(format, 0, args, 0);
    DataInSize(items);
    request := new Byte[if sizes.dataLength > sizes.returnLength then sizes.dataLength else sizes.returnLength];
    var header := EncodeHeader(0, sizes.dataLength, call, sizes.count);
    FillStarts(request[..], header, sizes.count);
    PutBytes(request, 0, header);
    returnTo := FillItems(request, format, args, sizes.count, header, items);
    FilledAll(request[..], RequestOf(call, items), items);
  }
}
