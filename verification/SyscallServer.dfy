/** The server side of a system call: cutting the byte stream into requests, rebuilding the arguments and
    building the reply. */
module SyscallServer {
  import opened Bytes
  import opened SyscallWire
  import opened SyscallClient

  /** More parameters than this are not received. */
  const MAX_PARAMS := 6

  // ---------------------------------------------------------------- framing

  /** The size of a request, as the server computes it from the header and the parameter blocks. */
  function FrameSize(s: seq<Byte>): nat
    requires |s| >= HEADER_SIZE && |s| >= HEADER_SIZE + 8 * CountOf(s)
  {
    HEADER_SIZE + 8 * CountOf(s) + DataSizes(ParamsOf(s))
  }

  /** The stream holds a whole header and the parameter blocks that it announces, not too many. */
  predicate Announced(s: seq<Byte>)
  {
    |s| >= HEADER_SIZE && CountOf(s) <= MAX_PARAMS && |s| >= HEADER_SIZE + 8 * CountOf(s)
  }

  /** What one receive takes off the stream: a request, or what was read before giving up. */
  function Taken(s: seq<Byte>): nat
  {
    if |s| < HEADER_SIZE then |s|
    else if CountOf(s) > MAX_PARAMS then HEADER_SIZE
    else if |s| < HEADER_SIZE + 8 * CountOf(s) then |s|
    else FrameSize(s)
  }

  /** The sum of the lengths of the data that is present. */
  method BufferSize(params: seq<Param>) returns (size: nat)
    ensures size == HEADER_SIZE + 8 * |params| + DataSizes(params)
  {
    size := HEADER_SIZE + 8 * |params|;
    for i := 0 to |params|
      invariant size == HEADER_SIZE + 8 * |params| + DataSizes(params[..i])
    {
      DataSizesAppend(params[..i], [params[i]]);
      assert params[..i] + [params[i]] == params[..i + 1];
      if !params[i].zeroed {
        size := size + params[i].length;
      }
    }
    assert params[..|params|] == params;
  }

  /** Receive one request.  The data may arrive in pieces of any size; it is waited for. */
  method HandleRx(stream: seq<Byte>) returns (taken: nat, request: Option<seq<Byte>>)
    requires Announced(stream) ==> FrameSize(stream) <= |stream|
    ensures taken == Taken(stream)
    ensures request == if Announced(stream) then Some(stream[..FrameSize(stream)]) else None
  {
    if |stream| < HEADER_SIZE {
      return |stream|, None;
    }
    var count := CountOf(stream);
    if count > MAX_PARAMS {
      return HEADER_SIZE, None;
    }
    var start := HEADER_SIZE + 8 * count;
    if |stream| < start {
      return |stream|, None;
    }
    var size := BufferSize(ParamsOf(stream));
    var buffer := stream[..start];
    var rem := size - start;
    while rem > 0
      invariant 0 <= rem <= size - start && buffer == stream[..size - rem]
    {
      var len: nat :| 1 <= len <= rem;
      buffer := buffer + stream[size - rem..size - rem + len];
      rem := rem - len;
    }
    return size, Some(buffer);
  }

  /** A request is cut off the stream at its end, whatever follows, just if it has at most six parameters. */
  lemma {:induction false} FrameSync(m: Message, rest: seq<Byte>)
    requires Sendable(m) && |m.data| == DataSizes(m.params)
    ensures Taken(EncodeMessage(m) + rest) == |EncodeMessage(m)| <==> |m.params| <= MAX_PARAMS
    ensures |m.params| <= MAX_PARAMS ==>
              Announced(EncodeMessage(m) + rest) && FrameSize(EncodeMessage(m) + rest) == |EncodeMessage(m)|
    ensures |m.params| > MAX_PARAMS ==> Taken(EncodeMessage(m) + rest) == HEADER_SIZE
  {
    MessageFields(m, rest);
  }

  function EncodeAll(ms: seq<Message>): seq<Byte>
  {
    if ms == [] then [] else EncodeMessage(ms[0]) + EncodeAll(ms[1..])
  }

  /** The requests delivered by `n` receives, and what is left of the stream. */
  function Receive(s: seq<Byte>, n: nat): (seq<Option<seq<Byte>>>, seq<Byte>)
  {
    if n == 0 then ([], s)
    else
      var taken := if Taken(s) <= |s| then Taken(s) else |s|;
      var first := if Announced(s) then Some(s[..taken]) else None;
      var more := Receive(s[taken..], n - 1);
      ([first] + more.0, more.1)
  }

  /** The stream never loses frame sync: requests sent one after the other are received one by one, each with
      exactly its own bytes. */
  lemma {:induction false} StreamSync(ms: seq<Message>, rest: seq<Byte>)
    requires forall i | 0 <= i < |ms| ::
               Sendable(ms[i]) && |ms[i].data| == DataSizes(ms[i].params) && |ms[i].params| <= MAX_PARAMS
    ensures var r := Receive(EncodeAll(ms) + rest, |ms|);
            && r.1 == rest && |r.0| == |ms|
            && forall i | 0 <= i < |ms| :: r.0[i] == Some(EncodeMessage(ms[i]))
  {
    hide EncodeMessage, Sendable, Taken, Announced, FrameSize;
    if ms == [] {
      assert EncodeAll(ms) + rest == rest;
    } else {
      var s, tail := EncodeAll(ms) + rest, EncodeAll(ms[1..]) + rest;
      assert s == EncodeMessage(ms[0]) + tail;
      FrameSync(ms[0], tail);
      StreamSync(ms[1..], rest);
      assert s[..|EncodeMessage(ms[0])|] == EncodeMessage(ms[0]) && s[|EncodeMessage(ms[0])|..] == tail;
    }
  }

  // ---------------------------------------------------------------- rebuilding the arguments

  /** An argument as the handler gets it: a pointer into the message, to a new zeroed buffer, or NULL. */
  datatype Argument =
    | Nothing
    | Int32(word: nat)
    | Int64(long: nat)
    | CString(text: seq<Byte>)
    | Pointer(contents: Option<seq<Byte>>)

  /** A C string ends at its first zero. */
  function TextAt(s: seq<Byte>): seq<Byte>
  {
    if s == [] || s[0] == 0 then [] else [s[0]] + TextAt(s[1..])
  }

  function Zeros(n: nat): seq<Byte>
  {
    if n == 0 then [] else [0] + Zeros(n - 1)
  }

  /** How far an argument moves the cursor in the data. */
  function Width(p: Param): nat
  {
    if p.kind == TYPE_INT32 then 4
    else if p.kind == TYPE_INT64 then 8
    else if p.kind == TYPE_STRING then p.length
    else if p.kind == TYPE_DATA && !p.zeroed then p.length
    else 0
  }

  function Argue(p: Param, data: seq<Byte>): Argument
    requires Width(p) <= |data|
  {
    if p.kind == TYPE_INT32 then Int32(Decode(data[..4]))
    else if p.kind == TYPE_INT64 then Int64(Decode(data[..8]))
    else if p.kind == TYPE_STRING then CString(TextAt(data))
    else if p.kind == TYPE_DATA then
      if p.length == 0 then Pointer(None)
      else if p.zeroed then Pointer(Some(Zeros(p.length)))
      else Pointer(Some(data[..p.length]))
    else Nothing
  }

  function Widths(ps: seq<Param>): nat
  {
    if ps == [] then 0 else Width(ps[0]) + Widths(ps[1..])
  }

  function Rebuild(ps: seq<Param>, data: seq<Byte>): (args: seq<Argument>)
    requires Widths(ps) <= |data|
    ensures |args| == |ps|
  {
    if ps == [] then [] else [Argue(ps[0], data)] + Rebuild(ps[1..], data[Width(ps[0])..])
  }

  predicate KnownKinds(ps: seq<Param>)
  {
    forall i | 0 <= i < |ps| :: ps[i].kind <= TYPE_DATA
  }

  lemma {:induction false} WidthsAppend(a: seq<Param>, p: Param)
    ensures Widths(a + [p]) == Widths(a) + Width(p)
  {
    if a == [] {
      assert a + [p] == [p];
    } else {
      WidthsAppend(a[1..], p);
      assert (a + [p])[1..] == a[1..] + [p];
    }
  }

  lemma {:induction false} WidthsPrefix(ps: seq<Param>, i: nat)
    requires i < |ps|
    ensures Widths(ps[..i]) + Width(ps[i]) == Widths(ps[..i + 1]) <= Widths(ps)
  {
    assert ps[..i] + [ps[i]] == ps[..i + 1];
    WidthsAppend(ps[..i], ps[i]);
    WidthsSplit(ps, i + 1);
  }

  lemma {:induction false} WidthsSplit(ps: seq<Param>, i: nat)
    requires i <= |ps|
    ensures Widths(ps) == Widths(ps[..i]) + Widths(ps[i..])
  {
    if i == 0 {
      assert ps[..0] == [] && ps[0..] == ps;
    } else {
      WidthsSplit(ps[1..], i - 1);
      assert ps[..i][1..] == ps[1..][..i - 1] && ps[1..][i - 1..] == ps[i..];
    }
  }

  lemma {:induction false} RebuildAppend(a: seq<Param>, p: Param, data: seq<Byte>)
    requires Widths(a) + Width(p) <= |data|
    ensures Widths(a + [p]) == Widths(a) + Width(p)
    ensures Rebuild(a + [p], data) == Rebuild(a, data) + [Argue(p, data[Widths(a)..])]
  {
    hide Argue;
    WidthsAppend(a, p);
    if a == [] {
      assert a + [p] == [p] && data[0..] == data;
    } else {
      RebuildAppend(a[1..], p, data[Width(a[0])..]);
      assert (a + [p])[1..] == a[1..] + [p];
      assert data[Width(a[0])..][Widths(a[1..])..] == data[Widths(a)..];
    }
  }

  /** Walk over the parameters and the data behind them; an unknown type is an error. */
  method RebuildArguments(params: seq<Param>, data: seq<Byte>) returns (arguments: Option<seq<Argument>>)
    requires Widths(params) <= |data|
    ensures arguments == if KnownKinds(params) then Some(Rebuild(params, data)) else None
  {
    for i := 0 to |params|
      invariant forall j | 0 <= j < i :: params[j].kind <= TYPE_DATA
    {
      if params[i].kind > TYPE_DATA {
        return None;
      }
    }
    var cursor, built := 0, [];
    for i := 0 to |params|
      invariant cursor == Widths(params[..i]) <= |data|
      invariant built == Rebuild(params[..i], data)
    {
      hide Argue;
      WidthsPrefix(params, i);
      RebuildAppend(params[..i], params[i], data);
      assert params[..i] + [params[i]] == params[..i + 1];
      built := built + [Argue(params[i], data[cursor..])];
      cursor := cursor + Width(params[i]);
    }
    assert params[..|params|] == params;
    return Some(built);
  }

  // ---------------------------------------------------------------- the arguments are those of the client

  /** What an item can be, given the argument that it was made from. */
  predicate MadeFrom(item: Item, v: Value)
  {
    match v
    case Word(n) => item == Item(Param(TYPE_INT32, false, false, 4), Encode(n, 4))
    case Long(n) => item == Item(Param(TYPE_INT64, false, false, 8), Encode(n, 8))
    case Text(s) => item == Item(Param(TYPE_STRING, false, false, |s| + 1), s + [0])
    case Buffer(size, contents) =>
      && item.param.kind == TYPE_DATA && item.param.length == (if contents.Some? then size else 0)
      && (item.param.zeroed ==> item.param.returned)
      && item.data == (if !item.param.zeroed && contents.Some? then contents.value else [])
  }

  /** What the handler must see: the client's argument; a buffer that is only returned is zeroed, and an
      empty one is NULL. */
  function Meant(v: Value, zeroed: bool): Argument
  {
    match v
    case Word(n) => Int32(n)
    case Long(n) => Int64(n)
    case Text(s) => CString(s)
    case Buffer(size, contents) =>
      if contents.None? || size == 0 then Pointer(None)
      else if zeroed then Pointer(Some(Zeros(size)))
      else Pointer(contents)
  }

  lemma {:induction false} ReadEntryMadeFrom(format: string, at: nat, args: seq<Value>, k: nat)
    requires at <= |format| && ReadEntry(format, at, args, k).Read?
    ensures MadeFrom(ReadEntry(format, at, args, k).item, args[k])
  {
  }

  ghost predicate AllMadeFrom(items: seq<Item>, vs: seq<Value>)
  {
    |items| <= |vs| && forall i | 0 <= i < |items| :: MadeFrom(items[i], vs[i]) && Proper(vs[i])
  }

  lemma {:induction false} ParseMadeFrom(format: string, at: nat, args: seq<Value>, k: nat)
    requires at <= |format| && k <= |args| && ParseFrom(format, at, args, k).Parsed?
    requires forall i | 0 <= i < |args| :: Proper(args[i])
    ensures AllMadeFrom(ParseFrom(format, at, args, k).items, args[k..])
    decreases |format| - at
  {
    hide ReadEntry, MadeFrom, Proper;
    if at < |format| {
      ReadEntryMadeFrom(format, at, args, k);
      ParseMadeFrom(format, ReadEntry(format, at, args, k).next, args, k + 1);
      assert args[k..][1..] == args[k + 1..];
    }
  }

  lemma {:induction false} TextAtString(s: seq<Byte>, rest: seq<Byte>)
    requires 0 !in s
    ensures TextAt(s + [0] + rest) == s
  {
    if s == [] {
    } else {
      TextAtString(s[1..], rest);
      assert (s + [0] + rest)[1..] == s[1..] + [0] + rest;
    }
  }

  lemma {:induction false} ArgueMeant(item: Item, v: Value, rest: seq<Byte>)
    requires MadeFrom(item, v) && Proper(v)
    ensures Width(item.param) == |item.data| && Argue(item.param, item.data + rest) == Meant(v, item.param.zeroed)
  {
    var s := item.data + rest;
    match v
    case Word(n) =>
      Ranges();
      DecodeEncode(n, 4);
      assert s[..4] == item.data;
    case Long(n) =>
      Ranges();
      DecodeEncode(n, 8);
      assert s[..8] == item.data;
    case Text(text) => TextAtString(text, rest);
    case Buffer(size, contents) => assert !item.param.zeroed ==> s[..item.param.length] == item.data;
  }

  /** The handler sees the client's arguments, in order. */
  lemma {:induction false} RebuildMeant(items: seq<Item>, vs: seq<Value>, i: nat)
    requires AllMadeFrom(items, vs) && i < |items|
    ensures Widths(ParamsIn(items)) <= |DataIn(items)|
    ensures Rebuild(ParamsIn(items), DataIn(items))[i] == Meant(vs[i], items[i].param.zeroed)
  {
    hide Argue, Meant, MadeFrom, Proper;
    MadeWidths(items, vs);
    ArgueMeant(items[0], vs[0], DataIn(items[1..]));
    var ps, data := ParamsIn(items), DataIn(items);
    assert ps[1..] == ParamsIn(items[1..]) && data[Width(ps[0])..] == DataIn(items[1..]);
    MadeWidths(items[1..], vs[1..]);
    if i > 0 {
      RebuildMeant(items[1..], vs[1..], i - 1);
    }
  }

  lemma {:induction false} MadeWidths(items: seq<Item>, vs: seq<Value>)
    requires AllMadeFrom(items, vs)
    ensures Widths(ParamsIn(items)) == |DataIn(items)|
  {
    hide MadeFrom, Proper, Width;
    if items != [] {
      ArgueMeant(items[0], vs[0], []);
      MadeWidths(items[1..], vs[1..]);
      assert ParamsIn(items)[1..] == ParamsIn(items[1..]);
    }
  }
}
