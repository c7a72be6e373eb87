/** The reply of a system call: built by the server from what the handler left in its buffers, and unpacked by
    the client into the buffers of the caller. */
module SyscallReply {
  import opened Bytes
  import opened SyscallWire
  import opened SyscallClient
  import opened SyscallFormat
  import opened SyscallServer

  /** What a handler returns: its result, an error number, and what it left in each argument's buffer. */
  datatype Outcome = Outcome(value: int, errno: nat, left: seq<seq<Byte>>)

  predicate SentBack(p: Param)
  {
    p.kind == TYPE_DATA && p.returned
  }

  /** A handler keeps the sizes of its buffers. */
  ghost predicate Kept(ps: seq<Param>, o: Outcome)
  {
    && -0x8000_0000 <= o.value < 0x8000_0000 && o.errno < 0x1_0000_0000 && |o.left| == |ps|
    && forall i | 0 <= i < |ps| :: SentBack(ps[i]) ==> |o.left[i]| == ps[i].length
  }

  /** A 32-bit result is stored as 64 bits with its sign. */
  function SignExtend(value: int): nat
    requires -0x8000_0000 <= value < 0x8000_0000
  {
    if value < 0 then value + 0x1_0000_0000_0000_0000 else value
  }

  /** The buffers that go back, in order. */
  function BackItems(ps: seq<Param>, left: seq<seq<Byte>>): seq<Item>
    requires |left| == |ps|
  {
    if ps == [] then []
    else
      (if SentBack(ps[0]) then [Item(Param(TYPE_DATA, false, false, ps[0].length), left[0])] else [])
      + BackItems(ps[1..], left[1..])
  }

  function FixedItems(value: int, errno: nat): seq<Item>
    requires -0x8000_0000 <= value < 0x8000_0000
  {
    [Item(Param(TYPE_INT64, false, false, 8), Encode(SignExtend(value), 8)),
     Item(Param(TYPE_INT32, false, false, 4), Encode(errno, 4))]
  }

  function ReplyItems(ps: seq<Param>, o: Outcome): seq<Item>
    requires |o.left| == |ps| && -0x8000_0000 <= o.value < 0x8000_0000
  {
    FixedItems(o.value, o.errno) + BackItems(ps, o.left)
  }

  function ReplyOf(client: nat, call: nat, ps: seq<Param>, o: Outcome): Message
    requires |o.left| == |ps| && -0x8000_0000 <= o.value < 0x8000_0000
  {
    Message(client, call, ParamsIn(ReplyItems(ps, o)), DataIn(ReplyItems(ps, o)))
  }

  // ---------------------------------------------------------------- the size of the reply

  lemma {:induction false} BackSizes(ps: seq<Param>, o: Outcome)
    requires |o.left| == |ps| && forall i | 0 <= i < |ps| :: SentBack(ps[i]) ==> |o.left[i]| == ps[i].length
    requires forall i | 0 <= i < |ps| :: ps[i].returned ==> ps[i].kind == TYPE_DATA
    ensures |BackItems(ps, o.left)| == ReturnedCount(ps)
    ensures |DataIn(BackItems(ps, o.left))| == ReturnedSizes(ps)
    decreases |ps|
  {
    if ps != [] {
      BackSizes(ps[1..], o.(left := o.left[1..]));
      if SentBack(ps[0]) {
        var x := Item(Param(TYPE_DATA, false, false, ps[0].length), o.left[0]);
        assert BackItems(ps, o.left)[1..] == BackItems(ps[1..], o.left[1..]);
      } else {
        assert BackItems(ps, o.left) == BackItems(ps[1..], o.left[1..]);
      }
    }
  }

  /** The server's reply is as long as the client has computed, so it fits into the client's buffer. */
  lemma {:induction false} ReplyLength(client: nat, call: nat, items: seq<Item>, vs: seq<Value>, o: Outcome)
    requires AllMadeFrom(items, vs) && Kept(ParamsIn(items), o)
    ensures Length(ReplyOf(client, call, ParamsIn(items), o)) == ReplySize(ParamsIn(items))
  {
    hide MadeFrom, Proper, Encode;
    ReturnedAreData(items, vs);
    BackSizes(ParamsIn(items), o);
    DataInConcat(FixedItems(o.value, o.errno), BackItems(ParamsIn(items), o.left));
    FixedSize(o.value, o.errno);
  }

  lemma {:induction false} FixedSize(value: int, errno: nat)
    requires -0x8000_0000 <= value < 0x8000_0000
    ensures DataIn(FixedItems(value, errno)) == Encode(SignExtend(value), 8) + Encode(errno, 4)
    ensures |DataIn(FixedItems(value, errno))| == 12
  {
    hide Encode;
    var f := FixedItems(value, errno);
    assert f == [f[0]] + [f[1]];
    DataInAppend([f[0]], f[1]);
    DataInAppend([], f[0]);
    assert [] + [f[0]] == [f[0]];
  }

  lemma {:induction false} ReturnedAreData(items: seq<Item>, vs: seq<Value>)
    requires AllMadeFrom(items, vs)
    ensures forall i | 0 <= i < |items| :: ParamsIn(items)[i].returned ==> ParamsIn(items)[i].kind == TYPE_DATA
  {
    forall i | 0 <= i < |items|
      ensures items[i].param.returned ==> items[i].param.kind == TYPE_DATA
    {
      assert MadeFrom(items[i], vs[i]);
    }
  }

  // ---------------------------------------------------------------- building it

  lemma {:induction false} BackItemsAppend(ps: seq<Param>, left: seq<seq<Byte>>, p: Param, s: seq<Byte>)
    requires |left| == |ps|
    ensures BackItems(ps + [p], left + [s])
            == BackItems(ps, left) + if SentBack(p) then [Item(Param(TYPE_DATA, false, false, p.length), s)] else []
  {
    hide SentBack;
    if ps == [] {
      assert ps + [p] == [p] && left + [s] == [s];
    } else {
      BackItemsAppend(ps[1..], left[1..], p, s);
      assert (ps + [p])[1..] == ps[1..] + [p] && (left + [s])[1..] == left[1..] + [s];
    }
  }

  lemma {:induction false} BackItemsSplit(ps: seq<Param>, left: seq<seq<Byte>>, i: nat)
    requires |left| == |ps| && i <= |ps|
    ensures BackItems(ps, left) == BackItems(ps[..i], left[..i]) + BackItems(ps[i..], left[i..])
  {
    if i == 0 {
      assert ps[..0] == [] && left[..0] == [] && ps[0..] == ps && left[0..] == left;
    } else {
      BackItemsSplit(ps[1..], left[1..], i - 1);
      assert ps[..i][1..] == ps[1..][..i - 1] && left[..i][1..] == left[1..][..i - 1];
      assert ps[1..][i - 1..] == ps[i..] && left[1..][i - 1..] == left[i..];
    }
  }

  /** The next buffer to go back fits into the reply. */
  lemma {:induction false} RoomForNext(ps: seq<Param>, o: Outcome, i: nat)
    requires i < |ps| && |o.left| == |ps| && -0x8000_0000 <= o.value < 0x8000_0000
    ensures var done := FixedItems(o.value, o.errno) + BackItems(ps[..i], o.left[..i]);
            var next := FixedItems(o.value, o.errno) + BackItems(ps[..i + 1], o.left[..i + 1]);
            && (SentBack(ps[i]) ==> next == done + [Item(Param(TYPE_DATA, false, false, ps[i].length), o.left[i])])
            && (!SentBack(ps[i]) ==> next == done)
            && |next| <= |ReplyItems(ps, o)| && |DataIn(next)| <= |DataIn(ReplyItems(ps, o))|
  {
    hide FixedItems, SentBack;
    BackItemsAppend(ps[..i], o.left[..i], ps[i], o.left[i]);
    assert ps[..i] + [ps[i]] == ps[..i + 1] && o.left[..i] + [o.left[i]] == o.left[..i + 1];
    BackItemsSplit(ps, o.left, i + 1);
    var next := FixedItems(o.value, o.errno) + BackItems(ps[..i + 1], o.left[..i + 1]);
    var rest := BackItems(ps[i + 1..], o.left[i + 1..]);
    assert ReplyItems(ps, o) == next + rest;
    DataInConcat(next, rest);
  }

  /** The number of values and the size of the reply. */
  method ReplySizes(params: seq<Param>, ghost o: Outcome) returns (count: nat, size: nat)
    requires Kept(params, o)
    ensures 2 <= count == |ReplyItems(params, o)| && 12 <= |DataIn(ReplyItems(params, o))|
    ensures size == HEADER_SIZE + 8 * count + |DataIn(ReplyItems(params, o))|
  {
    hide SentBack;
    var data := 12;
    count := 2;
    for i := 0 to |params|
      invariant count == 2 + |BackItems(params[..i], o.left[..i])|
      invariant data == 12 + |DataIn(BackItems(params[..i], o.left[..i]))|
    {
      BackItemsAppend(params[..i], o.left[..i], params[i], o.left[i]);
      assert params[..i] + [params[i]] == params[..i + 1] && o.left[..i] + [o.left[i]] == o.left[..i + 1];
      if SentBack(params[i]) {
        DataInAppend(BackItems(params[..i], o.left[..i]),
                     Item(Param(TYPE_DATA, false, false, params[i].length), o.left[i]));
        data := data + params[i].length;
        count := count + 1;
      } else {
        assert BackItems(params[..i], o.left[..i]) + [] == BackItems(params[..i], o.left[..i]);
      }
    }
    assert params[..|params|] == params && o.left[..|params|] == o.left;
    DataInConcat(FixedItems(o.value, o.errno), BackItems(params, o.left));
    FixedSize(o.value, o.errno);
    size := HEADER_SIZE + count * 8 + data;
  }

  /** The result and the error number. */
  method FillFixed(reply: array<Byte>, value: int, errno: nat, count: nat, ghost header: seq<Byte>) returns (at: nat)
    requires -0x8000_0000 <= value < 0x8000_0000 && 2 <= count
    requires FilledTo(reply[..], header, [], count) && HEADER_SIZE + 8 * count + 12 <= reply.Length
    modifies reply
    ensures FilledTo(reply[..], header, FixedItems(value, errno), count)
    ensures |FixedItems(value, errno)| == 2 && at == HEADER_SIZE + 8 * count + |DataIn(FixedItems(value, errno))|
  {
    hide FilledTo, Encode;
    var first := Item(Param(TYPE_INT64, false, false, 8), Encode(SignExtend(value), 8));
    var second := Item(Param(TYPE_INT32, false, false, 4), Encode(errno, 4));
    FixedSize(value, errno);
    at := HEADER_SIZE + 8 * count;
    FillOne(reply, first, 0, at, header, [], count);
    at := at + 8;
    assert [] + [first] == [first] && DataIn([first]) == first.data + DataIn([]);
    FillOne(reply, second, 1, at, header, [first], count);
    at := at + 4;
    assert [first] + [second] == FixedItems(value, errno);
  }

  /** The server fills in the reply: the result, the error number, and then the buffers that go back. */
  method BuildReply(client: nat, call: nat, params: seq<Param>, o: Outcome) returns (reply: array<Byte>)
    requires Kept(params, o)
    ensures reply[..] == EncodeMessage(ReplyOf(client, call, params, o))
  {
    hide FilledTo, Put, EncodeHeader, EncodeMessage, FixedItems, SentBack, ParamsIn, DataIn, Encode;
    ghost var items := ReplyItems(params, o);
    var count, size := ReplySizes(params, o);
    reply := new Byte[size];
    var header := EncodeHeader(client, size, call, count);
    FillStarts(reply[..], header, count);
    PutBytes(reply, 0, header);
    var at := FillFixed(reply, o.value, o.errno, count, header);
    var k := 2;
    assert params[..0] == [] && o.left[..0] == [];
    assert FixedItems(o.value, o.errno) + [] == FixedItems(o.value, o.errno);
    for i := 0 to |params|
      invariant k == |FixedItems(o.value, o.errno) + BackItems(params[..i], o.left[..i])| <= count
      invariant at == HEADER_SIZE + 8 * count
                      + |DataIn(FixedItems(o.value, o.errno) + BackItems(params[..i], o.left[..i]))|
      invariant FilledTo(reply[..], header, FixedItems(o.value, o.errno) + BackItems(params[..i], o.left[..i]), count)
    {
      RoomForNext(params, o, i);
      if SentBack(params[i]) {
        ghost var done := FixedItems(o.value, o.errno) + BackItems(params[..i], o.left[..i]);
        var item := Item(Param(TYPE_DATA, false, false, params[i].length), o.left[i]);
        DataInAppend(done, item);
        FillOne(reply, item, k, at, header, done, count);
        at := at + |o.left[i]|;
        k := k + 1;
      }
    }
    assert params[..|params|] == params && o.left[..|params|] == o.left;
    FilledAll(reply[..], ReplyOf(client, call, params, o), items);
    assert reply[..size] == reply[..];
  }

  // ---------------------------------------------------------------- unpacking it

  /** Copy bytes into the beginning of a caller's buffer. */
  function CopyInto(v: Value, s: seq<Byte>): Value
  {
    if v.Buffer? && v.contents.Some? && |s| <= |v.contents.value|
    then Buffer(v.size, Some(s + v.contents.value[|s|..])) else v
  }

  /** Copy the values of a reply to the arguments that they belong to; all of them must be data. */
  function UnpackFrom(ps: seq<Param>, data: seq<Byte>, to: seq<nat>, args: seq<Value>): Option<seq<Value>>
    requires |to| == |ps| && DataSizes(ps) <= |data| && forall i | 0 <= i < |to| :: to[i] < |args|
    decreases |ps|
  {
    if ps == [] then Some(args)
    else if ps[0].kind != TYPE_DATA then None
    else
      var n := DataSize(ps[0]);
      UnpackFrom(ps[1..], data[n..], to[1..], args[to[0] := CopyInto(args[to[0]], data[..n])])
  }

  datatype Unpacked = Aborted | Done(value: nat, errno: nat, args: seq<Value>)

  /** A reply must start with a 64-bit and a 32-bit number and have as many more values as are expected. */
  predicate WellFormedReply(ps: seq<Param>, expected: nat)
  {
    && |ps| >= 2 && ps[0].kind == TYPE_INT64 && ps[0].length == 8 && ps[1].kind == TYPE_INT32 && ps[1].length == 4
    && |ps| - 2 == expected
  }

  function Unpack(ps: seq<Param>, data: seq<Byte>, to: seq<nat>, args: seq<Value>): Unpacked
    requires forall i | 0 <= i < |to| :: to[i] < |args|
    requires WellFormedReply(ps, |to|) ==> 12 + DataSizes(ps[2..]) <= |data|
  {
    if !WellFormedReply(ps, |to|) then Aborted
    else
      match UnpackFrom(ps[2..], data[12..], to, args)
      case None => Aborted
      case Some(args') => Done(Decode(data[..8]), Decode(data[8..12]), args')
  }

  /** A reply is refused exactly if it does not start with the two numbers, has not as many values as are expected,
      or one of them is not data. */
  lemma {:induction false} UnpackAborts(ps: seq<Param>, data: seq<Byte>, to: seq<nat>, args: seq<Value>)
    requires forall i | 0 <= i < |to| :: to[i] < |args|
    requires WellFormedReply(ps, |to|) ==> 12 + DataSizes(ps[2..]) <= |data|
    ensures Unpack(ps, data, to, args).Done? <==>
            && |ps| == 2 + |to| && ps[0].kind == 2 && ps[0].length == 8 && ps[1].kind == 1 && ps[1].length == 4
            && forall i | 2 <= i < |ps| :: ps[i].kind == 4
  {
    hide Decode, CopyInto;
    if WellFormedReply(ps, |to|) {
      UnpackFromAborts(ps[2..], data[12..], to, args);
      assert forall i | 2 <= i < |ps| :: ps[i] == ps[2..][i - 2];
    }
  }

  lemma {:induction false} UnpackFromAborts(ps: seq<Param>, data: seq<Byte>, to: seq<nat>, args: seq<Value>)
    requires |to| == |ps| && DataSizes(ps) <= |data| && forall i | 0 <= i < |to| :: to[i] < |args|
    ensures UnpackFrom(ps, data, to, args).Some? <==> forall i | 0 <= i < |ps| :: ps[i].kind == 4
    decreases |ps|
  {
    hide CopyInto;
    if ps != [] && ps[0].kind == TYPE_DATA {
      var n := DataSize(ps[0]);
      UnpackFromAborts(ps[1..], data[n..], to[1..], args[to[0] := CopyInto(args[to[0]], data[..n])]);
      assert forall i | 0 < i < |ps| :: ps[i] == ps[1..][i - 1];
    }
  }

  method UnpackReply(params: seq<Param>, data: seq<Byte>, to: seq<nat>, args: seq<Value>) returns (r: Unpacked)
    requires forall i | 0 <= i < |to| :: to[i] < |args|
    requires WellFormedReply(params, |to|) ==> 12 + DataSizes(params[2..]) <= |data|
    ensures r == Unpack(params, data, to, args)
  {
    if |params| < 2 || params[0].kind != TYPE_INT64 || params[0].length != 8
       || params[1].kind != TYPE_INT32 || params[1].length != 4 || |params| - 2 != |to|
    {
      return Aborted;
    }
    hide Decode, CopyInto;
    var value, errno := Decode(data[..8]), Decode(data[8..12]);
    var at, out := 12, args;
    var i := 2;
    assert params[2..] == params[i..] && data[12..] == data[at..] && to == to[i - 2..];
    while i < |params|
      invariant 2 <= i <= |params| && 12 <= at && at + DataSizes(params[i..]) <= |data| && |out| == |args|
      invariant UnpackFrom(params[2..], data[12..], to, args) == UnpackFrom(params[i..], data[at..], to[i - 2..], out)
    {
      if params[i].kind != TYPE_DATA {
        return Aborted;
      }
      var n := DataSize(params[i]);
      assert params[i..][1..] == params[i + 1..] && to[i - 2..][1..] == to[i - 1..];
      assert data[at..][..n] == data[at..at + n] && data[at..][n..] == data[at + n..];
      out := out[to[i - 2] := CopyInto(out[to[i - 2]], data[at..at + n])];
      at := at + n;
      i := i + 1;
    }
    return Done(value, errno, out);
  }

  // ---------------------------------------------------------------- what the caller finds

  /** The caller's argument with what the handler left in it; NULL stays NULL. */
  function Returned(v: Value, s: seq<Byte>): Value
  {
    if v.Buffer? && v.contents.Some? then Buffer(v.size, Some(s)) else v
  }

  /** All arguments after the call, from `base` on. */
  function Restored(ps: seq<Param>, left: seq<seq<Byte>>, base: nat, args: seq<Value>): (r: seq<Value>)
    requires |left| == |ps| && base + |ps| <= |args|
    ensures |r| == |args|
    ensures forall j | 0 <= j < |args| ::
              r[j] == if base <= j < base + |ps| && ps[j - base].returned then Returned(args[j], left[j - base])
                      else args[j]
    decreases |ps|
  {
    if ps == [] then args
    else Restored(ps[1..], left[1..], base + 1,
                  if ps[0].returned then args[base := Returned(args[base], left[0])] else args)
  }

  /** The buffer fits what comes back. */
  ghost predicate Matching(p: Param, v: Value, s: seq<Byte>)
  {
    p.returned ==>
      p.kind == TYPE_DATA && v.Buffer? && Proper(v) && |s| == p.length
      && p.length == if v.contents.Some? then v.size else 0
  }

  lemma {:induction false} CopyReturned(v: Value, p: Param, s: seq<Byte>)
    requires Matching(p, v, s) && p.returned
    ensures CopyInto(v, s) == Returned(v, s)
  {
    if v.contents.Some? {
      assert s + v.contents.value[|s|..] == s;
    }
  }

  ghost predicate AllMatching(ps: seq<Param>, base: nat, args: seq<Value>, left: seq<seq<Byte>>)
  {
    |left| == |ps| && base + |ps| <= |args| && forall i | 0 <= i < |ps| :: Matching(ps[i], args[base + i], left[i])
  }

  lemma {:induction false} ReturnedAtBelow(ps: seq<Param>, base: nat)
    ensures forall i | 0 <= i < |ReturnedAt(ps, base)| :: base <= ReturnedAt(ps, base)[i] < base + |ps|
    ensures |ReturnedAt(ps, base)| == ReturnedCount(ps)
  {
    if ps != [] {
      ReturnedAtBelow(ps[1..], base + 1);
    }
  }

  /** The first buffer that goes back, and the others. */
  lemma {:induction false} BackFirst(ps: seq<Param>, left: seq<seq<Byte>>)
    requires |left| == |ps| > 0 && SentBack(ps[0]) && |left[0]| == ps[0].length
    ensures var items, rest := BackItems(ps, left), BackItems(ps[1..], left[1..]);
            && |items| == 1 + |rest|
            && ParamsIn(items) == [Param(TYPE_DATA, false, false, ps[0].length)] + ParamsIn(rest)
            && DataIn(items) == left[0] + DataIn(rest)
            && DataSizes(ParamsIn(items)) == |left[0]| + DataSizes(ParamsIn(rest))
  {
    var items, rest := BackItems(ps, left), BackItems(ps[1..], left[1..]);
    assert items[1..] == rest;
    assert ParamsIn(items)[1..] == ParamsIn(rest);
  }

  lemma {:induction false} UnpackFirst(p: Param, ps: seq<Param>, s: seq<Byte>, data: seq<Byte>, t: nat, to: seq<nat>,
                                       args: seq<Value>)
    requires p.kind == TYPE_DATA && DataSize(p) == |s| && |to| == |ps| && DataSizes(ps) <= |data|
    requires t < |args| && forall i | 0 <= i < |to| :: to[i] < |args|
    ensures DataSizes([p] + ps) == |s| + DataSizes(ps) && forall i | 0 <= i < |[t] + to| :: ([t] + to)[i] < |args|
    ensures UnpackFrom([p] + ps, s + data, [t] + to, args) == UnpackFrom(ps, data, to, args[t := CopyInto(args[t], s)])
  {
    hide CopyInto;
    assert ([p] + ps)[1..] == ps && ([t] + to)[1..] == to;
    assert (s + data)[..|s|] == s && (s + data)[|s|..] == data;
  }

  lemma {:induction false} RestoredFirst(ps: seq<Param>, left: seq<seq<Byte>>, base: nat, args: seq<Value>)
    requires |left| == |ps| > 0 && base + |ps| <= |args|
    ensures Restored(ps, left, base, args)
            == Restored(ps[1..], left[1..], base + 1,
                        if ps[0].returned then args[base := Returned(args[base], left[0])] else args)
    ensures ReturnedAt(ps, base) == (if ps[0].returned then [base] else []) + ReturnedAt(ps[1..], base + 1)
    ensures !SentBack(ps[0]) ==> BackItems(ps, left) == BackItems(ps[1..], left[1..])
  {
  }

  lemma {:induction false} MatchingRest(ps: seq<Param>, base: nat, args: seq<Value>, left: seq<seq<Byte>>, v: Value)
    requires AllMatching(ps, base, args, left) && ps != []
    ensures Matching(ps[0], args[base], left[0])
    ensures AllMatching(ps[1..], base + 1, args, left[1..])
            && AllMatching(ps[1..], base + 1, args[base := v], left[1..])
  {
    hide Matching;
    forall i | 0 <= i < |ps| - 1
      ensures Matching(ps[1..][i], args[base + 1 + i], left[1..][i])
    {
      assert Matching(ps[i + 1], args[base + (i + 1)], left[i + 1]);
    }
  }

  lemma {:induction false} UnpackNone(base: nat, args: seq<Value>)
    requires base <= |args|
    ensures ReturnedAt([], base) == [] && BackItems([], []) == [] && ParamsIn([]) == [] && DataIn([]) == []
    ensures DataSizes([]) == 0 && UnpackFrom([], [], [], args) == Some(Restored([], [], base, args))
  {
  }

  /** Unpacking what the server packed puts everything back where it belongs. */
  lemma {:induction false} UnpackBack(ps: seq<Param>, left: seq<seq<Byte>>, base: nat, args: seq<Value>)
    requires AllMatching(ps, base, args, left)
    ensures |left| == |ps| && base + |ps| <= |args|
    ensures var items, to := BackItems(ps, left), ReturnedAt(ps, base);
            && |to| == |items| && DataSizes(ParamsIn(items)) == |DataIn(items)|
            && (forall i | 0 <= i < |to| :: to[i] < |args|)
            && UnpackFrom(ParamsIn(items), DataIn(items), to, args) == Some(Restored(ps, left, base, args))
    decreases |ps|
  {
    hide Matching, CopyInto, Returned, SentBack, UnpackFrom, Restored, DataIn, ParamsIn, DataSizes, BackItems;
    hide ReturnedAt;
    if ps == [] {
      assert left == [];
      UnpackNone(base, args);
    } else {
      var rest := BackItems(ps[1..], left[1..]);
      var args' := args[base := Returned(args[base], left[0])];
      MatchingRest(ps, base, args, left, args'[base]);
      MatchingFirst(ps[0], args[base], left[0]);
      RestoredFirst(ps, left, base, args);
      if ps[0].returned {
        CopyReturned(args[base], ps[0], left[0]);
        UnpackBack(ps[1..], left[1..], base + 1, args');
        BackFirst(ps, left);
        UnpackFirst(Param(TYPE_DATA, false, false, ps[0].length), ParamsIn(rest), left[0], DataIn(rest),
                    base, ReturnedAt(ps[1..], base + 1), args);
      } else {
        UnpackBack(ps[1..], left[1..], base + 1, args);
        assert [] + ReturnedAt(ps[1..], base + 1) == ReturnedAt(ps[1..], base + 1);
      }
    }
  }

  lemma {:induction false} MatchingFirst(p: Param, v: Value, s: seq<Byte>)
    requires Matching(p, v, s)
    ensures p.returned ==> SentBack(p) && |s| == p.length
    ensures SentBack(p) ==> p.returned
  {
  }

  // ---------------------------------------------------------------- the whole call

  /** The reply can be represented: it is not too long. */
  lemma {:induction false} ReplySendable(client: nat, call: nat, items: seq<Item>, vs: seq<Value>, o: Outcome)
    requires AllMadeFrom(items, vs) && Kept(ParamsIn(items), o)
    requires client < 0x1_0000_0000 && call < 0x1_0000 && |items| <= MAX_PARAMS
             && ReplySize(ParamsIn(items)) < 0x1_0000_0000
    ensures Sendable(ReplyOf(client, call, ParamsIn(items), o))
  {
    hide MadeFrom, Proper, Encode;
    ReplyLength(client, call, items, vs, o);
    ReturnedAreData(items, vs);
    BackSizes(ParamsIn(items), o);
    var r := ReplyItems(ParamsIn(items), o);
    forall i | 0 <= i < |r|
      ensures Storable(ParamsIn(r)[i])
    {
      if i >= 2 {
        BackStorable(ParamsIn(items), o, i - 2);
      }
    }
    ReturnedAtBelow(ParamsIn(items), 0);
    CountBelow(ParamsIn(items));
  }

  lemma {:induction false} CountBelow(ps: seq<Param>)
    ensures ReturnedCount(ps) <= |ps|
  {
    if ps != [] {
      CountBelow(ps[1..]);
    }
  }

  lemma {:induction false} BackStorable(ps: seq<Param>, o: Outcome, i: nat)
    requires |o.left| == |ps| && i < |BackItems(ps, o.left)|
    requires forall j | 0 <= j < |ps| :: ps[j].returned ==> ps[j].kind == TYPE_DATA
    requires ReturnedSizes(ps) < 0x1_0000_0000
    ensures Storable(BackItems(ps, o.left)[i].param)
    ensures BackItems(ps, o.left)[i].param == Param(TYPE_DATA, false, false, BackItems(ps, o.left)[i].param.length)
    decreases |ps|
  {
    var rest := BackItems(ps[1..], o.left[1..]);
    if SentBack(ps[0]) {
      if i > 0 {
        BackStorable(ps[1..], o.(left := o.left[1..]), i - 1);
        assert BackItems(ps, o.left)[i] == rest[i - 1];
      }
    } else {
      BackStorable(ps[1..], o.(left := o.left[1..]), i);
      assert BackItems(ps, o.left)[i] == rest[i];
    }
  }

  /** What a caller finds after a call: the handler's result and error number, in every returned buffer what
      the handler left in the matching one, and every other argument as it was. */
  lemma {:induction false} ReplyRoundTrip(items: seq<Item>, args: seq<Value>, o: Outcome)
    requires AllMadeFrom(items, args) && Kept(ParamsIn(items), o)
    ensures var ps, r, to := ParamsIn(items), ReplyItems(ParamsIn(items), o), ReturnedAt(ParamsIn(items), 0);
            && (forall i | 0 <= i < |to| :: to[i] < |args|)
            && |r| == 2 + |to| && 12 + DataSizes(ParamsIn(r)[2..]) == |DataIn(r)|
            && Unpack(ParamsIn(r), DataIn(r), to, args)
               == Done(SignExtend(o.value), o.errno, Restored(ps, o.left, 0, args))
  {
    hide MadeFrom, Proper, Encode, Decode, UnpackFrom, BackItems, Restored;
    var ps, r, to := ParamsIn(items), ReplyItems(ParamsIn(items), o), ReturnedAt(ParamsIn(items), 0);
    var back := BackItems(ps, o.left);
    MadeMatching(items, args, o);
    UnpackBack(ps, o.left, 0, args);
    DataInConcat(FixedItems(o.value, o.errno), back);
    FixedSize(o.value, o.errno);
    assert ParamsIn(r)[2..] == ParamsIn(back);
    var fixed := Encode(SignExtend(o.value), 8) + Encode(o.errno, 4);
    assert DataIn(r)[12..] == DataIn(back);
    assert DataIn(r)[..8] == Encode(SignExtend(o.value), 8) && DataIn(r)[8..12] == Encode(o.errno, 4);
    FixedRoundTrip(o.value, o.errno);
  }

  lemma {:induction false} FixedRoundTrip(value: int, errno: nat)
    requires -0x8000_0000 <= value < 0x8000_0000 && errno < 0x1_0000_0000
    ensures Decode(Encode(SignExtend(value), 8)) == SignExtend(value) && Decode(Encode(errno, 4)) == errno
  {
    Ranges();
    DecodeEncode(SignExtend(value), 8);
    DecodeEncode(errno, 4);
  }

  lemma {:induction false} MadeMatching(items: seq<Item>, args: seq<Value>, o: Outcome)
    requires AllMadeFrom(items, args) && Kept(ParamsIn(items), o)
    ensures AllMatching(ParamsIn(items), 0, args, o.left)
  {
    forall i | 0 <= i < |items|
      ensures Matching(ParamsIn(items)[i], args[0 + i], o.left[i])
    {
      assert MadeFrom(items[i], args[i]);
    }
  }

  lemma {:induction false} LengthBelow(items: seq<Item>, vs: seq<Value>, i: nat)
    requires AllMadeFrom(items, vs) && i < |items|
    ensures items[i].param.length <= |DataIn(items)| + ReturnedSizes(ParamsIn(items))
            && items[i].param.kind <= TYPE_DATA
    decreases |items|
  {
    hide MadeFrom, Proper;
    assert ParamsIn(items)[1..] == ParamsIn(items[1..]);
    if i == 0 {
      FirstLength(items[0], vs[0]);
    } else {
      LengthBelow(items[1..], vs[1..], i - 1);
    }
  }

  lemma {:induction false} FirstLength(item: Item, v: Value)
    requires MadeFrom(item, v) && Proper(v)
    ensures item.param.kind <= TYPE_DATA && (item.param.length <= |item.data| || item.param.returned)
  {
  }

  lemma {:induction false} RequestSendable(call: nat, items: seq<Item>, vs: seq<Value>)
    requires AllMadeFrom(items, vs) && call < 0x1_0000 && |items| <= MAX_PARAMS
    requires Length(RequestOf(call, items)) + ReplySize(ParamsIn(items)) < 0x1_0000_0000
    ensures Sendable(RequestOf(call, items)) && |DataIn(items)| == DataSizes(ParamsIn(items))
  {
    hide MadeFrom, Proper;
    forall i | 0 <= i < |items|
      ensures Storable(ParamsIn(items)[i]) && ItemOk(items[i])
    {
      LengthBelow(items, vs, i);
      ArgueMeant(items[i], vs[i], []);
      WidthIsSize(items[i], vs[i]);
    }
    DataInSize(items);
  }

  lemma {:induction false} WidthIsSize(item: Item, v: Value)
    requires MadeFrom(item, v) && Proper(v)
    ensures ItemOk(item)
  {
  }

  /** A call that the protocol can carry: at most six arguments, and sizes that fit into an int. */
  ghost predicate Carried(call: nat, format: string, args: seq<Value>)
  {
    && ParseFrom(format, 0, args, 0).Parsed?
    && (forall j | 0 <= j < |args| :: Proper(args[j]))
    && var items := ParseFrom(format, 0, args, 0).items;
       && call < 0x1_0000 && |items| <= MAX_PARAMS
       && Length(RequestOf(call, items)) < 0x8000_0000 && ReplySize(ParamsIn(items)) < 0x8000_0000
  }

  /** What the handler sees of an argument: numbers and strings as they are, a buffer with the caller's bytes, or
      with zeros if it only comes back; NULL for NULL and for an empty buffer. */
  predicate Seen(direction: char, kind: char, v: Value, a: Argument)
  {
    && (kind == 'i' ==> v.Word? && a == Int32(v.word))
    && (kind == 'I' ==> v.Long? && a == Int64(v.long))
    && (kind == 's' ==> v.Text? && a == CString(v.text))
    && (kind == 'd' ==>
          && v.Buffer?
          && (v.contents.None? || v.size == 0 ==> a == Pointer(None))
          && (v.contents.Some? && v.size > 0 && direction == '<' ==> a == Pointer(Some(seq(v.size, _ => 0))))
          && (v.contents.Some? && v.size > 0 && direction != '<' ==> a == Pointer(v.contents)))
  }

  lemma {:induction false} ZerosAre(n: nat)
    ensures Zeros(n) == seq(n, _ => 0)
  {
    if n > 0 {
      ZerosAre(n - 1);
    }
  }

  lemma {:induction false} MeantSeen(direction: char, kind: char, v: Value, item: Item)
    requires Suits(direction, kind, v) && Describes(direction, kind, v, item)
    ensures Seen(direction, kind, v, Meant(v, item.param.zeroed))
  {
    if v.Buffer? {
      ZerosAre(v.size);
    }
  }

  /** The request, for every format and argument list that the client accepts: the server takes exactly the
      bytes off the stream that the client has computed and sent, whatever follows, and its handler sees the
      client's arguments in order, as the characters of the format say. */
  lemma {:induction false} RequestArrives(call: nat, format: string, args: seq<Value>, rest: seq<Byte>, i: nat)
    requires Carried(call, format, args)
    ensures var d, items := Dense(format), ParseFrom(format, 0, args, 0).items;
            var ps, s := ParamsIn(items), EncodeMessage(RequestOf(call, items)) + rest;
            && |d| == 2 * |items| && |items| <= |args| && Announced(s) && ParamsOf(s) == ps
            && Taken(s) == FrameSize(s) == SizesOf(ps).dataLength == Length(RequestOf(call, items))
            && s[HEADER_SIZE + 8 * |ps|..FrameSize(s)] == DataIn(items)
            && Widths(ps) <= |DataIn(items)|
            && (i < |items| ==> Seen(d[2 * i], d[2 * i + 1], args[i], Rebuild(ps, DataIn(items))[i]))
  {
    hide MadeFrom, Proper, EncodeMessage, Sendable, Meant, ParseFrom, Dense, Suits, Describes, Seen;
    var items := ParseFrom(format, 0, args, 0).items;
    ParseMadeFrom(format, 0, args, 0);
    ParseMeans(format, 0, args, 0, i);
    assert args[0..] == args && format[0..] == format;
    RequestSendable(call, items, args);
    FrameSync(RequestOf(call, items), rest);
    MessageFields(RequestOf(call, items), rest);
    MadeWidths(items, args);
    if i < |items| {
      RebuildMeant(items, args, i);
      MeantSeen(Dense(format)[2 * i], Dense(format)[2 * i + 1], args[i], items[i]);
    }
  }

  /** What the caller finds in argument `j`: what the handler left, in a buffer that the format says comes back; and
      else what was there. */
  predicate Found(d: string, j: nat, was: Value, left: seq<seq<Byte>>, now: Value)
  {
    if 2 * j + 1 < |d| && d[2 * j + 1] == 'd' && (d[2 * j] == '<' || d[2 * j] == '?') && j < |left|
       && was.Buffer? && was.contents.Some?
    then now == Buffer(was.size, Some(left[j]))
    else now == was
  }

  /** The reply starts with the result, with its sign in 64 bits, and the error number. */
  lemma {:induction false} ReplyStarts(client: nat, call: nat, ps: seq<Param>, o: Outcome)
    requires Kept(ps, o)
    ensures var m := ReplyOf(client, call, ps, o);
            && |m.params| >= 2 && |m.data| >= 12
            && m.params[0] == Param(2, false, false, 8) && m.params[1] == Param(1, false, false, 4)
            && Decode(m.data[..8]) == (if o.value < 0 then 0x1_0000_0000_0000_0000 + o.value else o.value)
            && Decode(m.data[8..12]) == o.errno
  {
    hide Encode, BackItems;
    var fixed, back := FixedItems(o.value, o.errno), BackItems(ps, o.left);
    DataInConcat(fixed, back);
    FixedSize(o.value, o.errno);
    FixedRoundTrip(o.value, o.errno);
    var data := DataIn(fixed + back);
    assert data[..8] == Encode(SignExtend(o.value), 8) && data[8..12] == Encode(o.errno, 4);
  }

  /** The reply: it is as long as the client has computed, and after it every buffer of the caller that the format
      says comes back holds what the handler left in the matching one, while all other arguments are untouched. */
  lemma {:induction false} ReplyArrives(call: nat, client: nat, format: string, args: seq<Value>, o: Outcome,
                                        rest: seq<Byte>)
    requires Carried(call, format, args) && client < 0x1_0000_0000
    requires Kept(ParamsIn(ParseFrom(format, 0, args, 0).items), o)
    ensures var items := ParseFrom(format, 0, args, 0).items;
            var ps := ParamsIn(items);
            var m := ReplyOf(client, call, ps, o);
            var s := EncodeMessage(m) + rest;
            && |items| <= |args| && Length(m) == SizesOf(ps).returnLength
            && HEADER_SIZE + 8 * CountOf(s) <= |s| && ParamsOf(s) == m.params
            && s[HEADER_SIZE + 8 * |m.params|..Length(m)] == m.data
            && (forall j | 0 <= j < |ReturnedAt(ps, 0)| :: ReturnedAt(ps, 0)[j] < |args|)
            && (WellFormedReply(m.params, |ReturnedAt(ps, 0)|) ==> 12 + DataSizes(m.params[2..]) <= |m.data|)
            && var u := Unpack(m.params, m.data, ReturnedAt(ps, 0), args);
               && u.Done? && u.errno == o.errno
               && u.value == (if o.value < 0 then 0x1_0000_0000_0000_0000 + o.value else o.value)
               && |u.args| == |args|
               && forall j | 0 <= j < |args| :: Found(Dense(format), j, args[j], o.left, u.args[j])
  {
    hide MadeFrom, Proper, EncodeMessage, Sendable, ParseFrom, Unpack, ReplyItems, Dense;
    var items := ParseFrom(format, 0, args, 0).items;
    ParseMadeFrom(format, 0, args, 0);
    assert args[0..] == args;
    ReplyLength(client, call, items, args, o);
    ReplySendable(client, call, items, args, o);
    MessageFields(ReplyOf(client, call, ParamsIn(items), o), rest);
    ReplyRoundTrip(items, args, o);
    RestoredFound(format, args, o);
  }

  lemma {:induction false} RestoredFound(format: string, args: seq<Value>, o: Outcome)
    requires ParseFrom(format, 0, args, 0).Parsed? && |o.left| == |ParseFrom(format, 0, args, 0).items|
    requires |ParseFrom(format, 0, args, 0).items| <= |args|
    ensures var ps := ParamsIn(ParseFrom(format, 0, args, 0).items);
            forall j | 0 <= j < |args| :: Found(Dense(format), j, args[j], o.left, Restored(ps, o.left, 0, args)[j])
  {
    hide ParseFrom, Dense;
    assert format[0..] == format;
    var items := ParseFrom(format, 0, args, 0).items;
    forall j | 0 <= j < |args|
      ensures Found(Dense(format), j, args[j], o.left, Restored(ParamsIn(items), o.left, 0, args)[j])
    {
      ParseMeans(format, 0, args, 0, j);
    }
  }
}
