/** The bytes of a system call message: a header, a parameter block for every argument, and their data. */
module SyscallWire {
  import opened Bytes

  const HEADER_SIZE := 12
  const PARAM_SIZE := 8 // written out as 8 where it is multiplied

  const TYPE_INT32 := 1
  const TYPE_INT64 := 2
  const TYPE_STRING := 3
  const TYPE_DATA := 4

  /** Pass back in the return message. */
  const FLAG_RETURN := 0x40
  /** Not present in the message, just fill with zero. */
  const FLAG_ZEROED := 0x80

  datatype Param = Param(kind: nat, returned: bool, zeroed: bool, length: nat)

  datatype Message = Message(client: nat, call: nat, params: seq<Param>, data: seq<Byte>)

  function Flags(p: Param): nat
  {
    (if p.returned then FLAG_RETURN else 0) + (if p.zeroed then FLAG_ZEROED else 0)
  }

  predicate Bit(flags: nat, flag: nat)
    requires flag > 0
  {
    (flags / flag) % 2 == 1
  }

  // ---------------------------------------------------------------- encoding

  function EncodeParam(p: Param): (s: seq<Byte>)
    ensures |s| == PARAM_SIZE
  {
    Encode(p.kind, 2) + Encode(Flags(p), 2) + Encode(p.length, 4)
  }

  function EncodeParams(ps: seq<Param>): (s: seq<Byte>)
    ensures |s| == 8 * |ps|
  {
    if ps == [] then [] else EncodeParam(ps[0]) + EncodeParams(ps[1..])
  }

  function EncodeHeader(client: nat, length: nat, call: nat, count: nat): (s: seq<Byte>)
    ensures |s| == HEADER_SIZE
  {
    Encode(client, 4) + Encode(length, 4) + Encode(call, 2) + Encode(count, 2)
  }

  function Length(m: Message): nat
  {
    HEADER_SIZE + 8 * |m.params| + |m.data|
  }

  function EncodeMessage(m: Message): (s: seq<Byte>)
    ensures |s| == Length(m)
  {
    EncodeHeader(m.client, Length(m), m.call, |m.params|) + EncodeParams(m.params) + m.data
  }

  // ---------------------------------------------------------------- decoding

  function DecodeParam(s: seq<Byte>): Param
    requires |s| == PARAM_SIZE
  {
    var flags := Decode(s[2..4]);
    Param(Decode(s[..2]), Bit(flags, FLAG_RETURN), Bit(flags, FLAG_ZEROED), Decode(s[4..]))
  }

  function DecodeParams(s: seq<Byte>, n: nat): (ps: seq<Param>)
    requires |s| >= 8 * n
    ensures |ps| == n
  {
    if n == 0 then [] else [DecodeParam(s[..PARAM_SIZE])] + DecodeParams(s[PARAM_SIZE..], n - 1)
  }

  /** The number of parameters that a header announces. */
  function CountOf(s: seq<Byte>): nat
    requires |s| >= HEADER_SIZE
  {
    Decode(s[10..12])
  }

  function ParamsOf(s: seq<Byte>): seq<Param>
    requires |s| >= HEADER_SIZE && |s| >= HEADER_SIZE + 8 * CountOf(s)
  {
    DecodeParams(s[HEADER_SIZE..], CountOf(s))
  }

  /** The data that a parameter puts into the message. */
  function DataSize(p: Param): nat
  {
    if p.zeroed then 0 else p.length
  }

  function DataSizes(ps: seq<Param>): nat
  {
    if ps == [] then 0 else DataSize(ps[0]) + DataSizes(ps[1..])
  }

  predicate Storable(p: Param)
  {
    p.kind < 0x1_0000 && p.length < 0x1_0000_0000
  }

  // ---------------------------------------------------------------- round trips

  lemma {:induction false} ParamRoundTrip(p: Param)
    requires Storable(p)
    ensures DecodeParam(EncodeParam(p)) == p
  {
    Ranges();
    DecodeEncode(p.kind, 2);
    DecodeEncode(Flags(p), 2);
    DecodeEncode(p.length, 4);
    var s := EncodeParam(p);
    assert s[..2] == Encode(p.kind, 2) && s[2..4] == Encode(Flags(p), 2) && s[4..] == Encode(p.length, 4);
  }

  lemma {:induction false} ParamsRoundTrip(ps: seq<Param>, rest: seq<Byte>)
    requires forall i | 0 <= i < |ps| :: Storable(ps[i])
    ensures DecodeParams(EncodeParams(ps) + rest, |ps|) == ps
  {
    hide EncodeParam, DecodeParam;
    if ps == [] {
    } else {
      var s := EncodeParams(ps) + rest;
      ParamRoundTrip(ps[0]);
      ParamsRoundTrip(ps[1..], rest);
      assert s[..PARAM_SIZE] == EncodeParam(ps[0]);
      assert s[PARAM_SIZE..] == EncodeParams(ps[1..]) + rest;
    }
  }

  lemma {:induction false} HeaderFields(client: nat, length: nat, call: nat, count: nat)
    requires client < 0x1_0000_0000 && length < 0x1_0000_0000 && call < 0x1_0000 && count < 0x1_0000
    ensures var s := EncodeHeader(client, length, call, count);
            Decode(s[..4]) == client && Decode(s[4..8]) == length && Decode(s[8..10]) == call
            && Decode(s[10..12]) == count
  {
    Ranges();
    DecodeEncode(client, 4);
    DecodeEncode(length, 4);
    DecodeEncode(call, 2);
    DecodeEncode(count, 2);
    var s := EncodeHeader(client, length, call, count);
    assert s[..4] == Encode(client, 4) && s[4..8] == Encode(length, 4);
    assert s[8..10] == Encode(call, 2) && s[10..12] == Encode(count, 2);
  }

  ghost predicate Sendable(m: Message)
  {
    && m.client < 0x1_0000_0000 && Length(m) < 0x1_0000_0000 && m.call < 0x1_0000 && |m.params| < 0x1_0000
    && forall i | 0 <= i < |m.params| :: Storable(m.params[i])
  }

  /** What a message says of itself can be read back from its bytes, whatever follows. */
  lemma {:induction false} MessageFields(m: Message, rest: seq<Byte>)
    requires Sendable(m)
    ensures var s := EncodeMessage(m) + rest;
            && CountOf(s) == |m.params| && ParamsOf(s) == m.params
            && Decode(s[..4]) == m.client && Decode(s[4..8]) == Length(m) && Decode(s[8..10]) == m.call
            && s[HEADER_SIZE + 8 * |m.params|..Length(m)] == m.data
  {
    var s, h := EncodeMessage(m) + rest, EncodeHeader(m.client, Length(m), m.call, |m.params|);
    HeaderFields(m.client, Length(m), m.call, |m.params|);
    assert s[..HEADER_SIZE] == h;
    assert s[..4] == h[..4] && s[4..8] == h[4..8] && s[8..10] == h[8..10] && s[10..12] == h[10..12];
    assert s[HEADER_SIZE..] == EncodeParams(m.params) + (m.data + rest);
    ParamsRoundTrip(m.params, m.data + rest);
  }

  lemma {:induction false} EncodeParamsAt(ps: seq<Param>, i: nat)
    requires i < |ps|
    ensures EncodeParams(ps)[8 * i..8 * i + 8] == EncodeParam(ps[i])
  {
    hide EncodeParam;
    if i > 0 {
      EncodeParamsAt(ps[1..], i - 1);
      assert EncodeParams(ps)[8..][8 * (i - 1)..8 * (i - 1) + 8] == EncodeParams(ps)[8 * i..8 * i + 8];
    }
  }

  /** Where the fields of a parameter block are in a message, and which bits its flags are. */
  lemma {:induction false} ParamAt(m: Message, rest: seq<Byte>, i: nat)
    requires Sendable(m) && i < |m.params|
    ensures var s, at, p := EncodeMessage(m) + rest, 12 + 8 * i, m.params[i];
            && at + 8 <= |s| && Decode(s[at..at + 2]) == p.kind && Decode(s[at + 4..at + 8]) == p.length
            && Decode(s[at + 2..at + 4]) == (if p.returned then 0x40 else 0) + if p.zeroed then 0x80 else 0
  {
    hide Encode, EncodeParams;
    var s, at, p := EncodeMessage(m) + rest, 12 + 8 * i, m.params[i];
    EncodeParamsAt(m.params, i);
    assert s[at..at + 8] == EncodeParams(m.params)[8 * i..8 * i + 8];
    EightBytes(s, at);
    ParamFields(p);
  }

  lemma {:induction false} EightBytes(s: seq<Byte>, at: nat)
    requires at + 8 <= |s|
    ensures var e := s[at..at + 8];
            s[at..at + 2] == e[..2] && s[at + 2..at + 4] == e[2..4] && s[at + 4..at + 8] == e[4..]
  {
    var e := s[at..at + 8];
    assert forall k | 0 <= k < 8 :: e[k] == s[at + k];
    Window(s, at, e, 0, 2);
    Window(s, at, e, 2, 4);
    Window(s, at, e, 4, 8);
  }

  lemma {:induction false} Window(s: seq<Byte>, at: nat, e: seq<Byte>, lo: nat, hi: nat)
    requires at + |e| <= |s| && lo <= hi <= |e| && forall k | 0 <= k < |e| :: e[k] == s[at + k]
    ensures s[at + lo..at + hi] == e[lo..hi]
  {
    forall k | 0 <= k < hi - lo
      ensures s[at + lo..at + hi][k] == e[lo..hi][k]
    {
      assert s[at + lo..at + hi][k] == s[at + (lo + k)] && e[lo..hi][k] == e[lo + k];
    }
  }

  lemma {:induction false} ParamFields(p: Param)
    requires Storable(p)
    ensures var s := EncodeParam(p);
            && Decode(s[..2]) == p.kind && Decode(s[4..]) == p.length
            && Decode(s[2..4]) == (if p.returned then 0x40 else 0) + if p.zeroed then 0x80 else 0
  {
    Ranges();
    DecodeEncode(p.kind, 2);
    DecodeEncode(Flags(p), 2);
    DecodeEncode(p.length, 4);
    var s := EncodeParam(p);
    assert s[..2] == Encode(p.kind, 2) && s[2..4] == Encode(Flags(p), 2) && s[4..] == Encode(p.length, 4);
  }

  lemma {:induction false} DataSizesAppend(a: seq<Param>, b: seq<Param>)
    ensures DataSizes(a + b) == DataSizes(a) + DataSizes(b)
  {
    if a == [] {
      assert a + b == b;
    } else {
      DataSizesAppend(a[1..], b);
      assert (a + b)[1..] == a[1..] + b;
    }
  }

  lemma {:induction false} EncodeParamsAppend(a: seq<Param>, b: seq<Param>)
    ensures EncodeParams(a + b) == EncodeParams(a) + EncodeParams(b)
  {
    hide EncodeParam;
    if a == [] {
      assert a + b == b;
    } else {
      EncodeParamsAppend(a[1..], b);
      assert (a + b)[1..] == a[1..] + b;
      Regroup(EncodeParam(a[0]), EncodeParams(a[1..]), EncodeParams(b));
    }
  }

  lemma {:induction false} Regroup(a: seq<Byte>, b: seq<Byte>, c: seq<Byte>)
    ensures a + (b + c) == (a + b) + c
  {
  }
}
