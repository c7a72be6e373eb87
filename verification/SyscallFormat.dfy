/** What a format string means, over its characters: without spaces it is a sequence of pairs, a direction and a
    type, and the k-th pair describes the k-th argument. */
module SyscallFormat {
  import opened Bytes
  import opened SyscallWire
  import opened SyscallClient

  /** A format without its spaces. */
  function Dense(format: string): string
  {
    if format == "" then ""
    else if format[0] == ' ' then Dense(format[1..])
    else [format[0]] + Dense(format[1..])
  }

  /** The direction is one from the handler to the caller. */
  predicate Back(direction: char)
  {
    direction == '<' || direction == '?'
  }

  /** The pair can describe the argument.  Numbers and strings do not come back. */
  predicate Suits(direction: char, kind: char, v: Value)
  {
    if kind == 'd' then v.Buffer?
    else
      && !Back(direction)
      && ((kind == 'i' && v.Word?) || (kind == 'I' && v.Long?) || (kind == 's' && v.Text?))
  }

  /** The pair is no entry of any format. */
  predicate Bad(direction: char, kind: char)
  {
    if kind == 'd' then false
    else Back(direction) || (kind != 'i' && kind != 'I' && kind != 's')
  }

  /** What the item must be: a buffer is returned just if the direction is '<' or '?', and left out of the message
      and zeroed by the server just if it is '<'. */
  predicate Describes(direction: char, kind: char, v: Value, item: Item)
  {
    && (kind == 'i' ==> v.Word? && item == Item(Param(1, false, false, 4), Encode(v.word, 4)))
    && (kind == 'I' ==> v.Long? && item == Item(Param(2, false, false, 8), Encode(v.long, 8)))
    && (kind == 's' ==> v.Text? && item == Item(Param(3, false, false, |v.text| + 1), v.text + [0]))
    && (kind == 'd' ==>
          && v.Buffer? && item.param.kind == 4
          && (item.param.returned <==> direction == '<' || direction == '?')
          && (item.param.zeroed <==> direction == '<')
          && item.param.length == (if v.contents.Some? then v.size else 0)
          && item.data == (if v.contents.Some? && direction != '<' then v.contents.value else []))
  }

  // ---------------------------------------------------------------- spaces

  lemma {:induction false} DenseSkip(format: string, at: nat)
    requires at <= |format|
    ensures var a := SkipSpaces(format, at);
            && Dense(format[a..]) == Dense(format[at..])
            && (a < |format| ==> format[a] != ' ' && Dense(format[a..]) == [format[a]] + Dense(format[a + 1..]))
            && (a == |format| ==> Dense(format[at..]) == "")
    decreases |format| - at
  {
    if at < |format| {
      assert format[at..][1..] == format[at + 1..];
      if format[at] == ' ' {
        DenseSkip(format, at + 1);
      }
    }
  }

  /** The two characters of the next entry. */
  lemma {:induction false} DenseEntry(format: string, at: nat)
    requires at <= |format|
    ensures var d := Dense(format[at..]);
            var a := SkipSpaces(format, at);
            && (a == |format| <==> |d| == 0)
            && (a < |format| ==>
                  var b := SkipSpaces(format, a + 1);
                  && d[0] == format[a] && (b == |format| <==> |d| == 1)
                  && (b < |format| ==> d[1] == format[b] && Dense(format[b + 1..]) == d[2..]))
  {
    hide SkipSpaces, Dense;
    DenseSkip(format, at);
    var a := SkipSpaces(format, at);
    if a < |format| {
      DenseSkip(format, a + 1);
      var d, b := Dense(format[at..]), SkipSpaces(format, a + 1);
      if b < |format| {
        assert d == [format[a]] + ([format[b]] + Dense(format[b + 1..]));
      }
    }
  }

  /** Reading one entry, in terms of its characters. */
  lemma {:induction false} EntryMeans(format: string, at: nat, args: seq<Value>, k: nat)
    requires at <= |format|
    ensures var d, r := Dense(format[at..]), ReadEntry(format, at, args, k);
            && (|d| < 2 <==> r.Ended?)
            && (|d| >= 2 ==>
                  && (r.Refused? <==> Bad(d[0], d[1]))
                  && (r.Read? <==> k < |args| && Suits(d[0], d[1], args[k]))
                  && (r.Read? ==> Describes(d[0], d[1], args[k], r.item) && Dense(format[r.next..]) == d[2..]))
  {
    hide SkipSpaces, Dense, Encode;
    DenseEntry(format, at);
  }

  // ---------------------------------------------------------------- whole formats

  /** Every pair describes its argument. */
  ghost predicate AllSuit(d: string, args: seq<Value>)
  {
    && |d| % 2 == 0 && |d| / 2 <= |args|
    && forall i | 0 <= i < |d| / 2 :: Suits(d[2 * i], d[2 * i + 1], args[i])
  }

  lemma {:induction false} AllSuitFirst(d: string, args: seq<Value>)
    requires |d| >= 2
    ensures AllSuit(d, args) <==> args != [] && Suits(d[0], d[1], args[0]) && AllSuit(d[2..], args[1..])
  {
    hide AllSuit, Suits;
    if AllSuit(d, args) {
      AllSuitDown(d, args);
    }
    if args != [] && Suits(d[0], d[1], args[0]) && AllSuit(d[2..], args[1..]) {
      AllSuitUp(d, args);
    }
  }

  lemma {:induction false} AllSuitDown(d: string, args: seq<Value>)
    requires |d| >= 2 && AllSuit(d, args)
    ensures args != [] && Suits(d[0], d[1], args[0]) && AllSuit(d[2..], args[1..])
  {
    hide Suits;
    assert Suits(d[2 * 0], d[2 * 0 + 1], args[0]);
    forall i | 0 <= i < |d[2..]| / 2
      ensures Suits(d[2..][2 * i], d[2..][2 * i + 1], args[1..][i])
    {
      assert Suits(d[2 * (i + 1)], d[2 * (i + 1) + 1], args[i + 1]);
    }
  }

  lemma {:induction false} AllSuitUp(d: string, args: seq<Value>)
    requires |d| >= 2 && args != [] && Suits(d[0], d[1], args[0]) && AllSuit(d[2..], args[1..])
    ensures AllSuit(d, args)
  {
    hide Suits;
    forall i | 0 <= i < |d| / 2
      ensures Suits(d[2 * i], d[2 * i + 1], args[i])
    {
      if i > 0 {
        assert Suits(d[2..][2 * (i - 1)], d[2..][2 * (i - 1) + 1], args[1..][i - 1]);
      }
    }
  }

  /** A format ends with an entry, not with spaces. */
  predicate Tidy(format: string)
  {
    format == "" || format[|format| - 1] != ' '
  }

  lemma {:induction false} TidyEnd(format: string, at: nat)
    requires at < |format|
    ensures Tidy(format) && at > 0 ==> Dense(format[at..]) != ""
    ensures Dense(format[at..]) == "" ==> !Tidy(format)
    decreases |format| - at
  {
    assert format[at..][1..] == format[at + 1..];
    if format[at] == ' ' && at + 1 < |format| {
      TidyEnd(format, at + 1);
    }
  }

  /** Behind the last entry nothing is left, just if the format does not end with spaces. */
  lemma {:induction false} TidyRest(format: string, at: nat)
    requires at <= |format| && (at == |format| ==> at == 0 || format[at - 1] != ' ')
    ensures Dense(format[at..]) == "" ==> (at == |format| <==> Tidy(format))
  {
    if at < |format| {
      TidyEnd(format, at);
    }
  }

  /** A format parses, exactly if it does not end with spaces and its pairs describe the arguments. */
  lemma {:induction false} ParseExact(format: string, at: nat, args: seq<Value>, k: nat)
    requires at <= |format| && k <= |args| && (at > 0 ==> format[at - 1] != ' ')
    ensures ParseFrom(format, at, args, k).Parsed? <==> Tidy(format) && AllSuit(Dense(format[at..]), args[k..])
    decreases |format| - at
  {
    hide ReadEntry, Dense, Suits, Describes, AllSuit, Bad, Tidy;
    var d := Dense(format[at..]);
    TidyRest(format, at);
    if at == |format| {
      DenseNone(format);
      AllSuitNone(args[k..]);
    } else {
      EntryMeans(format, at, args, k);
      var r := ReadEntry(format, at, args, k);
      if |d| >= 2 {
        AllSuitFirst(d, args[k..]);
        if r.Read? {
          EntryEnds(format, at, args, k);
          ParseExact(format, r.next, args, k + 1);
          assert args[k..][1..] == args[k + 1..];
        }
      } else {
        AllSuitShort(d, args[k..]);
      }
    }
  }

  lemma {:induction false} DenseNone(format: string)
    ensures Dense(format[|format|..]) == ""
  {
  }

  lemma {:induction false} AllSuitNone(args: seq<Value>)
    ensures AllSuit("", args)
  {
  }

  lemma {:induction false} AllSuitShort(d: string, args: seq<Value>)
    requires |d| < 2
    ensures AllSuit(d, args) <==> |d| == 0
  {
  }

  /** An entry ends with the character of its type. */
  lemma {:induction false} EntryEnds(format: string, at: nat, args: seq<Value>, k: nat)
    requires at <= |format| && ReadEntry(format, at, args, k).Read?
    ensures format[ReadEntry(format, at, args, k).next - 1] != ' '
  {
    hide SkipSpaces, Encode;
  }

  /** In a format that parses, the k-th item is what the k-th pair of characters says. */
  lemma {:induction false} ParseMeans(format: string, at: nat, args: seq<Value>, k: nat, i: nat)
    requires at <= |format| && k <= |args| && ParseFrom(format, at, args, k).Parsed?
    ensures var d, items := Dense(format[at..]), ParseFrom(format, at, args, k).items;
            && |d| == 2 * |items| && k + |items| <= |args|
            && (i < |items| ==> Suits(d[2 * i], d[2 * i + 1], args[k + i])
                                && Describes(d[2 * i], d[2 * i + 1], args[k + i], items[i]))
    decreases |format| - at
  {
    hide ReadEntry, Dense, Suits, Describes, Bad;
    if at == |format| {
      DenseNone(format);
    } else {
      EntryMeans(format, at, args, k);
      var r := ReadEntry(format, at, args, k);
      ParseMeans(format, r.next, args, k + 1, if i == 0 then 0 else i - 1);
    }
  }

  /** A format is refused, exactly if a bad pair follows pairs that describe their arguments: a number or a string
      that would come back, or an unknown type. */
  lemma {:induction false} RefusedExactly(format: string, at: nat, args: seq<Value>, k: nat)
    requires at <= |format| && k <= |args|
    ensures ParseFrom(format, at, args, k).Failed? <==> exists i: nat :: Spoils(Dense(format[at..]), args[k..], i)
    decreases |format| - at
  {
    hide ReadEntry, Dense, Suits, Describes, Bad, Spoils;
    var d := Dense(format[at..]);
    if at == |format| {
      DenseNone(format);
      SpoilsShort(d, args[k..]);
    } else {
      EntryMeans(format, at, args, k);
      var r := ReadEntry(format, at, args, k);
      if |d| < 2 {
        SpoilsShort(d, args[k..]);
      } else {
        SpoilsFirst(d, args[k..]);
        if r.Read? {
          RefusedExactly(format, r.next, args, k + 1);
          assert args[k..][1..] == args[k + 1..];
        }
      }
    }
  }

  /** The i-th pair is bad and those before it describe their arguments. */
  ghost predicate Spoils(d: string, args: seq<Value>, i: nat)
  {
    && 2 * i + 1 < |d| && Bad(d[2 * i], d[2 * i + 1]) && i <= |args|
    && forall j | 0 <= j < i :: Suits(d[2 * j], d[2 * j + 1], args[j])
  }

  lemma {:induction false} SpoilsShort(d: string, args: seq<Value>)
    requires |d| < 2
    ensures forall i: nat :: !Spoils(d, args, i)
  {
  }

  lemma {:induction false} SpoilsFirst(d: string, args: seq<Value>)
    requires |d| >= 2
    ensures (exists i: nat :: Spoils(d, args, i)) <==>
            Bad(d[0], d[1])
            || (args != [] && Suits(d[0], d[1], args[0]) && exists i: nat :: Spoils(d[2..], args[1..], i))
  {
    hide Suits, Bad;
    if Bad(d[0], d[1]) {
      assert Spoils(d, args, 0);
    } else {
      forall i: nat
        ensures Spoils(d, args, i) ==> i > 0 && args != [] && Suits(d[0], d[1], args[0])
                                       && Spoils(d[2..], args[1..], i - 1)
      {
        if Spoils(d, args, i) {
          SpoilsDown(d, args, i);
        }
      }
      if args != [] && Suits(d[0], d[1], args[0]) {
        forall i: nat
          ensures Spoils(d[2..], args[1..], i) ==> Spoils(d, args, i + 1)
        {
          if Spoils(d[2..], args[1..], i) {
            SpoilsUp(d, args, i);
          }
        }
      }
    }
  }

  lemma {:induction false} SpoilsDown(d: string, args: seq<Value>, i: nat)
    requires |d| >= 2 && Spoils(d, args, i) && !Bad(d[0], d[1])
    ensures i > 0 && args != [] && Suits(d[0], d[1], args[0]) && Spoils(d[2..], args[1..], i - 1)
  {
    hide Suits, Bad;
    assert i > 0;
    assert Suits(d[2 * 0], d[2 * 0 + 1], args[0]);
    forall j | 0 <= j < i - 1
      ensures Suits(d[2..][2 * j], d[2..][2 * j + 1], args[1..][j])
    {
      assert Suits(d[2 * (j + 1)], d[2 * (j + 1) + 1], args[j + 1]);
    }
  }

  lemma {:induction false} SpoilsUp(d: string, args: seq<Value>, i: nat)
    requires |d| >= 2 && args != [] && Suits(d[0], d[1], args[0]) && Spoils(d[2..], args[1..], i)
    ensures Spoils(d, args, i + 1)
  {
    hide Suits, Bad;
    forall j | 0 <= j < i + 1
      ensures Suits(d[2 * j], d[2 * j + 1], args[j])
    {
      if j > 0 {
        assert Suits(d[2..][2 * (j - 1)], d[2..][2 * (j - 1) + 1], args[1..][j - 1]);
      }
    }
  }
}
