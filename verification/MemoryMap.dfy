/** The map of physical memory: entries with a start, a length, a type and a NUMA domain. */
module MemoryMap {

  datatype Kind = Free | Used | Reserved | Nvram | Unmapped

  datatype Entry = Entry(start: nat, length: nat, kind: Kind, domain: nat)

  /** What a map says of an address. */
  datatype Region = Hole | Region(kind: Kind, domain: nat)

  const PAGE := 0x1000
  const ADDRESSES := 0x1_0000_0000_0000_0000

  function End(e: Entry): nat
  {
    e.start + e.length
  }

  predicate Covers(e: Entry, a: nat)
  {
    e.start <= a < End(e)
  }

  function Meaning(m: seq<Entry>, a: nat): Region
  {
    if m == [] then Hole
    else if Covers(m[0], a) then Region(m[0].kind, m[0].domain)
    else Meaning(m[1..], a)
  }

  /** Entries do not overlap, and do not start together (which only an empty one could). */
  predicate Apart(e: Entry, f: Entry)
  {
    (End(e) <= f.start || End(f) <= e.start) && e.start != f.start
  }

  ghost predicate Disjoint(m: seq<Entry>)
  {
    forall i, j | 0 <= i < j < |m| :: Apart(m[i], m[j])
  }

  /** Sorted, without overlaps. */
  ghost predicate Ordered(m: seq<Entry>)
  {
    forall i, j | 0 <= i < j < |m| :: End(m[i]) <= m[j].start
  }

  // ---------------------------------------------------------------- meaning

  lemma {:induction false} MeaningConcat(x: seq<Entry>, y: seq<Entry>, a: nat)
    ensures Meaning(x + y, a) == if Meaning(x, a) != Hole then Meaning(x, a) else Meaning(y, a)
  {
    if x == [] {
      assert x + y == y;
    } else {
      MeaningConcat(x[1..], y, a);
      assert (x + y)[1..] == x[1..] + y;
    }
  }

  /** Replacing some entries in the middle by others that mean the same. */
  lemma {:induction false} MeaningReplace(x: seq<Entry>, y: seq<Entry>, y': seq<Entry>, z: seq<Entry>, a: nat)
    requires Meaning(y, a) == Meaning(y', a)
    ensures Meaning(x + y + z, a) == Meaning(x + y' + z, a)
  {
    MeaningConcat(x + y, z, a);
    MeaningConcat(x + y', z, a);
    MeaningConcat(x, y, a);
    MeaningConcat(x, y', a);
  }

  /** In a map without overlaps, the entry that covers an address decides. */
  lemma {:induction false} MeaningAt(m: seq<Entry>, k: nat, a: nat)
    requires Disjoint(m) && k < |m| && Covers(m[k], a)
    ensures Meaning(m, a) == Region(m[k].kind, m[k].domain)
  {
    if k > 0 {
      assert Apart(m[0], m[k]);
      MeaningAt(m[1..], k - 1, a);
    }
  }

  lemma {:induction false} MeaningNone(m: seq<Entry>, a: nat)
    requires forall k | 0 <= k < |m| :: !Covers(m[k], a)
    ensures Meaning(m, a) == Hole
  {
    if m != [] {
      MeaningNone(m[1..], a);
    }
  }

  lemma {:induction false} OneMeaning(e: Entry, a: nat)
    ensures Meaning([e], a) == if Covers(e, a) then Region(e.kind, e.domain) else Hole
  {
    assert [e][1..] == [];
  }

  lemma {:induction false} TwoMeaning(e: Entry, f: Entry, a: nat)
    ensures Meaning([e, f], a) == if Covers(e, a) then Region(e.kind, e.domain)
                                  else if Covers(f, a) then Region(f.kind, f.domain) else Hole
  {
    assert [e, f][1..] == [f];
    OneMeaning(f, a);
  }

  // ---------------------------------------------------------------- splitting

  function First(e: Entry, offset: nat): Entry
  {
    e.(length := offset)
  }

  function Second(e: Entry, offset: nat): Entry
    requires offset <= e.length
  {
    e.(start := e.start + offset, length := e.length - offset)
  }

  /** Split entry `k` in two. */
  function Split(m: seq<Entry>, k: nat, offset: nat): (r: seq<Entry>)
    requires k < |m| && offset <= m[k].length
    ensures |r| == |m| + 1
  {
    m[..k] + [First(m[k], offset), Second(m[k], offset)] + m[k + 1..]
  }

  lemma {:induction false} SplitMeaning(m: seq<Entry>, k: nat, offset: nat, a: nat)
    requires k < |m| && offset <= m[k].length
    ensures Meaning(Split(m, k, offset), a) == Meaning(m, a)
  {
    hide Meaning;
    TwoMeaning(First(m[k], offset), Second(m[k], offset), a);
    OneMeaning(m[k], a);
    MeaningReplace(m[..k], [m[k]], [First(m[k], offset), Second(m[k], offset)], m[k + 1..], a);
    assert m == m[..k] + [m[k]] + m[k + 1..];
  }

  lemma {:induction false} SplitOrder(m: seq<Entry>, k: nat, offset: nat)
    requires k < |m| && offset <= m[k].length && Ordered(m)
    ensures Ordered(Split(m, k, offset))
  {
    var r := Split(m, k, offset);
    forall i, j | 0 <= i < j < |r|
      ensures End(r[i]) <= r[j].start
    {
      var i', j' := if i <= k then i else i - 1, if j <= k then j else j - 1;
      assert i' < j' ==> End(m[i']) <= m[j'].start;
    }
  }

  /** Split an entry in place.  When there is no room, the entry is cut off and its rest is lost. */
  method SplitBlock(table: array<Entry>, n: nat, max: nat, block: nat, offset: nat) returns (r: nat)
    requires block < n <= max <= table.Length && offset <= table[block].length
    modifies table
    ensures n < max ==> r == n + 1 && table[..r] == Split(old(table[..n]), block, offset)
    ensures n == max ==> r == n && table[..r] == old(table[..n])[block := First(old(table[block]), offset)]
  {
    ghost var m := table[..n];
    var e := table[block];
    table[block] := e.(length := offset);
    if n == max {
      return n;
    }
    MoveUp(table, n, block + 1);
    table[block + 1] := Second(e, offset);
    r := n + 1;
    assert table[..r] == table[..block] + [table[block], table[block + 1]] + table[block + 2..n + 1];
  }

  /** Move the entries from position `from` on up by one. */
  method MoveUp(table: array<Entry>, n: nat, from: nat)
    requires from <= n < table.Length
    modifies table
    ensures table[..from] == old(table[..from]) && table[from + 1..n + 1] == old(table[from..n])
    ensures forall k | n < k < table.Length :: table[k] == old(table[k])
  {
    var i := n;
    while i > from
      invariant from <= i <= n
      invariant forall k | 0 <= k < i :: table[k] == old(table[k])
      invariant forall k | i < k <= n :: table[k] == old(table[k - 1])
      invariant forall k | n < k < table.Length :: table[k] == old(table[k])
    {
      table[i] := table[i - 1];
      i := i - 1;
    }
  }

  // ---------------------------------------------------------------- compacting

  /** Neighbours that the map can do without telling apart. */
  predicate Joinable(e: Entry, f: Entry)
  {
    End(e) >= f.start && e.kind == f.kind && e.domain == f.domain
  }

  function Joined(e: Entry, f: Entry): Entry
  {
    e.(length := e.length + f.length)
  }

  function Join(m: seq<Entry>, i: nat): seq<Entry>
    requires 0 < i < |m|
  {
    m[..i - 1] + [Joined(m[i - 1], m[i])] + m[i + 1..]
  }

  /** Join neighbours from position `i` on. */
  function CompactFrom(m: seq<Entry>, i: nat): seq<Entry>
    requires i > 0
    decreases |m| - i
  {
    if i >= |m| then m
    else if Joinable(m[i - 1], m[i]) then CompactFrom(Join(m, i), i)
    else CompactFrom(m, i + 1)
  }

  function Compact(m: seq<Entry>): seq<Entry>
  {
    CompactFrom(m, 1)
  }

  lemma {:induction false} JoinMeaning(m: seq<Entry>, i: nat, a: nat)
    requires 0 < i < |m| && Ordered(m) && Joinable(m[i - 1], m[i])
    ensures Meaning(Join(m, i), a) == Meaning(m, a)
  {
    hide Meaning;
    var e, f := m[i - 1], m[i];
    assert End(e) <= f.start;
    TwoMeaning(e, f, a);
    OneMeaning(Joined(e, f), a);
    MeaningReplace(m[..i - 1], [e, f], [Joined(e, f)], m[i + 1..], a);
    assert m == m[..i - 1] + [e, f] + m[i + 1..];
  }

  lemma {:induction false} JoinOrder(m: seq<Entry>, i: nat)
    requires 0 < i < |m| && Ordered(m) && Joinable(m[i - 1], m[i])
    ensures Ordered(Join(m, i))
  {
    var r := Join(m, i);
    assert End(m[i - 1]) <= m[i].start;
    forall p, q | 0 <= p < q < |r|
      ensures End(r[p]) <= r[q].start
    {
      assert End(m[if p < i - 1 then p else p + 1]) <= m[if q < i then q else q + 1].start;
    }
  }

  /** No two neighbours of the first `i` entries can be joined. */
  ghost predicate CompactTo(m: seq<Entry>, i: nat)
  {
    forall k | 0 < k < i && k < |m| :: !Joinable(m[k - 1], m[k])
  }

  /** Compacting keeps the meaning of every address and the order, and leaves no neighbours to join. */
  lemma {:induction false} CompactKeeps(m: seq<Entry>, i: nat, a: nat)
    requires i > 0 && Ordered(m) && CompactTo(m, i)
    ensures var r := CompactFrom(m, i);
            && Meaning(r, a) == Meaning(m, a)
            && Ordered(r) && CompactTo(r, |r|) && |r| <= |m|
    decreases |m| - i
  {
    hide Meaning, Ordered;
    if i < |m| {
      if Joinable(m[i - 1], m[i]) {
        JoinMeaning(m, i, a);
        JoinOrder(m, i);
        JoinCompact(m, i);
        CompactKeeps(Join(m, i), i, a);
      } else {
        CompactKeeps(m, i + 1, a);
      }
    }
  }

  lemma {:induction false} JoinCompact(m: seq<Entry>, i: nat)
    requires 0 < i < |m| && CompactTo(m, i)
    ensures CompactTo(Join(m, i), i)
  {
    var r := Join(m, i);
    forall k | 0 < k < i && k < |r|
      ensures !Joinable(r[k - 1], r[k])
    {
      assert !Joinable(m[k - 1], m[k]);
    }
  }

  /** Join neighbours in place. */
  method CompactMap(table: array<Entry>, n: nat) returns (r: nat)
    requires n <= table.Length
    modifies table
    ensures r <= n && table[..r] == Compact(old(table[..n]))
  {
    hide Joinable, Joined;
    r := n;
    var i := 1;
    while i < r
      invariant 1 <= i && r <= n
      invariant CompactFrom(table[..r], i) == Compact(old(table[..n]))
      decreases r - i
    {
      if Joinable(table[i - 1], table[i]) {
        ghost var m := table[..r];
        table[i - 1] := Joined(table[i - 1], table[i]);
        assert table[..i] == m[..i - 1] + [Joined(m[i - 1], m[i])] && table[i + 1..r] == m[i + 1..];
        MoveDown(table, r, i);
        r := r - 1;
        assert table[..r] == table[..i] + table[i..r];
        assert table[..r] == Join(m, i);
      } else {
        i := i + 1;
      }
    }
  }

  /** Move the entries behind position `to` down by one. */
  method MoveDown(table: array<Entry>, n: nat, to: nat)
    requires to < n <= table.Length
    modifies table
    ensures table[..to] == old(table[..to]) && table[to..n - 1] == old(table[to + 1..n])
  {
    var i := to;
    while i + 1 < n
      invariant to <= i < n
      invariant forall k | 0 <= k < to :: table[k] == old(table[k])
      invariant forall k | to <= k < i :: table[k] == old(table[k + 1])
      invariant forall k | i < k < n :: table[k] == old(table[k])
    {
      table[i] := table[i + 1];
      i := i + 1;
    }
  }

  // ---------------------------------------------------------------- sorting

  ghost predicate SortedTo(m: seq<Entry>, i: nat)
  {
    forall p, q | 0 <= p < q < |m| && p < i :: m[p].start <= m[q].start
  }

  function Swap(m: seq<Entry>, i: nat, j: nat): (r: seq<Entry>)
    requires i < |m| && j < |m|
  {
    m[i := m[j]][j := m[i]]
  }

  lemma {:induction false} SwapKeeps(m: seq<Entry>, i: nat, j: nat)
    requires Disjoint(m) && i < j < |m|
    ensures Disjoint(Swap(m, i, j))
  {
    var r := Swap(m, i, j);
    forall p, q | 0 <= p < q < |r|
      ensures Apart(r[p], r[q])
    {
      var p', q' := if p == i then j else if p == j then i else p, if q == i then j else if q == j then i else q;
      assert p' < q' ==> Apart(m[p'], m[q']);
      assert q' < p' ==> Apart(m[q'], m[p']);
    }
  }

  lemma {:induction false} SwapMeaning(m: seq<Entry>, i: nat, j: nat, a: nat)
    requires Disjoint(m) && i < j < |m|
    ensures Meaning(Swap(m, i, j), a) == Meaning(m, a)
  {
    var r := Swap(m, i, j);
    SwapKeeps(m, i, j);
    if k :| 0 <= k < |m| && Covers(m[k], a) {
      MeaningAt(m, k, a);
      MeaningAt(r, if k == i then j else if k == j then i else k, a);
    } else {
      MeaningNone(m, a);
      MeaningNone(r, a);
    }
  }

  /** Two maps say the same of every address. */
  ghost predicate Same(m: seq<Entry>, r: seq<Entry>)
  {
    forall a: nat :: Meaning(r, a) == Meaning(m, a)
  }

  /** The position of the entry with the lowest start from `i` on. */
  method SelectLowest(table: array<Entry>, n: nat, i: nat) returns (sel: nat)
    requires i < n <= table.Length
    ensures i <= sel < n && forall q | i <= q < n :: table[sel].start <= table[q].start
  {
    sel := i;
    for j := i + 1 to n
      invariant i <= sel < n && forall q | i <= q < j :: table[sel].start <= table[q].start
    {
      if table[j].start < table[sel].start {
        sel := j;
      }
    }
  }

  /** A selection sort by start.  Without overlaps, it changes the meaning of no address. */
  method SortMap(table: array<Entry>, n: nat)
    requires n <= table.Length
    modifies table
    ensures SortedTo(table[..n], n) && multiset(table[..n]) == multiset(old(table[..n]))
    ensures Disjoint(old(table[..n])) ==> Disjoint(table[..n]) && Same(old(table[..n]), table[..n])
  {
    hide Disjoint, SortedTo, Same;
    NothingSorted(table[..n]);
    NothingChanged(table[..n]);
    for i := 0 to n
      invariant SortedTo(table[..n], i) && multiset(table[..n]) == multiset(old(table[..n]))
      invariant Disjoint(old(table[..n])) ==> Disjoint(table[..n]) && Same(old(table[..n]), table[..n])
    {
      ghost var m := table[..n];
      var sel := SelectLowest(table, n, i);
      SelectSorted(m, i, sel);
      if sel != i {
        SwapSame(old(table[..n]), m, i, sel);
        table[i], table[sel] := table[sel], table[i];
        assert table[..n] == Swap(m, i, sel);
      }
    }
  }

  lemma {:induction false} SwapSame(m0: seq<Entry>, m: seq<Entry>, i: nat, j: nat)
    requires i < j < |m|
    ensures multiset(Swap(m, i, j)) == multiset(m)
    ensures Disjoint(m) && Same(m0, m) ==> Disjoint(Swap(m, i, j)) && Same(m0, Swap(m, i, j))
  {
    hide Meaning;
    if Disjoint(m) && Same(m0, m) {
      SwapKeeps(m, i, j);
      forall a: nat
        ensures Meaning(Swap(m, i, j), a) == Meaning(m0, a)
      {
        SwapMeaning(m, i, j, a);
        assert Meaning(m, a) == Meaning(m0, a);
      }
    }
  }

  lemma {:induction false} NothingChanged(m: seq<Entry>)
    ensures Same(m, m)
  {
  }

  lemma {:induction false} NothingSorted(m: seq<Entry>)
    ensures SortedTo(m, 0)
  {
  }

  lemma {:induction false} SelectSorted(m: seq<Entry>, i: nat, sel: nat)
    requires i <= sel < |m| && SortedTo(m, i) && forall q | i <= q < |m| :: m[sel].start <= m[q].start
    ensures SortedTo(Swap(m, i, sel), i + 1) && (sel == i ==> Swap(m, i, sel) == m)
  {
  }

  lemma {:induction false} SortedOrdered(m: seq<Entry>)
    requires Disjoint(m) && SortedTo(m, |m|)
    ensures Ordered(m)
  {
    forall i, j | 0 <= i < j < |m|
      ensures End(m[i]) <= m[j].start
    {
      assert Apart(m[i], m[j]) && m[i].start <= m[j].start;
    }
  }

  /** Sort the map if it needs sorting, and compact it.  Overlaps are only reported, so without them the map
      comes out ordered and compact with the same meaning. */
  method ValidateMap(table: array<Entry>, n: nat) returns (r: nat, ghost sorted: seq<Entry>)
    requires n <= table.Length
    modifies table
    ensures SortedTo(sorted, n) && multiset(sorted) == multiset(old(table[..n]))
    ensures r <= n && table[..r] == Compact(sorted)
    ensures Disjoint(old(table[..n])) ==>
              Ordered(table[..r]) && CompactTo(table[..r], r) && Same(old(table[..n]), table[..r])
  {
    hide Meaning, Disjoint, Ordered, SortedTo, CompactTo, Compact;
    var needsSort := false;
    var i := 1;
    while i < n
      invariant 1 <= i && !needsSort && forall k | 0 < k < i && k < n :: table[k - 1].start <= table[k].start
    {
      if table[i - 1].start > table[i].start {
        needsSort := true;
        break;
      }
      i := i + 1;
    }
    if needsSort {
      SortMap(table, n);
    } else {
      Chained(table[..n]);
    }
    sorted := table[..n];
    r := CompactMap(table, n);
    if Disjoint(sorted) {
      SortedOrdered(sorted);
      CompactSame(sorted);
    }
  }

  lemma {:induction false} CompactSame(m: seq<Entry>)
    requires Ordered(m)
    ensures Same(m, Compact(m)) && Ordered(Compact(m)) && CompactTo(Compact(m), |Compact(m)|)
  {
    hide Meaning, CompactFrom;
    CompactKeeps(m, 1, 0);
    forall a: nat
      ensures Meaning(Compact(m), a) == Meaning(m, a)
    {
      CompactKeeps(m, 1, a);
    }
  }

  lemma {:induction false} Chained(m: seq<Entry>)
    requires forall k | 0 < k < |m| :: m[k - 1].start <= m[k].start
    ensures SortedTo(m, |m|)
  {
    forall p, q | 0 <= p < q < |m|
      ensures m[p].start <= m[q].start
    {
      Below(m, p, q);
    }
  }

  lemma {:induction false} Below(m: seq<Entry>, p: nat, q: nat)
    requires p <= q < |m| && forall k | 0 < k < |m| :: m[k - 1].start <= m[k].start
    ensures m[p].start <= m[q].start
    decreases q
  {
    if p < q {
      Below(m, p, q - 1);
    }
  }

  // ---------------------------------------------------------------- marking a range

  /** Sizes are rounded up and bases down to whole pages, in 64-bit arithmetic. */
  function RoundSize(size: nat): nat
  {
    (size + 0xFFF) % ADDRESSES / PAGE * PAGE
  }

  function RoundBase(base: nat): nat
  {
    base / PAGE * PAGE
  }

  /** The base starts a page, or the odd ends of the base and of the size fit into one page together. */
  predicate PageFit(base: nat, size: nat)
  {
    base % PAGE == 0 || (size % PAGE != 0 && base % PAGE + size % PAGE <= PAGE)
  }

  /** Base and size are rounded apart from each other, so the rounded range covers the requested one just if
      their odd ends fit into one page. */
  lemma {:induction false} RoundedCovers(base: nat, size: nat)
    requires size + 0xFFF < ADDRESSES
    ensures RoundBase(base) + RoundSize(size) >= base + size <==> PageFit(base, size)
  {
    var p, q := base / PAGE, size / PAGE;
    assert base == p * PAGE + base % PAGE && size == q * PAGE + size % PAGE;
    assert (size + 0xFFF) / PAGE == if size % PAGE == 0 then q else q + 1;
  }

  /** Fields have 64 bits. */
  ghost predicate Words(m: seq<Entry>)
  {
    forall i | 0 <= i < |m| :: m[i].start < ADDRESSES && m[i].length < ADDRESSES
  }

  /** And so has the end of an entry as it is computed. */
  function End64(e: Entry): nat
  {
    End(e) % ADDRESSES
  }

  lemma {:induction false} Wraps(e: Entry)
    requires e.start < ADDRESSES && e.length < ADDRESSES
    ensures End64(e) == if End(e) < ADDRESSES then End(e) else End(e) - ADDRESSES
  {
  }

  /** An entry whose end has wrapped holds no address below that end. */
  lemma {:induction false} Unwrapped(e: Entry, a: nat)
    requires e.start < ADDRESSES && e.length < ADDRESSES && e.start <= a < End64(e)
    ensures End64(e) == End(e)
  {
    Wraps(e);
  }

  /** The first entry that seems to end behind an address. */
  function FirstBehind(m: seq<Entry>, a: nat): (k: nat)
    ensures k <= |m| && (k < |m| ==> End64(m[k]) > a) && forall i | 0 <= i < k :: End64(m[i]) <= a
  {
    if m == [] || End64(m[0]) > a then 0 else 1 + FirstBehind(m[1..], a)
  }

  /** The range lies within one entry, as far as 64-bit arithmetic can tell, and there is room for the pieces
      of that entry. */
  predicate Markable(m: seq<Entry>, max: nat, base: nat, size: nat)
  {
    var k := FirstBehind(m, base);
    && k < |m| && m[k].start <= base && (base + size) % ADDRESSES <= End64(m[k])
    && |m| + (if m[k].start < base then 1 else 0) + (if base + size < End(m[k]) then 1 else 0) <= max
  }

  /** How much of a markable range its entry holds. */
  function Extent(m: seq<Entry>, base: nat, size: nat): nat
  {
    var k := FirstBehind(m, base);
    if k < |m| && End(m[k]) - base < size then End(m[k]) - base else size
  }

  /** That is all of it, just if its end does not exceed 64 bits. */
  lemma {:induction false} ExtentExact(m: seq<Entry>, max: nat, base: nat, size: nat)
    requires Markable(m, max, base, size) && Words(m) && size < ADDRESSES
    ensures Extent(m, base, size) == size <==> base + size < ADDRESSES
  {
    Unwrapped(m[FirstBehind(m, base)], base);
  }

  /** It need not be: a range that ends at the top of the address space is taken for one within the first entry, and
      is marked up to the end of that. */
  lemma {:induction false} ExtentFails()
    ensures var m := [Entry(0, 0x10000, Free, 0)];
            Markable(m, 2, 0x1000, ADDRESSES - 0x1000) && Extent(m, 0x1000, ADDRESSES - 0x1000) == 0xF000
  {
    var m := [Entry(0, 0x10000, Free, 0)];
    assert FirstBehind(m, 0x1000) == 0;
  }

  /** An entry that ends at or behind the top of the address space is never marked: the range lies in no entry that
      the search can find. */
  lemma {:induction false} TopEntryUnmarked(m: seq<Entry>, max: nat, base: nat, size: nat, k: nat)
    requires Words(m) && Ordered(m) && k < |m| && End(m[k]) >= ADDRESSES && Covers(m[k], base)
    ensures !Markable(m, max, base, size)
  {
    var j := FirstBehind(m, base);
    Wraps(m[k]);
    if j < |m| {
      Wraps(m[j]);
    }
    InOrder(m, j, k);
    InOrder(m, k, j);
  }

  lemma {:induction false} InOrder(m: seq<Entry>, i: nat, j: nat)
    requires Ordered(m)
    ensures i < j < |m| ==> End(m[i]) <= m[j].start
  {
  }

  /** The whole range was mapped and has become used, in the same domain; all else means what it meant. */
  ghost predicate MarkedRange(m: seq<Entry>, r: seq<Entry>, base: nat, size: nat)
  {
    forall a: nat :: MarkedAt(Meaning(m, a), Meaning(r, a), base <= a < base + size)
  }

  predicate MarkedAt(was: Region, now: Region, inRange: bool)
  {
    if inRange then was.Region? && now == Region(Used, was.domain) else now == was
  }

  /** Every address of a range is used. */
  ghost predicate AllUsed(m: seq<Entry>, from: nat, to: nat)
  {
    forall a: nat | from <= a < to :: Meaning(m, a).Region? && Meaning(m, a).kind == Used
  }

  /** Once the rounded range is marked, the requested one is used just if the rounding covers it or what
      sticks out was used before. */
  lemma {:induction false} MarkCovers(m: seq<Entry>, r: seq<Entry>, base: nat, size: nat)
    requires size + 0xFFF < ADDRESSES && MarkedRange(m, r, RoundBase(base), RoundSize(size))
    ensures AllUsed(r, base, base + size) <==>
            size == 0 || PageFit(base, size) || AllUsed(m, RoundBase(base) + RoundSize(size), base + size)
  {
    hide Meaning, PageFit, RoundSize;
    RoundedCovers(base, size);
    var b, s := RoundBase(base), RoundSize(size);
    RoundedOverlaps(base, size);
    forall a: nat
      ensures MarkedAt(Meaning(m, a), Meaning(r, a), b <= a < b + s)
    {
    }
    if AllUsed(r, base, base + size) && size > 0 {
      forall a: nat | b + s <= a < base + size
        ensures Meaning(m, a).Region? && Meaning(m, a).kind == Used
      {
        assert Meaning(r, a).Region? && Meaning(r, a).kind == Used;
      }
    }
  }

  lemma {:induction false} RoundedOverlaps(base: nat, size: nat)
    requires size + 0xFFF < ADDRESSES
    ensures RoundBase(base) <= base && (size > 0 ==> base < RoundBase(base) + RoundSize(size))
  {
    assert size > 0 ==> (size + 0xFFF) / PAGE >= 1;
  }

  lemma {:induction false} EntryMeaning(m: seq<Entry>, k: nat, e: Entry, a: nat)
    requires Ordered(m) && k < |m| && e.start == m[k].start && e.length == m[k].length
    ensures Meaning(m[k := e], a) == if Covers(e, a) then Region(e.kind, e.domain) else Meaning(m, a)
  {
    hide Meaning;
    var x, z := m[..k], m[k + 1..];
    assert m == x + [m[k]] + z && m[k := e] == x + [e] + z;
    OneMeaning(e, a);
    OneMeaning(m[k], a);
    if Covers(e, a) {
      forall i | 0 <= i < |x|
        ensures !Covers(x[i], a)
      {
        assert End(m[i]) <= m[k].start;
      }
      MeaningNone(x, a);
      MeaningConcat(x + [e], z, a);
      MeaningConcat(x, [e], a);
    } else {
      MeaningReplace(x, [m[k]], [e], z, a);
    }
  }

  lemma {:induction false} EntryOrder(m: seq<Entry>, k: nat, e: Entry)
    requires Ordered(m) && k < |m| && e.start == m[k].start && e.length == m[k].length
    ensures Ordered(m[k := e])
  {
  }

  /** Marking an entry that is exactly the range, and compacting. */
  lemma {:induction false} MarkExact(m: seq<Entry>, m2: seq<Entry>, k: nat, base: nat, size: nat)
    requires Ordered(m2) && k < |m2| && m2[k].start == base && m2[k].length == size && Same(m, m2)
    ensures var r := Compact(m2[k := m2[k].(kind := Used)]);
            MarkedRange(m, r, base, size) && Ordered(r) && CompactTo(r, |r|) && |r| <= |m2|
  {
    hide Meaning, CompactFrom;
    var e := m2[k].(kind := Used);
    EntryOrder(m2, k, e);
    CompactKeeps(m2[k := e], 1, 0);
    forall a: nat
      ensures MarkedAt(Meaning(m, a), Meaning(Compact(m2[k := e]), a), base <= a < base + size)
    {
      CompactKeeps(m2[k := e], 1, a);
      EntryMeaning(m2, k, e, a);
      EntryMeaning(m2, k, m2[k], a);
      assert m2[k := m2[k]] == m2;
      assert Meaning(m2, a) == Meaning(m, a);
    }
  }

  /** Splitting keeps the meaning and the order, and leaves the two pieces in place. */
  lemma {:induction false} SplitSame(m: seq<Entry>, m1: seq<Entry>, k: nat, offset: nat)
    requires k < |m1| && offset <= m1[k].length && Ordered(m1) && Same(m, m1)
    ensures Ordered(Split(m1, k, offset)) && Same(m, Split(m1, k, offset))
    ensures Split(m1, k, offset)[k] == First(m1[k], offset) && Split(m1, k, offset)[k + 1] == Second(m1[k], offset)
  {
    hide Meaning;
    SplitOrder(m1, k, offset);
    forall a: nat
      ensures Meaning(Split(m1, k, offset), a) == Meaning(m, a)
    {
      SplitMeaning(m1, k, offset, a);
      assert Meaning(m1, a) == Meaning(m, a);
    }
  }

  /** The first entry that seems to end behind an address, or -1. */
  method FindBehind(table: array<Entry>, n: nat, a: nat) returns (first: int)
    requires n <= table.Length
    ensures var k := FirstBehind(table[..n], a); first == if k < n then k else -1
  {
    first := -1;
    var i := 0;
    while i < n
      invariant 0 <= i <= n && first == -1 && forall k | 0 <= k < i :: End64(table[k]) <= a
    {
      if End64(table[i]) > a {
        first := i;
        break;
      }
      i := i + 1;
    }
    ghost var k := FirstBehind(table[..n], a);
    assert k < n ==> End64(table[k]) > a;
    assert first >= 0 ==> forall j | 0 <= j < first :: End64(table[j]) <= a;
  }

  /** Mark a range as used.  If the rounded range lies in one entry and there is room for the pieces, as much
      of it as the entry holds becomes used; otherwise every address means what it meant. */
  method MarkRangeUsed(table: array<Entry>, n: nat, max: nat, base: nat, size: nat) returns (r: nat)
    requires n <= max <= table.Length && Ordered(table[..n]) && Words(table[..n])
    modifies table
    ensures r <= max && Ordered(table[..r])
    ensures var m, b, s := old(table[..n]), RoundBase(base), RoundSize(size);
            && (Markable(m, max, b, s) ==> MarkedRange(m, table[..r], b, Extent(m, b, s)) && CompactTo(table[..r], r))
            && (!Markable(m, max, b, s) ==> Same(m, table[..r]))
    ensures var m, b, s := old(table[..n]), RoundBase(base), RoundSize(size);
            Markable(m, max, b, s) && b + s < ADDRESSES && size + 0xFFF < ADDRESSES ==>
              (AllUsed(table[..r], base, base + size) <==>
               size == 0 || PageFit(base, size) || AllUsed(m, b + s, base + size))
  {
    hide Markable, Meaning, Ordered, FirstBehind, RoundSize, RoundBase, PageFit, AllUsed, MarkedRange;
    var size', base' := RoundSize(size), RoundBase(base);
    ghost var m := table[..n];
    r := MarkPages(table, n, max, base', size');
    if Markable(m, max, base', size') && base' + size' < ADDRESSES && size + 0xFFF < ADDRESSES {
      ExtentWhole(m, max, base', size');
      MarkCovers(m, table[..r], base, size);
    }
  }

  lemma {:induction false} ExtentWhole(m: seq<Entry>, max: nat, base: nat, size: nat)
    requires Markable(m, max, base, size) && Words(m) && base + size < ADDRESSES
    ensures Extent(m, base, size) == size
  {
    Unwrapped(m[FirstBehind(m, base)], base);
  }

  /** Split an entry of a map that means the same as `m`. */
  method SplitEntry(table: array<Entry>, n: nat, max: nat, k: nat, offset: nat, ghost m: seq<Entry>) returns (r: nat)
    requires k < n < max <= table.Length && offset <= table[k].length
    requires Ordered(table[..n]) && Same(m, table[..n])
    modifies table
    ensures r == n + 1 && Ordered(table[..r]) && Same(m, table[..r])
    ensures table[k] == First(old(table[k]), offset) && table[k + 1] == Second(old(table[k]), offset)
  {
    hide Ordered, Same, Split;
    SplitSame(m, table[..n], k, offset);
    r := SplitBlock(table, n, max, k, offset);
    assert table[k] == table[..r][k] && table[k + 1] == table[..r][k + 1];
  }

  /** Mark an entry of such a map as used, and compact. */
  method MarkEntry(table: array<Entry>, n: nat, k: nat, ghost m: seq<Entry>) returns (r: nat)
    requires k < n <= table.Length && Ordered(table[..n]) && Same(m, table[..n])
    modifies table
    ensures r <= n && Ordered(table[..r]) && CompactTo(table[..r], r)
    ensures MarkedRange(m, table[..r], old(table[k].start), old(table[k].length))
  {
    hide Ordered, Same, CompactTo, MarkedRange, Compact;
    ghost var m2 := table[..n];
    MarkExact(m, m2, k, m2[k].start, m2[k].length);
    table[k] := table[k].(kind := Used);
    assert table[..n] == m2[k := m2[k].(kind := Used)];
    r := CompactMap(table, n);
  }

  /** Mark a range of whole pages. */
  method MarkPages(table: array<Entry>, n: nat, max: nat, base: nat, size: nat) returns (r: nat)
    requires n <= max <= table.Length && Ordered(table[..n]) && Words(table[..n])
    modifies table
    ensures r <= max && Ordered(table[..r])
    ensures var m := old(table[..n]);
            && (Markable(m, max, base, size) ==>
                  MarkedRange(m, table[..r], base, Extent(m, base, size)) && CompactTo(table[..r], r))
            && (!Markable(m, max, base, size) ==> Same(m, table[..r]))
  {
    hide Ordered, Same, CompactTo, MarkedRange, FirstBehind;
    ghost var m := table[..n];
    NothingChanged(m);
    var first := FindBehind(table, n, base);
    if first == -1 || table[first].start > base {
      return n;
    }
    if (base + size) % ADDRESSES > End64(table[first]) {
      return n;
    }
    Unwrapped(m[first], base);
    r := n;
    if table[first].start < base {
      if r == max {
        return;
      }
      r := SplitEntry(table, r, max, first, base - table[first].start, m);
      first := first + 1;
    }
    if table[first].length > size {
      if r == max {
        return;
      }
      r := SplitEntry(table, r, max, first, size, m);
    }
    r := MarkEntry(table, r, first, m);
  }

  /** It does happen that it is not: a page from the middle of a page on. */
  method MarkMisses() returns (table: array<Entry>, r: nat)
    ensures r <= table.Length && !AllUsed(table[..r], 0x1800, 0x1800 + 0x1000)
    ensures Meaning(table[..r], 0x2000) == Region(Free, 0)
  {
    table := new Entry[3](_ => Entry(0, 0x10000, Free, 0));
    ghost var m := table[..1];
    assert m == [Entry(0, 0x10000, Free, 0)];
    r := MarkRangeUsed(table, 1, 3, 0x1800, 0x1000);
    OneMeaning(m[0], 0x2000);
    assert MarkedAt(Meaning(m, 0x2000), Meaning(table[..r], 0x2000), false);
  }
}
