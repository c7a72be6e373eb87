/** The kernel heap as a tiling of its address range, with no memory in sight.

    Addresses and sizes count 32-bit machine words; requests count bytes.  The numbers are those of
    the x86 build: a header is seven words (Size, ValidSize, File, Line, Magic and a two-word
    AllocateTime), a footer is two words (Magic, Head), and every block is a multiple of eight words.

    A layout lists the addresses at which blocks begin, closed by the end of the heap, and gives for
    each block the number of bytes that were requested, which is zero for a free block.  Allocating
    inserts a cut, merging removes one. */
module HeapLayout {

  const HEAD_WORDS := 7
  const FOOT_WORDS := 2
  const MIN_WORDS := 8
  const PAGE_WORDS := 1024
  const WORD_BYTES := 4

  const HEAP_START := 0xC040_0000 / WORD_BYTES
  const HEAP_MAX := 0xCF00_0000 / WORD_BYTES

  /** One more than the largest value of a 32-bit `size_t`. */
  const SIZE_MODULUS := 0x1_0000_0000

  // ---------------------------------------------------------------- sizes

  /** The number of bytes of header, footer and rounding that is added to a request. */
  const OVERHEAD_BYTES := WORD_BYTES * (HEAD_WORDS + FOOT_WORDS)
  const MIN_BYTES := WORD_BYTES * MIN_WORDS

  /** The block size, in bytes, computed for a request with 32-bit arithmetic. */
  function BlockBytes(request: nat): (r: nat)
  {
    var sum := (request + OVERHEAD_BYTES + MIN_BYTES - 1) % SIZE_MODULUS;
    sum - sum % MIN_BYTES
  }

  function BlockWords(request: nat): (r: nat)
  {
    BlockBytes(request) / WORD_BYTES
  }

  /** The requests for which the block size does not wrap around. */
  predicate Representable(request: nat)
  {
    request + OVERHEAD_BYTES + MIN_BYTES - 1 < SIZE_MODULUS
  }

  /** The computed size covers header, request and footer, is a positive multiple of the minimum and
      is the smallest such number, exactly when the 32-bit sum does not wrap. */
  lemma {:induction false} BlockBytesExact(request: nat)
    requires request < SIZE_MODULUS
    ensures BlockBytes(request) >= request + OVERHEAD_BYTES
       <==> request + OVERHEAD_BYTES + MIN_BYTES - 1 < SIZE_MODULUS
    ensures request + OVERHEAD_BYTES + MIN_BYTES - 1 < SIZE_MODULUS ==>
              && BlockBytes(request) % MIN_BYTES == 0
              && BlockBytes(request) < request + OVERHEAD_BYTES + MIN_BYTES
  {
  }

  lemma {:induction false} BlockWordsFit(request: nat)
    requires Representable(request)
    ensures BlockWords(request) % MIN_WORDS == 0
    ensures BlockWords(request) >= 2 * MIN_WORDS
    ensures WORD_BYTES * BlockWords(request) == BlockBytes(request)
    ensures request <= WORD_BYTES * (BlockWords(request) - HEAD_WORDS - FOOT_WORDS)
    ensures WORD_BYTES * BlockWords(request) < request + OVERHEAD_BYTES + MIN_BYTES
  {
    var sum := request + OVERHEAD_BYTES + MIN_BYTES - 1;
    assert sum % SIZE_MODULUS == sum;
    var units := sum / 32;
    assert BlockBytes(request) == 32 * units;
    assert BlockWords(request) == 8 * units;
    assert 32 * units <= sum < 32 * units + 32;
  }

  /** The largest requests wrap: this one gets no room at all. */
  lemma {:induction false} HugeRequestWraps()
    ensures BlockBytes(0xFFFF_FFE0) == 32
    ensures BlockBytes(0xFFFF_FFBD) == 0
  {
  }

  // ---------------------------------------------------------------- layouts

  ghost predicate Ascending(s: seq<int>)
  {
    forall i, j | 0 <= i < j < |s| :: s[i] < s[j]
  }

  predicate Aligned(a: int)
  {
    a % MIN_WORDS == 0
  }

  ghost predicate AllAligned(s: seq<int>)
  {
    forall i | 0 <= i < |s| :: Aligned(s[i])
  }

  /** The bytes between the header and the footer of a block. */
  function RoomBytes(start: int, end: int): int
  {
    WORD_BYTES * (end - start - HEAD_WORDS - FOOT_WORDS)
  }

  /** An allocated block has at least sixteen words and room for its request. */
  predicate Roomy(start: int, end: int, request: nat)
  {
    request > 0 ==> start + 2 * MIN_WORDS <= end && request <= RoomBytes(start, end)
  }

  ghost predicate AllRoomy(cuts: seq<int>, reqs: seq<nat>)
    requires |cuts| == |reqs| + 1
  {
    forall i | 0 <= i < |reqs| :: Roomy(cuts[i], cuts[i + 1], reqs[i])
  }

  lemma {:induction false} InsertAscending(s: seq<int>, k: nat, x: int)
    requires Ascending(s) && 0 < k < |s| && s[k - 1] < x < s[k]
    ensures Ascending(s[..k] + [x] + s[k..])
  {
  }

  lemma {:induction false} InsertAligned(s: seq<int>, k: nat, x: int)
    requires AllAligned(s) && k < |s| && Aligned(x)
    ensures AllAligned(s[..k] + [x] + s[k..])
  {
  }

  lemma {:induction false} AlignedSum(a: int, b: int)
    requires Aligned(a) && Aligned(b)
    ensures Aligned(a + b)
  {
  }

  lemma {:induction false} RemoveAscending(s: seq<int>, k: nat)
    requires Ascending(s) && 0 < k < |s|
    ensures Ascending(s[..k] + s[k + 1..])
  {
  }

  datatype Layout = Layout(cuts: seq<int>, reqs: seq<nat>)
  {
    function Count(): nat { |reqs| }

    /** There is one more cut than there are blocks. */
    predicate Shaped() { |cuts| == |reqs| + 1 }

    function Size(i: nat): int
      requires i + 1 < |cuts|
    {
      cuts[i + 1] - cuts[i]
    }

    /** Blocks tile the heap from its start and are aligned, and an allocated block holds its whole
        header, its request and its footer.  A free block may be as small as eight words, in which its
        footer lies over the unused AllocateTime. */
    ghost predicate Tiled()
    {
      && Shaped()
      && cuts[0] == HEAP_START
      && Ascending(cuts)
      && AllAligned(cuts)
      && AllRoomy(cuts, reqs)
    }

    /** No two neighbouring blocks are both free. */
    ghost predicate Coalesced()
    {
      forall i, j | 0 <= i < |reqs| && j == i + 1 && j < |reqs| :: reqs[i] > 0 || reqs[j] > 0
    }

    ghost predicate WellFormed()
    {
      Tiled() && Coalesced()
    }

    function End(): int
      requires |cuts| > 0
    {
      cuts[|cuts| - 1]
    }

    predicate Fits(i: nat, words: int)
      requires Shaped()
    {
      i < |reqs| && reqs[i] == 0 && Size(i) >= words
    }

    /** Block `i` is the first of the smallest free blocks that hold `words`. */
    ghost predicate BestFit(i: nat, words: int)
      requires Shaped()
    {
      && Fits(i, words)
      && forall j: nat | j < |reqs| && Fits(j, words) :: Size(i) < Size(j) || (Size(i) == Size(j) && i <= j)
    }

    function Mark(i: nat, request: nat): Layout
      requires i < |reqs|
    {
      Layout(cuts, reqs[i := request])
    }

    /** Cut block `i` in two; the upper part is free. */
    function Split(i: nat, words: int): Layout
      requires Shaped() && i < |reqs|
    {
      Layout(cuts[..i + 1] + [cuts[i] + words] + cuts[i + 1..], reqs[..i + 1] + [0] + reqs[i + 1..])
    }

    /** Join block `i` to block `i - 1`, whose state the union keeps. */
    function Join(i: nat): Layout
      requires Shaped() && 0 < i < |reqs|
    {
      Layout(cuts[..i] + cuts[i + 1..], reqs[..i] + reqs[i + 1..])
    }

    /** Join the free block `i` to the block before it if that is free. */
    function MergeLeft(i: nat): Layout
      requires Shaped() && i < |reqs|
    {
      if i > 0 && reqs[i - 1] == 0 then Join(i) else this
    }

    /** Join the block after the free block `i` to it if that is free. */
    function MergeRight(i: nat): Layout
      requires Shaped() && i < |reqs|
    {
      if i + 1 < |reqs| && reqs[i + 1] == 0 then Join(i + 1) else this
    }

    /** Where block `i` is found after `MergeLeft(i)`. */
    function MergedIndex(i: nat): nat
      requires i < |reqs|
    {
      if i > 0 && reqs[i - 1] == 0 then i - 1 else i
    }

    /** Join a free block with whichever of its neighbours are free. */
    function Merge(i: nat): Layout
      requires Shaped() && i < |reqs|
    {
      MergeLeft(i).MergeRight(MergedIndex(i))
    }

    function Append(words: int): Layout
      requires Shaped()
    {
      Layout(cuts + [End() + words], reqs + [0])
    }

    /** Grow the heap by a free block and merge it with a free block before it. */
    function Extend(pages: nat): Layout
      requires Shaped()
    {
      Append(pages * PAGE_WORDS).Merge(|reqs|)
    }

    /** Allocate the first `words` words of the free block `i`. */
    function Take(i: nat, words: int, request: nat): Layout
      requires Shaped() && i < |reqs|
    {
      (if Size(i) == words then this else Split(i, words)).Mark(i, request)
    }

    function Release(i: nat): Layout
      requires Shaped() && i < |reqs|
    {
      Mark(i, 0).Merge(i)
    }

    /** Let the allocated block `i` take over the free block after it, up to `words` in all. */
    function Grow(i: nat, words: int, request: nat): Layout
      requires Shaped() && i + 1 < |reqs|
    {
      Mark(i, 0).Join(i + 1).Take(i, words, request)
    }
  }

  // ---------------------------------------------------------------- one operation keeps the tiling

  lemma {:induction false} SplitTiled(l: Layout, i: nat, words: int)
    requires l.Tiled() && i < l.Count() && l.reqs[i] == 0
    requires Aligned(words) && 0 < words < l.Size(i)
    ensures l.Split(i, words).Tiled()
    ensures l.Split(i, words).Size(i) == words
    ensures l.Split(i, words).End() == l.End()
  {
    var x := l.cuts[i] + words;
    assert Aligned(x) by { assert Aligned(l.cuts[i]); AlignedSum(l.cuts[i], words); }
    var s := l.Split(i, words);
    assert AllAligned(s.cuts) by { InsertAligned(l.cuts, i + 1, x); }
    assert Ascending(s.cuts) by { InsertAscending(l.cuts, i + 1, x); }
    assert AllRoomy(s.cuts, s.reqs) by { SplitRoomy(l, i, words); }
  }

  lemma {:induction false} SplitRoomy(l: Layout, i: nat, words: int)
    requires l.Shaped() && i < l.Count() && l.reqs[i] == 0 && AllRoomy(l.cuts, l.reqs)
    ensures AllRoomy(l.Split(i, words).cuts, l.Split(i, words).reqs)
  {
    var s := l.Split(i, words);
    forall k | 0 <= k < |s.reqs|
      ensures Roomy(s.cuts[k], s.cuts[k + 1], s.reqs[k])
    {
      if k < i {
        assert Roomy(l.cuts[k], l.cuts[k + 1], l.reqs[k]);
      } else if k > i + 1 {
        assert Roomy(l.cuts[k - 1], l.cuts[k], l.reqs[k - 1]);
      }
    }
  }

  lemma {:induction false} JoinTiled(l: Layout, i: nat)
    requires l.Tiled() && 0 < i < l.Count() && l.reqs[i] == 0 && l.reqs[i - 1] == 0
    ensures l.Join(i).Tiled()
    ensures l.Join(i).End() == l.End()
  {
    var s := l.Join(i);
    assert Ascending(s.cuts) by { RemoveAscending(l.cuts, i); }
    assert AllRoomy(s.cuts, s.reqs) by { JoinRoomy(l, i); }
  }

  lemma {:induction false} JoinRoomy(l: Layout, i: nat)
    requires l.Shaped() && 0 < i < l.Count() && l.reqs[i - 1] == 0 && AllRoomy(l.cuts, l.reqs)
    ensures AllRoomy(l.Join(i).cuts, l.Join(i).reqs)
  {
    var s := l.Join(i);
    forall k | 0 <= k < |s.reqs|
      ensures Roomy(s.cuts[k], s.cuts[k + 1], s.reqs[k])
    {
      if k < i - 1 {
        assert Roomy(l.cuts[k], l.cuts[k + 1], l.reqs[k]);
      } else if k >= i {
        assert Roomy(l.cuts[k + 1], l.cuts[k + 2], l.reqs[k + 1]);
      }
    }
  }

  lemma {:induction false} MarkTiled(l: Layout, i: nat, request: nat)
    requires l.Tiled() && i < l.Count() && Roomy(l.cuts[i], l.cuts[i + 1], request)
    ensures l.Mark(i, request).Tiled()
  {
  }

  /** The layout is coalesced except, perhaps, around block `i`. */
  ghost predicate CoalescedExcept(l: Layout, i: nat)
  {
    forall k, j | 0 <= k < |l.reqs| && j == k + 1 && j < |l.reqs| && k != i && j != i :: l.reqs[k] > 0 || l.reqs[j] > 0
  }

  /** After the left merge, the merged block ends where block `i` did and has the same neighbour above. */
  lemma {:induction false} MergeLeftShape(l: Layout, i: nat)
    requires l.Shaped() && i < l.Count()
    ensures var left, j := l.MergeLeft(i), l.MergedIndex(i);
            && left.Shaped() && j < left.Count() && left.Count() - j == l.Count() - i
            && left.cuts[j] == l.cuts[j] && left.cuts[j + 1] == l.cuts[i + 1]
            && (i + 1 < l.Count() ==> left.reqs[j + 1] == l.reqs[i + 1] && left.cuts[j + 2] == l.cuts[i + 2])
  {
  }

  lemma {:induction false} MergeLeftTiled(l: Layout, i: nat)
    requires l.Tiled() && i < l.Count() && l.reqs[i] == 0
    ensures l.MergeLeft(i).Tiled() && l.MergeLeft(i).End() == l.End()
    ensures l.MergedIndex(i) < l.MergeLeft(i).Count() && l.MergeLeft(i).reqs[l.MergedIndex(i)] == 0
    ensures l.MergeLeft(i).cuts[l.MergedIndex(i)] == l.cuts[l.MergedIndex(i)]
    ensures l.MergeLeft(i).cuts[l.MergedIndex(i) + 1] == l.cuts[i + 1]
  {
    if i > 0 && l.reqs[i - 1] == 0 {
      JoinTiled(l, i);
    }
  }

  lemma {:induction false} MergeRightTiled(l: Layout, i: nat)
    requires l.Tiled() && i < l.Count() && l.reqs[i] == 0
    ensures l.MergeRight(i).Tiled() && l.MergeRight(i).End() == l.End()
    ensures i < l.MergeRight(i).Count() && l.MergeRight(i).reqs[i] == 0 && l.MergeRight(i).cuts[i] == l.cuts[i]
  {
    if i + 1 < l.Count() && l.reqs[i + 1] == 0 {
      JoinTiled(l, i + 1);
    }
  }

  lemma {:induction false} MergeWellFormed(l: Layout, i: nat)
    requires l.Tiled() && i < l.Count() && l.reqs[i] == 0 && CoalescedExcept(l, i)
    ensures l.Merge(i).WellFormed()
    ensures l.Merge(i).End() == l.End()
    ensures l.MergedIndex(i) < l.Merge(i).Count() && l.Merge(i).cuts[l.MergedIndex(i)] == l.cuts[l.MergedIndex(i)]
  {
    MergeLeftTiled(l, i);
    MergeRightTiled(l.MergeLeft(i), l.MergedIndex(i));
    MergeCoalesced(l, i);
  }

  lemma {:induction false} MergeCoalesced(l: Layout, i: nat)
    requires l.Shaped()
    requires i < l.Count() && l.reqs[i] == 0 && CoalescedExcept(l, i)
    ensures l.Merge(i).Coalesced()
  {
    MergeLeftCoalesced(l, i);
    MergeRightCoalesced(l.MergeLeft(i), l.MergedIndex(i));
  }

  lemma {:induction false} MergeLeftCoalesced(l: Layout, i: nat)
    requires l.Shaped() && i < l.Count() && l.reqs[i] == 0 && CoalescedExcept(l, i)
    ensures l.MergedIndex(i) < l.MergeLeft(i).Count()
    ensures CoalescedExcept(l.MergeLeft(i), l.MergedIndex(i))
    ensures l.MergedIndex(i) > 0 ==> l.MergeLeft(i).reqs[l.MergedIndex(i) - 1] > 0
  {
    if i > 1 && l.reqs[i - 1] == 0 {
      assert l.reqs[i - 2] > 0;
    }
  }

  lemma {:induction false} MergeRightCoalesced(l: Layout, i: nat)
    requires l.Shaped() && i < l.Count() && CoalescedExcept(l, i)
    requires i > 0 ==> l.reqs[i - 1] > 0
    ensures l.MergeRight(i).Coalesced()
  {
    if i + 2 < l.Count() && l.reqs[i + 1] == 0 {
      assert l.reqs[i + 2] > 0;
    }
  }

  lemma {:induction false} ReleaseWellFormed(l: Layout, i: nat)
    requires l.WellFormed() && i < l.Count()
    ensures l.Release(i).WellFormed()
    ensures l.Release(i).End() == l.End()
  {
    MarkTiled(l, i, 0);
    MergeWellFormed(l.Mark(i, 0), i);
  }

  lemma {:induction false} AppendTiled(l: Layout, words: int)
    requires l.WellFormed() && words > 0 && Aligned(words)
    ensures l.Append(words).Tiled() && CoalescedExcept(l.Append(words), l.Count())
  {
    var s := l.Append(words);
    assert Aligned(l.End() + words) by { assert Aligned(l.End()); AlignedSum(l.End(), words); }
    assert AllRoomy(s.cuts, s.reqs) by { AppendRoomy(l, words); }
  }

  lemma {:induction false} AppendRoomy(l: Layout, words: int)
    requires l.Shaped() && AllRoomy(l.cuts, l.reqs)
    ensures AllRoomy(l.Append(words).cuts, l.Append(words).reqs)
  {
    var s := l.Append(words);
    forall k | 0 <= k < |s.reqs|
      ensures Roomy(s.cuts[k], s.cuts[k + 1], s.reqs[k])
    {
      if k < |l.reqs| {
        assert Roomy(l.cuts[k], l.cuts[k + 1], l.reqs[k]);
      }
    }
  }

  lemma {:induction false} ExtendWellFormed(l: Layout, pages: nat)
    requires l.WellFormed() && pages > 0
    ensures l.Extend(pages).WellFormed()
    ensures l.Extend(pages).Count() > 0
    ensures l.Extend(pages).End() == l.End() + pages * PAGE_WORDS
  {
    var words := pages * PAGE_WORDS;
    AppendTiled(l, words);
    MergeWellFormed(l.Append(words), l.Count());
  }

  /** Extending enlarges the free space at the end of the heap and changes nothing before it. */
  lemma {:induction false} ExtendEnlargesTail(l: Layout, pages: nat)
    requires l.Shaped()
    ensures l.Extend(pages).Shaped()
    ensures var e := l.Extend(pages);
            var k := e.Count() - 1;
            && k == (if l.Count() > 0 && l.reqs[l.Count() - 1] == 0 then l.Count() - 1 else l.Count())
            && e.cuts == l.cuts[..k + 1] + [l.End() + pages * PAGE_WORDS]
            && e.reqs == l.reqs[..k] + [0]
  {
  }

  /** Allocating a free block separates its neighbours. */
  lemma {:induction false} MarkUsedWellFormed(l: Layout, i: nat, request: nat)
    requires l.Tiled() && i < l.Count() && Roomy(l.cuts[i], l.cuts[i + 1], request)
    requires request > 0 && CoalescedExcept(l, i)
    ensures l.Mark(i, request).WellFormed()
  {
    MarkTiled(l, i, request);
  }

  lemma {:induction false} SplitCoalesced(l: Layout, i: nat, words: int)
    requires l.Shaped() && i < l.Count() && CoalescedExcept(l, i)
    requires i + 1 < l.Count() ==> l.reqs[i + 1] > 0
    ensures CoalescedExcept(l.Split(i, words), i)
  {
    var s := l.Split(i, words);
    assert i + 2 < |s.reqs| ==> s.reqs[i + 2] > 0;
  }

  lemma {:induction false} TakeWellFormed(l: Layout, i: nat, words: int, request: nat)
    requires l.Tiled() && CoalescedExcept(l, i) && l.Fits(i, words)
    requires i + 1 < l.Count() ==> l.reqs[i + 1] > 0
    requires Aligned(words) && request > 0 && Roomy(0, words, request)
    ensures l.Take(i, words, request).WellFormed()
    ensures l.Take(i, words, request).End() == l.End()
    ensures i < l.Take(i, words, request).Count() && l.Take(i, words, request).reqs[i] == request
    ensures l.Take(i, words, request).cuts[i] == l.cuts[i] && l.Take(i, words, request).Size(i) == words
  {
    if l.Size(i) == words {
      MarkUsedWellFormed(l, i, request);
    } else {
      var s := l.Split(i, words);
      assert s.Tiled() && s.Size(i) == words && s.End() == l.End() by { SplitTiled(l, i, words); }
      assert CoalescedExcept(s, i) by { SplitCoalesced(l, i, words); }
      MarkUsedWellFormed(s, i, request);
    }
  }

  lemma {:induction false} GrowWellFormed(l: Layout, i: nat, words: int, request: nat)
    requires l.WellFormed() && i + 1 < l.Count() && l.reqs[i] > 0 && l.reqs[i + 1] == 0
    requires Aligned(words) && l.Size(i) < words <= l.cuts[i + 2] - l.cuts[i]
    requires request > 0 && Roomy(0, words, request)
    ensures l.Grow(i, words, request).WellFormed()
    ensures l.Grow(i, words, request).End() == l.End()
    ensures i < l.Grow(i, words, request).Count() && l.Grow(i, words, request).reqs[i] == request
    ensures l.Grow(i, words, request).cuts[i] == l.cuts[i] && l.Grow(i, words, request).Size(i) == words
  {
    var free := l.Mark(i, 0);
    assert free.Tiled() by { MarkTiled(l, i, 0); }
    var joined := free.Join(i + 1);
    assert joined.Tiled() && joined.End() == l.End() by { JoinTiled(free, i + 1); }
    assert joined.cuts[i + 1] == l.cuts[i + 2];
    assert i + 1 < joined.Count() ==> joined.reqs[i + 1] == l.reqs[i + 2] > 0;
    assert CoalescedExcept(joined, i) by { JoinCoalesced(free, i + 1); }
    TakeWellFormed(joined, i, words, request);
  }

  lemma {:induction false} JoinCoalesced(l: Layout, i: nat)
    requires l.Shaped() && 0 < i < l.Count()
    requires forall k, j | 0 <= k < |l.reqs| && j == k + 1 && j < |l.reqs| && k != i - 1 && j != i - 1 ::
               l.reqs[k] > 0 || l.reqs[j] > 0
    ensures CoalescedExcept(l.Join(i), i - 1)
  {
  }

  // ---------------------------------------------------------------- freeing undoes allocating

  lemma {:induction false} JoinUndoesSplit(l: Layout, i: nat, words: int)
    requires l.Shaped() && i < l.Count()
    ensures l.Split(i, words).Join(i + 1) == l
  {
    var s := l.Split(i, words);
    assert s.cuts[..i + 1] == l.cuts[..i + 1] && s.cuts[i + 2..] == l.cuts[i + 1..];
    assert s.reqs[..i + 1] == l.reqs[..i + 1] && s.reqs[i + 2..] == l.reqs[i + 1..];
    assert l.cuts == l.cuts[..i + 1] + l.cuts[i + 1..];
    assert l.reqs == l.reqs[..i + 1] + l.reqs[i + 1..];
  }

  /** Freeing the block just allocated restores the layout exactly. */
  lemma {:induction false} ReleaseUndoesTake(l: Layout, i: nat, words: int, request: nat)
    requires l.WellFormed() && l.Fits(i, words)
    ensures l.Take(i, words, request).Release(i) == l
  {
    var t := l.Take(i, words, request);
    if l.Size(i) == words {
      assert t.Mark(i, 0) == l;
    } else {
      var s := l.Split(i, words);
      assert s.reqs[i := request][i := 0] == s.reqs;
      assert t.Mark(i, 0) == s;
      JoinUndoesSplit(l, i, words);
      assert s.reqs[i + 1] == 0;
    }
  }

  // ---------------------------------------------------------------- walking the memory

  /** The addresses visited when blocks are walked by the size in their header. */
  ghost function Walk(sizeAt: int -> int, at: int, end: int): seq<int>
    decreases end - at
  {
    if at >= end || sizeAt(at) <= 0 then [at] else [at] + Walk(sizeAt, at + sizeAt(at), end)
  }

  /** If every header holds its block's size, the walk visits every block and lands on the end. */
  lemma {:induction false} WalkLandsOnEnd(l: Layout, sizeAt: int -> int, i: nat)
    requires l.Tiled() && i <= l.Count()
    requires forall k | 0 <= k < l.Count() :: sizeAt(l.cuts[k]) == l.cuts[k + 1] - l.cuts[k]
    ensures Walk(sizeAt, l.cuts[i], l.End()) == l.cuts[i..]
    decreases l.Count() - i
  {
    if i == l.Count() {
      assert l.cuts[i..] == [l.cuts[i]];
    } else {
      WalkLandsOnEnd(l, sizeAt, i + 1);
      assert l.cuts[i..] == [l.cuts[i]] + l.cuts[i + 1..];
    }
  }
}
