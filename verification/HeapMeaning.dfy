/** What the steps of the heap mean for its users: which allocations are there, whatever the blocks between them. */
module HeapMeaning {
  import opened HeapLayout
  import opened HeapRuns
  import Heap

  predicate LiveBlock(l: Layout, i: nat, start: int, end: int, request: nat)
  {
    l.Shaped() && i < l.Count() && l.reqs[i] == request > 0 && l.cuts[i] == start && l.cuts[i + 1] == end
  }

  /** There is an allocation of so many bytes in the words from `start` up to `end`. */
  ghost predicate Live(l: Layout, start: int, end: int, request: nat)
  {
    exists i: nat :: LiveBlock(l, i, start, end, request)
  }

  // ---------------------------------------------------------------- the parts of a step

  lemma {:induction false} SplitLive(l: Layout, i: nat, words: int, a: int, b: int, r: nat)
    requires l.Shaped() && i < l.Count() && l.reqs[i] == 0
    ensures Live(l.Split(i, words), a, b, r) <==> Live(l, a, b, r)
  {
    hide Layout.Split;
    var s := l.Split(i, words);
    if k: nat :| LiveBlock(s, k, a, b, r) {
      SplitAt(l, i, words, k);
      SplitAt(l, i, words, k + 1);
      assert LiveBlock(l, if k < i then k else k - 1, a, b, r);
    }
    if k: nat :| LiveBlock(l, k, a, b, r) {
      var k' := if k < i then k else k + 1;
      SplitAt(l, i, words, k');
      SplitAt(l, i, words, k' + 1);
      assert LiveBlock(s, k', a, b, r);
    }
  }

  lemma {:induction false} SplitAt(l: Layout, i: nat, words: int, k: nat)
    requires l.Shaped() && i < l.Count() && l.reqs[i] == 0
    ensures var s := l.Split(i, words);
            && s.Shaped() && s.Count() == l.Count() + 1
            && (k <= i ==> s.cuts[k] == l.cuts[k] && s.reqs[k] == l.reqs[k])
            && (k == i + 1 ==> s.reqs[k] == 0)
            && (i + 1 < k <= s.Count() ==> s.cuts[k] == l.cuts[k - 1])
            && (i + 1 < k < s.Count() ==> s.reqs[k] == l.reqs[k - 1])
  {
  }

  lemma {:induction false} JoinLive(l: Layout, i: nat, a: int, b: int, r: nat)
    requires l.Shaped() && 0 < i < l.Count() && l.reqs[i - 1] == 0 && l.reqs[i] == 0
    ensures Live(l.Join(i), a, b, r) <==> Live(l, a, b, r)
  {
    var s := l.Join(i);
    if k: nat :| LiveBlock(s, k, a, b, r) {
      assert LiveBlock(l, if k < i then k else k + 1, a, b, r);
    }
    if k: nat :| LiveBlock(l, k, a, b, r) {
      assert LiveBlock(s, if k < i then k else k - 1, a, b, r);
    }
  }

  lemma {:induction false} AppendLive(l: Layout, words: int, a: int, b: int, r: nat)
    requires l.Shaped()
    ensures Live(l.Append(words), a, b, r) <==> Live(l, a, b, r)
  {
    var s := l.Append(words);
    if k: nat :| LiveBlock(s, k, a, b, r) {
      assert LiveBlock(l, k, a, b, r);
    }
    if k: nat :| LiveBlock(l, k, a, b, r) {
      assert LiveBlock(s, k, a, b, r);
    }
  }

  /** Marking a block changes the allocation that starts there. */
  lemma {:induction false} MarkLive(l: Layout, i: nat, request: nat, a: int, b: int, r: nat)
    requires l.Shaped() && Ascending(l.cuts) && i < l.Count()
    ensures Live(l.Mark(i, request), a, b, r) <==>
            if a == l.cuts[i] then b == l.cuts[i + 1] && r == request > 0 else Live(l, a, b, r)
  {
    var s := l.Mark(i, request);
    if k: nat :| LiveBlock(s, k, a, b, r) {
      OneStart(l, i, k);
      assert k != i ==> LiveBlock(l, k, a, b, r);
    }
    if k: nat :| LiveBlock(l, k, a, b, r) {
      assert k != i ==> LiveBlock(s, k, a, b, r);
    }
    if a == l.cuts[i] && b == l.cuts[i + 1] && r == request > 0 {
      assert LiveBlock(s, i, a, b, r);
    }
  }

  lemma {:induction false} OneStart(l: Layout, i: nat, k: nat)
    requires l.Shaped() && Ascending(l.cuts) && i < l.Count() && k < l.Count()
    ensures l.cuts[i] == l.cuts[k] <==> i == k
  {
    if i < k {
      assert l.cuts[i] < l.cuts[k];
    } else if k < i {
      assert l.cuts[k] < l.cuts[i];
    }
  }

  lemma {:induction false} MergeLive(l: Layout, i: nat, a: int, b: int, r: nat)
    requires l.Shaped() && i < l.Count() && l.reqs[i] == 0
    ensures Live(l.Merge(i), a, b, r) <==> Live(l, a, b, r)
  {
    hide Live;
    MergeLeftShape(l, i);
    if i > 0 && l.reqs[i - 1] == 0 {
      JoinLive(l, i, a, b, r);
    }
    var left, j := l.MergeLeft(i), l.MergedIndex(i);
    if j + 1 < left.Count() && left.reqs[j + 1] == 0 {
      JoinLive(left, j + 1, a, b, r);
    }
  }

  lemma {:induction false} TakeLive(l: Layout, i: nat, words: int, request: nat, a: int, b: int, r: nat)
    requires l.Tiled() && i < l.Count() && l.reqs[i] == 0 && request > 0
    requires words == l.Size(i) || (Aligned(words) && 0 < words < l.Size(i))
    ensures Live(l.Take(i, words, request), a, b, r) <==>
            (a == l.cuts[i] && b == a + words && r == request) || (a != l.cuts[i] && Live(l, a, b, r))
  {
    hide Live, AllAligned, AllRoomy;
    if words == l.Size(i) {
      MarkLive(l, i, request, a, b, r);
    } else {
      var s := l.Split(i, words);
      assert Ascending(s.cuts) by { SplitTiled(l, i, words); }
      SplitLive(l, i, words, a, b, r);
      MarkLive(s, i, request, a, b, r);
    }
  }

  /** Nothing is allocated where a free block starts. */
  lemma {:induction false} FreeStart(l: Layout, i: nat, b: int, r: nat)
    requires l.Tiled() && i < l.Count() && l.reqs[i] == 0
    ensures !Live(l, l.cuts[i], b, r)
  {
    if k: nat :| LiveBlock(l, k, l.cuts[i], b, r) {
      OneStart(l, i, k);
    }
  }

  // ---------------------------------------------------------------- the steps

  /** Allocating adds one allocation, of the size computed for the request, where the best fit was, and changes no
      other. */
  lemma {:induction false} AllocMeans(l: Layout, request: nat, i: nat, a: int, b: int, r: nat)
    requires l.WellFormed() && Enabled(l, Alloc(request, i))
    ensures Live(Apply(l, Alloc(request, i)), a, b, r) <==>
            Live(l, a, b, r) || (a == l.cuts[i] && b == a + BlockWords(request) && r == request)
  {
    hide Live, Layout.Coalesced, AllRoomy;
    BlockWordsFit(request);
    FreeStart(l, i, b, r);
    TakeLive(l, i, BlockWords(request), request, a, b, r);
  }

  lemma {:induction false} ExtendMeans(l: Layout, pages: nat, a: int, b: int, r: nat)
    requires l.WellFormed() && pages > 0
    ensures Live(l.Extend(pages), a, b, r) <==> Live(l, a, b, r)
  {
    hide Live;
    AppendLive(l, pages * PAGE_WORDS, a, b, r);
    MergeLive(l.Append(pages * PAGE_WORDS), l.Count(), a, b, r);
  }

  /** So does allocating from a heap that is extended first; the allocation starts where its trailing free space did. */
  lemma {:induction false} AllocExtendMeans(l: Layout, request: nat, pages: nat, a: int, b: int, r: nat)
    requires l.WellFormed() && Enabled(l, AllocExtend(request, pages))
    ensures Live(Apply(l, AllocExtend(request, pages)), a, b, r) <==>
            Live(l, a, b, r) || (a == TailStart(l) && b == a + BlockWords(request) && r == request)
  {
    hide Live, Layout.Coalesced, AllRoomy, Layout.Extend;
    ExtendWellFormed(l, pages);
    ExtendEnlargesTail(l, pages);
    var e := l.Extend(pages);
    var last := e.Count() - 1;
    BlockWordsFit(request);
    ExtendMeans(l, pages, a, b, r);
    FreeStart(e, last, b, r);
    TakeLive(e, last, BlockWords(request), request, a, b, r);
  }

  /** Freeing removes just the allocation that is freed. */
  lemma {:induction false} FreeMeans(l: Layout, i: nat, a: int, b: int, r: nat)
    requires l.WellFormed() && Enabled(l, Free(i))
    ensures Live(Apply(l, Free(i)), a, b, r) <==> Live(l, a, b, r) && a != l.cuts[i]
  {
    hide Live, Layout.Merge;
    MarkLive(l, i, 0, a, b, r);
    MergeLive(l.Mark(i, 0), i, a, b, r);
  }

  /** Growing gives the allocation its new size and request, and changes no other. */
  lemma {:induction false} GrowMeans(l: Layout, i: nat, request: nat, a: int, b: int, r: nat)
    requires l.WellFormed() && Enabled(l, Step.Grow(i, request))
    ensures Live(Apply(l, Step.Grow(i, request)), a, b, r) <==>
            if a == l.cuts[i] then b == a + BlockWords(request) && r == request else Live(l, a, b, r)
  {
    hide Live, Layout.Coalesced, AllRoomy;
    BlockWordsFit(request);
    var free := l.Mark(i, 0);
    MarkLive(l, i, 0, a, b, r);
    JoinLive(free, i + 1, a, b, r);
    var joined := free.Join(i + 1);
    assert joined.Tiled() by { GrownTiled(l, i); }
    TakeLive(joined, i, BlockWords(request), request, a, b, r);
  }

  lemma {:induction false} GrownTiled(l: Layout, i: nat)
    requires l.Tiled() && i + 1 < l.Count() && l.reqs[i + 1] == 0
    ensures l.Mark(i, 0).Join(i + 1).Tiled()
  {
    var free := l.Mark(i, 0);
    assert free.Tiled() by { MarkTiled(l, i, 0); }
    JoinTiled(free, i + 1);
  }

  /** Extending and storing change no allocation. */
  lemma {:induction false} OtherMeans(l: Layout, step: Step, a: int, b: int, r: nat)
    requires l.WellFormed() && Enabled(l, step) && (step.Extend? || step.Store?)
    ensures Live(Apply(l, step), a, b, r) <==> Live(l, a, b, r)
  {
    hide Live, Layout.Extend;
    if step.Extend? {
      ExtendMeans(l, step.pages, a, b, r);
    }
  }

  /** The heap grows by as few pages as hold the block. */
  lemma {:induction false} PagesLeast(bytes: nat)
    ensures 4096 * Heap.PagesFor(bytes) < bytes + 4096 && bytes <= 4096 * Heap.PagesFor(bytes)
  {
  }
}
