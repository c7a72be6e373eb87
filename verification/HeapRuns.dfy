/** Whole runs of the heap: allocation, release, growth in place and extension, interleaved with the
    stores that the owners of allocations make into their own memory. */
module HeapRuns {
  import opened HeapLayout

  // ---------------------------------------------------------------- the machine

  datatype Step =
    | Alloc(request: nat, i: nat)
    | AllocExtend(request: nat, pages: nat)
    | Extend(pages: nat)
    | Free(i: nat)
    | Grow(i: nat, request: nat)
    | Store(i: nat, at: int)

  ghost predicate Enabled(l: Layout, step: Step)
    requires l.WellFormed()
  {
    match step
    case Alloc(request, i) =>
      0 < request && Representable(request) && l.BestFit(i, BlockWords(request))
    case AllocExtend(request, pages) =>
      && 0 < request && Representable(request)
      && (forall i: nat | i < l.Count() :: !l.Fits(i, BlockWords(request)))
      && 0 < pages && BlockWords(request) <= pages * PAGE_WORDS
      && l.End() + pages * PAGE_WORDS <= HEAP_MAX
    case Extend(pages) =>
      0 < pages && l.End() + pages * PAGE_WORDS <= HEAP_MAX
    case Free(i) =>
      i < l.Count() && l.reqs[i] > 0
    case Grow(i, request) =>
      && i + 1 < l.Count() && l.reqs[i] > 0 && l.reqs[i + 1] == 0 && 0 < request && Representable(request)
      && l.Size(i) < BlockWords(request) <= l.cuts[i + 2] - l.cuts[i]
    case Store(i, at) =>
      i < l.Count() && l.reqs[i] > 0 && InData(l, i, at)
  }

  /** The words of block `i` between its header and its footer. */
  predicate InData(l: Layout, i: nat, a: int)
    requires l.Shaped() && i < l.Count()
  {
    l.cuts[i] + HEAD_WORDS <= a < l.cuts[i + 1] - FOOT_WORDS
  }

  ghost function Apply(l: Layout, step: Step): Layout
    requires l.WellFormed() && Enabled(l, step)
  {
    match step
    case Alloc(request, i) => l.Take(i, BlockWords(request), request)
    case AllocExtend(request, pages) =>
      ExtendWellFormed(l, pages);
      var e := l.Extend(pages);
      e.Take(e.Count() - 1, BlockWords(request), request)
    case Extend(pages) => l.Extend(pages)
    case Free(i) => l.Release(i)
    case Grow(i, request) => l.Grow(i, BlockWords(request), request)
    case Store(_, _) => l
  }

  /** The first address of the free block at the end of the heap, or the end itself. */
  function TailStart(l: Layout): int
    requires l.Shaped()
  {
    if l.Count() > 0 && l.reqs[l.Count() - 1] == 0 then l.cuts[l.Count() - 1] else l.End()
  }

  /** The words that a step may write. */
  ghost predicate Touches(l: Layout, step: Step, a: int)
    requires l.WellFormed() && Enabled(l, step)
  {
    match step
    case Alloc(_, i) => l.cuts[i] <= a < l.cuts[i + 1]
    case AllocExtend(_, pages) => TailStart(l) <= a < l.End() + pages * PAGE_WORDS
    case Extend(pages) => TailStart(l) <= a < l.End() + pages * PAGE_WORDS
    case Free(i) =>
      var lo := if i > 0 && l.reqs[i - 1] == 0 then l.cuts[i - 1] else l.cuts[i];
      var hi := if i + 1 < l.Count() && l.reqs[i + 1] == 0 then l.cuts[i + 2] else l.cuts[i + 1];
      lo <= a < hi
    case Grow(i, _) => l.cuts[i] <= a < l.cuts[i] + HEAD_WORDS || l.cuts[i + 1] <= a < l.cuts[i + 2]
    case Store(_, at) => a == at
  }

  /** One step of the machine together with the memory it acts on. */
  ghost predicate Next(l: Layout, m: seq<int>, step: Step, l': Layout, m': seq<int>)
  {
    && l.WellFormed() && Enabled(l, step) && l' == Apply(l, step)
    && |m'| == |m|
    && forall a | 0 <= a < |m| && !Touches(l, step, a) :: m'[a] == m[a]
  }

  // ---------------------------------------------------------------- every step keeps the invariant

  lemma {:induction false} AllocWellFormed(l: Layout, i: nat, request: nat)
    requires l.WellFormed() && 0 < request && Representable(request) && l.Fits(i, BlockWords(request))
    ensures l.Take(i, BlockWords(request), request).WellFormed()
    ensures l.Take(i, BlockWords(request), request).End() == l.End()
  {
    BlockWordsFit(request);
    TakeWellFormed(l, i, BlockWords(request), request);
  }

  lemma {:induction false} AllocExtendWellFormed(l: Layout, request: nat, pages: nat)
    requires l.WellFormed() && Enabled(l, AllocExtend(request, pages))
    ensures Apply(l, AllocExtend(request, pages)).WellFormed()
    ensures Apply(l, AllocExtend(request, pages)).End() == l.End() + pages * PAGE_WORDS
  {
    ExtendWellFormed(l, pages);
    ExtendEnlargesTail(l, pages);
    AllocWellFormed(l.Extend(pages), l.Extend(pages).Count() - 1, request);
  }

  lemma {:induction false} GrowStepWellFormed(l: Layout, i: nat, request: nat)
    requires l.WellFormed() && Enabled(l, Step.Grow(i, request))
    ensures Apply(l, Step.Grow(i, request)).WellFormed()
    ensures Apply(l, Step.Grow(i, request)).End() == l.End()
  {
    BlockWordsFit(request);
    GrowWellFormed(l, i, BlockWords(request), request);
  }

  /** Every step leaves a heap that is tiled by aligned blocks, roomy and coalesced. */
  lemma {:induction false} StepWellFormed(l: Layout, step: Step)
    requires l.WellFormed() && Enabled(l, step) && l.End() <= HEAP_MAX
    ensures Apply(l, step).WellFormed() && l.End() <= Apply(l, step).End() <= HEAP_MAX
  {
    match step
    case Alloc(request, i) => AllocWellFormed(l, i, request);
    case AllocExtend(request, pages) => AllocExtendWellFormed(l, request, pages);
    case Extend(pages) => ExtendWellFormed(l, pages);
    case Free(i) => ReleaseWellFormed(l, i);
    case Grow(i, request) => GrowStepWellFormed(l, i, request);
    case Store(_, _) =>
  }

  // ---------------------------------------------------------------- what a step does to other blocks

  /** Where the allocated block `k` is found after a step. */
  ghost function Where(l: Layout, step: Step, k: nat): nat
    requires l.WellFormed() && Enabled(l, step) && k < l.Count() && l.reqs[k] > 0
  {
    match step
    case Alloc(request, i) => if k < i || l.Size(i) == BlockWords(request) then k else k + 1
    case AllocExtend(_, _) => k
    case Extend(_) => k
    case Free(i) => if k <= i then k else k - Absorbed(l, i)
    case Grow(i, request) => if k <= i || l.cuts[i + 2] - l.cuts[i] != BlockWords(request) then k else k - 1
    case Store(_, _) => k
  }

  /** Block `k` of `l` and block `k'` of `l'` are the same allocation. */
  ghost predicate SameBlock(l: Layout, k: nat, l': Layout, k': nat)
    requires l.Shaped() && k < l.Count()
  {
    && l'.Shaped() && k' < l'.Count()
    && l'.cuts[k'] == l.cuts[k] && l'.cuts[k' + 1] == l.cuts[k + 1] && l'.reqs[k'] == l.reqs[k]
  }

  lemma {:induction false} TakeSameBlock(l: Layout, i: nat, words: int, request: nat, k: nat)
    requires l.Shaped() && i < l.Count() && k < l.Count() && k != i
    ensures SameBlock(l, k, l.Take(i, words, request), if k < i || l.Size(i) == words then k else k + 1)
  {
  }

  lemma {:induction false} ExtendSameBlock(l: Layout, pages: nat, k: nat)
    requires l.Shaped() && k < l.Count() && l.reqs[k] > 0
    ensures SameBlock(l, k, l.Extend(pages), k)
  {
    ExtendEnlargesTail(l, pages);
  }

  lemma {:induction false} AllocExtendSameBlock(l: Layout, request: nat, pages: nat, k: nat)
    requires l.WellFormed() && Enabled(l, AllocExtend(request, pages)) && k < l.Count() && l.reqs[k] > 0
    ensures SameBlock(l, k, Apply(l, AllocExtend(request, pages)), k)
  {
    var e := l.Extend(pages);
    var last := e.Count() - 1;
    assert e.Shaped() && k < last by { ExtendEnlargesTail(l, pages); }
    assert SameBlock(l, k, e, k) by { ExtendSameBlock(l, pages, k); }
    TakeSameBlock(e, last, BlockWords(request), request, k);
  }

  lemma {:induction false} JoinSameBlock(l: Layout, i: nat, k: nat)
    requires l.Shaped() && 0 < i < l.Count() && k < l.Count() && k != i && k != i - 1
    ensures SameBlock(l, k, l.Join(i), if k < i then k else k - 1)
  {
  }

  lemma {:induction false} MergeLeftSameBlock(l: Layout, i: nat, k: nat)
    requires l.Shaped() && i < l.Count() && k < l.Count() && l.reqs[k] > 0 && k != i
    ensures SameBlock(l, k, l.MergeLeft(i), if k < i then k else k - (i - l.MergedIndex(i)))
  {
    if i > 0 && l.reqs[i - 1] == 0 {
      JoinSameBlock(l, i, k);
    }
  }

  lemma {:induction false} MergeRightSameBlock(l: Layout, i: nat, k: nat)
    requires l.Shaped() && i < l.Count() && k < l.Count() && l.reqs[k] > 0 && k != i
    ensures SameBlock(l, k, l.MergeRight(i), if k < i || !(i + 1 < l.Count() && l.reqs[i + 1] == 0) then k else k - 1)
  {
    if i + 1 < l.Count() && l.reqs[i + 1] == 0 {
      JoinSameBlock(l, i + 1, k);
    }
  }

  /** The number of blocks that vanish at or below `i` when block `i` is freed. */
  function Absorbed(l: Layout, i: nat): nat
    requires i < l.Count()
  {
    (if i > 0 && l.reqs[i - 1] == 0 then 1 else 0) + (if i + 1 < l.Count() && l.reqs[i + 1] == 0 then 1 else 0)
  }

  lemma {:induction false} MergeSameBlock(l: Layout, i: nat, k: nat)
    requires l.Shaped() && i < l.Count() && k < l.Count() && l.reqs[k] > 0 && k != i
    ensures SameBlock(l, k, l.Merge(i), if k < i then k else k - Absorbed(l, i))
  {
    hide Layout.Join;
    MergeLeftSameBlock(l, i, k);
    var left, j := l.MergeLeft(i), l.MergedIndex(i);
    MergeLeftShape(l, i);
    MergeRightSameBlock(left, j, if k < i then k else k - (i - j));
  }

  lemma {:induction false} ReleaseSameBlock(l: Layout, i: nat, k: nat)
    requires l.Shaped() && i < l.Count() && k < l.Count() && l.reqs[k] > 0 && k != i
    ensures SameBlock(l, k, l.Release(i), if k < i then k else k - Absorbed(l, i))
  {
    hide Layout.Merge;
    MergeSameBlock(l.Mark(i, 0), i, k);
  }

  lemma {:induction false} GrowSameBlock(l: Layout, i: nat, words: int, request: nat, k: nat)
    requires l.Shaped() && i + 1 < l.Count() && k < l.Count() && k != i && k != i + 1
    ensures SameBlock(l, k, l.Grow(i, words, request),
                      if k <= i || l.cuts[i + 2] - l.cuts[i] != words then k else k - 1)
  {
    var joined := l.Mark(i, 0).Join(i + 1);
    assert joined.Size(i) == l.cuts[i + 2] - l.cuts[i];
    var j := if k < i then k else k - 1;
    assert SameBlock(l, k, joined, j);
    TakeSameBlock(joined, i, words, request, j);
  }

  lemma {:induction false} AllocKeeps(l: Layout, request: nat, i: nat, k: nat)
    requires l.WellFormed() && Enabled(l, Alloc(request, i)) && k < l.Count() && l.reqs[k] > 0
    ensures SameBlock(l, k, Apply(l, Alloc(request, i)), Where(l, Alloc(request, i), k))
  {
    TakeSameBlock(l, i, BlockWords(request), request, k);
  }

  lemma {:induction false} FreeKeeps(l: Layout, i: nat, k: nat)
    requires l.WellFormed() && Enabled(l, Free(i)) && k < l.Count() && l.reqs[k] > 0 && k != i
    ensures SameBlock(l, k, Apply(l, Free(i)), Where(l, Free(i), k))
  {
    hide Layout.Release, SameBlock, Ascending, AllAligned, AllRoomy, Layout.Coalesced;
    ReleaseSameBlock(l, i, k);
  }

  lemma {:induction false} GrowKeeps(l: Layout, i: nat, request: nat, k: nat)
    requires l.WellFormed() && Enabled(l, Step.Grow(i, request)) && k < l.Count() && l.reqs[k] > 0 && k != i
    ensures SameBlock(l, k, Apply(l, Step.Grow(i, request)), Where(l, Step.Grow(i, request), k))
  {
    GrowSameBlock(l, i, BlockWords(request), request, k);
  }

  /** An allocation that a step neither frees nor grows keeps its place, its size and its request. */
  lemma {:induction false} BlockKept(l: Layout, step: Step, k: nat)
    requires l.WellFormed() && Enabled(l, step) && k < l.Count() && l.reqs[k] > 0
    requires step != Free(k) && !(step.Grow? && step.i == k)
    ensures SameBlock(l, k, Apply(l, step), Where(l, step, k))
  {
    match step
    case Alloc(request, i) => AllocKeeps(l, request, i, k);
    case AllocExtend(request, pages) => AllocExtendSameBlock(l, request, pages, k);
    case Extend(pages) => ExtendSameBlock(l, pages, k);
    case Free(i) => FreeKeeps(l, i, k);
    case Grow(i, request) => GrowKeeps(l, i, request, k);
    case Store(_, _) =>
  }

  /** A grown allocation keeps its place and gets at least the room it asked for. */
  lemma {:induction false} BlockGrown(l: Layout, i: nat, request: nat)
    requires l.WellFormed() && Enabled(l, Step.Grow(i, request))
    ensures var l' := Apply(l, Step.Grow(i, request));
            && l'.Shaped() && i < l'.Count()
            && l'.cuts[i] == l.cuts[i] && l'.cuts[i + 1] > l.cuts[i + 1] && l'.reqs[i] == request
  {
    BlockWordsFit(request);
    GrowWellFormed(l, i, BlockWords(request), request);
  }

  /** No step writes into the data of an allocation that it does not free, except the owner's store. */
  lemma {:induction false} DataUntouched(l: Layout, step: Step, k: nat, a: int)
    requires l.WellFormed() && Enabled(l, step) && k < l.Count() && l.reqs[k] > 0 && InData(l, k, a)
    requires step != Free(k) && !(step.Store? && step.at == a)
    ensures !Touches(l, step, a)
  {
    hide Ascending, AllAligned, Layout.Coalesced;
    match step
    case Alloc(_, i) => Apart(l, k, i, i + 1, a);
    case AllocExtend(_, _) => BeforeTail(l, k, a);
    case Extend(_) => BeforeTail(l, k, a);
    case Free(i) => OutsideMerge(l, k, i, a);
    case Grow(i, _) =>
      assert Roomy(l.cuts[i], l.cuts[i + 1], l.reqs[i]);
      OutsideGrowth(l, k, i, a);
    case Store(_, _) =>
  }

  lemma {:induction false} BeforeTail(l: Layout, k: nat, a: int)
    requires l.Tiled() && k < l.Count() && l.reqs[k] > 0 && InData(l, k, a)
    ensures a < TailStart(l)
  {
    Apart(l, k, if l.reqs[l.Count() - 1] == 0 then l.Count() - 1 else l.Count(), l.Count(), a);
  }

  lemma {:induction false} OutsideMerge(l: Layout, k: nat, i: nat, a: int)
    requires l.WellFormed() && k < l.Count() && l.reqs[k] > 0 && InData(l, k, a) && Enabled(l, Free(i)) && k != i
    ensures !Touches(l, Free(i), a)
  {
    var lo := if i > 0 && l.reqs[i - 1] == 0 then i - 1 else i;
    var hi := if i + 1 < l.Count() && l.reqs[i + 1] == 0 then i + 2 else i + 1;
    Apart(l, k, lo, hi, a);
  }

  lemma {:induction false} OutsideGrowth(l: Layout, k: nat, i: nat, a: int)
    requires l.Tiled() && k < l.Count() && l.reqs[k] > 0 && InData(l, k, a) && i + 1 < l.Count() && l.reqs[i + 1] == 0
    requires l.cuts[i] + HEAD_WORDS <= l.cuts[i + 1]
    ensures !(l.cuts[i] <= a < l.cuts[i] + HEAD_WORDS || l.cuts[i + 1] <= a < l.cuts[i + 2])
  {
    Apart(l, k, i + 1, i + 2, a);
    if k != i {
      Apart(l, k, i, i + 1, a);
    }
  }

  /** An address inside block `k` is outside every run of blocks that leaves `k` out. */
  lemma {:induction false} Apart(l: Layout, k: nat, lo: nat, hi: nat, a: int)
    requires l.Tiled() && k < l.Count() && InData(l, k, a)
    requires lo <= hi <= l.Count() && (k < lo || hi <= k)
    ensures a < l.cuts[lo] || l.cuts[hi] <= a
  {
    if k < lo {
      assert k + 1 == lo || l.cuts[k + 1] < l.cuts[lo];
    } else {
      assert hi == k || l.cuts[hi] < l.cuts[k];
    }
  }

  // ---------------------------------------------------------------- whole runs

  ghost predicate Run(ls: seq<Layout>, ms: seq<seq<int>>, steps: seq<Step>)
  {
    && |ls| == |ms| == |steps| + 1
    && forall n | 0 <= n < |steps| :: NextAt(ls, ms, steps, n)
  }

  ghost predicate NextAt(ls: seq<Layout>, ms: seq<seq<int>>, steps: seq<Step>, n: nat)
    requires |ls| == |ms| == |steps| + 1 && n < |steps|
  {
    Next(ls[n], ms[n], steps[n], ls[n + 1], ms[n + 1])
  }

  /** The step frees the block that starts at `c`. */
  predicate Frees(l: Layout, step: Step, c: int)
  {
    step.Free? && step.i < |l.cuts| && l.cuts[step.i] == c
  }

  /** The empty heap that the first extension starts from. */
  function Empty(): Layout
  {
    Layout([HEAP_START], [])
  }

  lemma {:induction false} EmptyWellFormed()
    ensures Empty().WellFormed() && Empty().End() <= HEAP_MAX
  {
    assert Aligned(HEAP_START);
  }

  lemma {:induction false} NextWellFormed(l: Layout, m: seq<int>, step: Step, l': Layout, m': seq<int>)
    requires Next(l, m, step, l', m') && l.End() <= HEAP_MAX
    ensures l'.WellFormed() && l'.End() <= HEAP_MAX
  {
    StepWellFormed(l, step);
  }

  /** In every run from the empty heap, every layout is well formed and inside the address range. */
  lemma {:induction false} RunWellFormed(ls: seq<Layout>, ms: seq<seq<int>>, steps: seq<Step>, n: nat)
    requires Run(ls, ms, steps) && n < |ls| && ls[0] == Empty()
    ensures ls[n].WellFormed() && ls[n].End() <= HEAP_MAX
  {
    if n == 0 {
      EmptyWellFormed();
    } else {
      RunWellFormed(ls, ms, steps, n - 1);
      assert NextAt(ls, ms, steps, n - 1);
      NextWellFormed(ls[n - 1], ms[n - 1], steps[n - 1], ls[n], ms[n]);
    }
  }

  /** A run from the empty heap goes on with any step that is enabled in its last layout, and with any memory
      that differs only where the step may write. */
  lemma {:induction false} RunExtends(ls: seq<Layout>, ms: seq<seq<int>>, steps: seq<Step>, step: Step, m: seq<int>)
    requires Run(ls, ms, steps) && ls[0] == Empty()
    ensures ls[|steps|].WellFormed()
    ensures Enabled(ls[|steps|], step) && |m| == |ms[|steps|]|
            && (forall a | 0 <= a < |m| && !Touches(ls[|steps|], step, a) :: m[a] == ms[|steps|][a])
            ==> Run(ls + [Apply(ls[|steps|], step)], ms + [m], steps + [step])
  {
    hide Layout.WellFormed, Enabled, Apply, Touches, Empty;
    RunWellFormed(ls, ms, steps, |steps|);
    var l, n := ls[|steps|], |steps|;
    if Enabled(l, step) && |m| == |ms[n]| && (forall a | 0 <= a < |m| && !Touches(l, step, a) :: m[a] == ms[n][a]) {
      var ls', ms', steps' := ls + [Apply(l, step)], ms + [m], steps + [step];
      forall n | 0 <= n < |steps'|
        ensures NextAt(ls', ms', steps', n)
      {
        assert n < |steps| ==> NextAt(ls, ms, steps, n);
      }
    }
  }

  /** Live allocations never overlap: one request lies entirely below the other's header. */
  lemma {:induction false} LiveDisjoint(l: Layout, i: nat, j: nat)
    requires l.Tiled() && i < j < l.Count() && l.reqs[i] > 0
    ensures WORD_BYTES * (l.cuts[i] + HEAD_WORDS) + l.reqs[i] <= WORD_BYTES * (l.cuts[j] - FOOT_WORDS)
  {
    assert Roomy(l.cuts[i], l.cuts[i + 1], l.reqs[i]);
    assert i + 1 == j || l.cuts[i + 1] < l.cuts[j];
  }

  lemma {:induction false} StepKeepsBlock(l: Layout, step: Step, k: nat) returns (k': nat)
    requires l.WellFormed() && Enabled(l, step) && k < l.Count() && l.reqs[k] > 0 && step != Free(k)
    ensures Apply(l, step).Shaped() && k' < Apply(l, step).Count() && Apply(l, step).reqs[k'] > 0
    ensures Apply(l, step).cuts[k'] == l.cuts[k] && Apply(l, step).cuts[k' + 1] >= l.cuts[k + 1]
  {
    k' := Where(l, step, k);
    if step.Grow? && step.i == k {
      BlockGrown(l, k, step.request);
    } else {
      BlockKept(l, step, k);
    }
  }

  lemma {:induction false} NextKeepsWord(l: Layout, m: seq<int>, step: Step, l': Layout, m': seq<int>, k: nat, a: int)
    requires Next(l, m, step, l', m')
    requires k < l.Count() && l.reqs[k] > 0 && step != Free(k)
    requires InData(l, k, a) && 0 <= a < |m| && !(step.Store? && step.at == a)
    ensures |m'| == |m| && m'[a] == m[a]
  {
    DataUntouched(l, step, k, a);
  }

  /** Over a whole run, an allocation that is not freed stays where it is and does not shrink, and a
      word of its data changes only by a store to that very word. */
  lemma {:induction false} RunKeepsAllocation(
      ls: seq<Layout>, ms: seq<seq<int>>, steps: seq<Step>, k: nat, a: int, n: nat)
      returns (k': nat)
    requires Run(ls, ms, steps) && n < |ls|
    requires ls[0].WellFormed() && ls[0].End() <= HEAP_MAX
    requires k < ls[0].Count() && ls[0].reqs[k] > 0
    requires forall r | 0 <= r < n :: !Frees(ls[r], steps[r], ls[0].cuts[k])
    requires InData(ls[0], k, a) && 0 <= a < |ms[0]|
    requires forall r | 0 <= r < n && steps[r].Store? :: steps[r].at != a
    ensures ls[n].WellFormed() && ls[n].End() <= HEAP_MAX
    ensures k' < ls[n].Count() && ls[n].reqs[k'] > 0
    ensures ls[n].cuts[k'] == ls[0].cuts[k] && ls[n].cuts[k' + 1] >= ls[0].cuts[k + 1]
    ensures |ms[n]| == |ms[0]| && ms[n][a] == ms[0][a]
  {
    if n == 0 {
      k' := k;
    } else {
      var j := RunKeepsAllocation(ls, ms, steps, k, a, n - 1);
      assert NextAt(ls, ms, steps, n - 1);
      NextWellFormed(ls[n - 1], ms[n - 1], steps[n - 1], ls[n], ms[n]);
      assert steps[n - 1] != Free(j) by { assert !Frees(ls[n - 1], steps[n - 1], ls[0].cuts[k]); }
      NextKeepsWord(ls[n - 1], ms[n - 1], steps[n - 1], ls[n], ms[n], j, a);
      k' := StepKeepsBlock(ls[n - 1], steps[n - 1], j);
    }
  }

  /** Freeing the allocation just made takes the heap back to where it was. */
  lemma {:induction false} FreeUndoesAlloc(l: Layout, request: nat, i: nat)
    requires l.WellFormed() && Enabled(l, Alloc(request, i))
    ensures var l' := Apply(l, Alloc(request, i));
            l'.WellFormed() && Enabled(l', Free(i)) && Apply(l', Free(i)) == l
  {
    AllocWellFormed(l, i, request);
    ReleaseUndoesTake(l, i, BlockWords(request), request);
  }

  /** If the heap had to be extended, freeing leaves the old layout with only its trailing free space
      enlarged. */
  lemma {:induction false} FreeUndoesAllocExtend(l: Layout, request: nat, pages: nat)
    requires l.WellFormed() && Enabled(l, AllocExtend(request, pages))
    ensures l.Extend(pages).Count() > 0
    ensures var l' := Apply(l, AllocExtend(request, pages));
            var i := l.Extend(pages).Count() - 1;
            l'.WellFormed() && Enabled(l', Free(i)) && Apply(l', Free(i)) == l.Extend(pages)
  {
    ExtendWellFormed(l, pages);
    ExtendEnlargesTail(l, pages);
    AllocExtendWellFormed(l, request, pages);
    ReleaseUndoesTake(l.Extend(pages), l.Extend(pages).Count() - 1, BlockWords(request), request);
  }
}
