/** How a layout is written into memory: every block has its size and a magic word in its header and a
    footer that points back to the header.  The lemmas say which words must be written for the memory
    to show the next layout. */
module HeapMemory {
  import opened HeapLayout

  const MAGIC_FOOT := 0x544F_4F46
  const MAGIC_FREE := 0x4545_5246
  const MAGIC_USED := 0x4445_5355

  // Word offsets of the header's fields
  const VALID_SIZE := 1
  const FILE := 2
  const LINE := 3
  const MAGIC := 4
  const ALLOCATE_TIME := 5

  /** The memory holds a block from `lo` up to `hi`. */
  predicate BlockIn(m: seq<int>, lo: int, hi: int, request: nat)
  {
    && 0 <= lo && lo + MIN_WORDS <= hi <= |m|
    && m[lo] == hi - lo
    && m[lo + MAGIC] == (if request > 0 then MAGIC_USED else MAGIC_FREE)
    && (request > 0 ==> m[lo + VALID_SIZE] == request)
    && m[hi - 2] == MAGIC_FOOT
    && m[hi - 1] == lo
  }

  ghost predicate AllIn(m: seq<int>, l: Layout)
  {
    && l.Tiled()
    && forall i | 0 <= i < l.Count() :: BlockIn(m, l.cuts[i], l.cuts[i + 1], l.reqs[i])
  }

  /** The memories differ only between `lo` and `hi`. */
  ghost predicate AgreeOutside(m: seq<int>, m': seq<int>, lo: int, hi: int)
  {
    |m'| == |m| && forall a | 0 <= a < |m| && !(lo <= a < hi) :: m'[a] == m[a]
  }

  lemma {:induction false} BlockKeptIn(m: seq<int>, m': seq<int>, lo: int, hi: int, request: nat, from: int, to: int)
    requires BlockIn(m, lo, hi, request) && AgreeOutside(m, m', from, to)
    requires hi <= from || to <= lo
    ensures BlockIn(m', lo, hi, request)
  {
  }

  /** All blocks but `i` survive a change inside block `i`. */
  lemma {:induction false} OthersIn(m: seq<int>, m': seq<int>, l: Layout, lo: nat, hi: nat, k: nat)
    requires AllIn(m, l) && lo <= hi <= l.Count() && AgreeOutside(m, m', l.cuts[lo], l.cuts[hi])
    requires k < l.Count() && (k < lo || hi <= k)
    ensures BlockIn(m', l.cuts[k], l.cuts[k + 1], l.reqs[k])
  {
    assert BlockIn(m, l.cuts[k], l.cuts[k + 1], l.reqs[k]);
    if k < lo {
      assert k + 1 == lo || l.cuts[k + 1] < l.cuts[lo];
    } else {
      assert hi == k || l.cuts[hi] < l.cuts[k];
    }
    BlockKeptIn(m, m', l.cuts[k], l.cuts[k + 1], l.reqs[k], l.cuts[lo], l.cuts[hi]);
  }

  lemma {:induction false} MarkIn(m: seq<int>, m': seq<int>, l: Layout, i: nat, request: nat)
    requires AllIn(m, l) && i < l.Count() && Roomy(l.cuts[i], l.cuts[i + 1], request)
    requires AgreeOutside(m, m', l.cuts[i], l.cuts[i + 1])
    requires BlockIn(m', l.cuts[i], l.cuts[i + 1], request)
    ensures AllIn(m', l.Mark(i, request))
  {
    hide Ascending, AllAligned, AllRoomy;
    var s := l.Mark(i, request);
    assert s.Tiled() by { MarkTiled(l, i, request); }
    forall k | 0 <= k < s.Count()
      ensures BlockIn(m', s.cuts[k], s.cuts[k + 1], s.reqs[k])
    {
      if k != i {
        OthersIn(m, m', l, i, i + 1, k);
      }
    }
  }

  /** Two adjacent blocks, of which the second is free, become one free block. */
  lemma {:induction false} FreeJoinIn(m: seq<int>, m': seq<int>, l: Layout, i: nat)
    requires AllIn(m, l) && i + 1 < l.Count() && l.reqs[i + 1] == 0
    requires AgreeOutside(m, m', l.cuts[i], l.cuts[i + 2])
    requires BlockIn(m', l.cuts[i], l.cuts[i + 2], 0)
    ensures AllIn(m', l.Mark(i, 0).Join(i + 1))
  {
    hide Ascending, AllAligned, AllRoomy;
    var free := l.Mark(i, 0);
    assert free.Tiled() by { MarkTiled(l, i, 0); }
    var s := free.Join(i + 1);
    assert s.Tiled() by { JoinTiled(free, i + 1); }
    forall k | 0 <= k < s.Count()
      ensures BlockIn(m', s.cuts[k], s.cuts[k + 1], s.reqs[k])
    {
      if k < i {
        assert s.cuts[k] == l.cuts[k] && s.cuts[k + 1] == l.cuts[k + 1] && s.reqs[k] == l.reqs[k];
        OthersIn(m, m', l, i, i + 2, k);
      } else if k > i {
        assert s.cuts[k] == l.cuts[k + 1] && s.cuts[k + 1] == l.cuts[k + 2] && s.reqs[k] == l.reqs[k + 1];
        OthersIn(m, m', l, i, i + 2, k + 1);
      }
    }
  }

  /** The free block `i` is allocated, whole or in its lower part. */
  lemma {:induction false} TakeIn(m: seq<int>, m': seq<int>, l: Layout, i: nat, words: int, request: nat)
    requires AllIn(m, l) && l.Fits(i, words)
    requires Aligned(words) && Roomy(0, words, request) && words > 0
    requires AgreeOutside(m, m', l.cuts[i], l.cuts[i + 1])
    requires BlockIn(m', l.cuts[i], l.cuts[i] + words, request)
    requires words < l.Size(i) ==> BlockIn(m', l.cuts[i] + words, l.cuts[i + 1], 0)
    ensures AllIn(m', l.Take(i, words, request))
  {
    hide Ascending, AllAligned, AllRoomy;
    if words == l.Size(i) {
      MarkIn(m, m', l, i, request);
    } else {
      var split := l.Split(i, words);
      assert split.Tiled() && split.Size(i) == words by { SplitTiled(l, i, words); }
      var s := split.Mark(i, request);
      assert s.Tiled() by { MarkTiled(split, i, request); }
      forall k | 0 <= k < s.Count()
        ensures BlockIn(m', s.cuts[k], s.cuts[k + 1], s.reqs[k])
      {
        if k < i {
          assert s.cuts[k] == l.cuts[k] && s.cuts[k + 1] == l.cuts[k + 1] && s.reqs[k] == l.reqs[k];
          OthersIn(m, m', l, i, i + 1, k);
        } else if k > i + 1 {
          assert s.cuts[k] == l.cuts[k - 1] && s.cuts[k + 1] == l.cuts[k] && s.reqs[k] == l.reqs[k - 1];
          OthersIn(m, m', l, i, i + 1, k - 1);
        }
      }
    }
  }

  /** The allocated block `i` takes over the free block after it, whole or in its lower part. */
  lemma {:induction false} GrowIn(m: seq<int>, m': seq<int>, l: Layout, i: nat, words: int, request: nat)
    requires AllIn(m, l) && i + 1 < l.Count() && l.reqs[i + 1] == 0
    requires Aligned(words) && Roomy(0, words, request) && 0 < words <= l.cuts[i + 2] - l.cuts[i]
    requires AgreeOutside(m, m', l.cuts[i], l.cuts[i + 2])
    requires BlockIn(m', l.cuts[i], l.cuts[i] + words, request)
    requires words < l.cuts[i + 2] - l.cuts[i] ==> BlockIn(m', l.cuts[i] + words, l.cuts[i + 2], 0)
    ensures AllIn(m', l.Grow(i, words, request))
  {
    hide Ascending, AllAligned, AllRoomy;
    var lo, hi := l.cuts[i], l.cuts[i + 2];
    assert BlockIn(m, lo, l.cuts[i + 1], l.reqs[i]) && BlockIn(m, l.cuts[i + 1], hi, 0);
    var between := m[lo := hi - lo][lo + MAGIC := MAGIC_FREE][hi - 1 := lo];
    FreeJoinIn(m, between, l, i);
    var joined := l.Mark(i, 0).Join(i + 1);
    assert joined.cuts[i] == lo && joined.cuts[i + 1] == hi && joined.reqs[i] == 0;
    TakeIn(between, m', joined, i, words, request);
  }

  lemma {:induction false} JoinIn(m: seq<int>, m': seq<int>, l: Layout, i: nat)
    requires AllIn(m, l) && 0 < i < l.Count() && l.reqs[i] == 0 && l.reqs[i - 1] == 0
    requires AgreeOutside(m, m', l.cuts[i - 1], l.cuts[i + 1])
    requires BlockIn(m', l.cuts[i - 1], l.cuts[i + 1], 0)
    ensures AllIn(m', l.Join(i))
  {
    hide Ascending, AllAligned, AllRoomy;
    var s := l.Join(i);
    assert s.Tiled() by { JoinTiled(l, i); }
    forall k | 0 <= k < s.Count()
      ensures BlockIn(m', s.cuts[k], s.cuts[k + 1], s.reqs[k])
    {
      if k < i - 1 {
        assert s.cuts[k] == l.cuts[k] && s.cuts[k + 1] == l.cuts[k + 1] && s.reqs[k] == l.reqs[k];
        OthersIn(m, m', l, i - 1, i + 1, k);
      } else if k >= i {
        assert s.cuts[k] == l.cuts[k + 1] && s.cuts[k + 1] == l.cuts[k + 2] && s.reqs[k] == l.reqs[k + 1];
        OthersIn(m, m', l, i - 1, i + 1, k + 1);
      }
    }
  }

  lemma {:induction false} AppendIn(m: seq<int>, m': seq<int>, l: Layout, words: int)
    requires AllIn(m, l) && l.WellFormed() && words > 0 && Aligned(words)
    requires AgreeOutside(m, m', l.End(), l.End() + words)
    requires BlockIn(m', l.End(), l.End() + words, 0)
    ensures AllIn(m', l.Append(words))
  {
    hide AllAligned, AllRoomy;
    var s := l.Append(words);
    assert s.Tiled() by { AppendTiled(l, words); }
    forall k | 0 <= k < s.Count()
      ensures BlockIn(m', s.cuts[k], s.cuts[k + 1], s.reqs[k])
    {
      if k < l.Count() {
        assert BlockIn(m, l.cuts[k], l.cuts[k + 1], l.reqs[k]);
        assert k + 1 == l.Count() || l.cuts[k + 1] < l.cuts[l.Count()];
        BlockKeptIn(m, m', l.cuts[k], l.cuts[k + 1], l.reqs[k], l.End(), l.End() + words);
      }
    }
  }

  /** Walking a represented heap by the sizes in its headers visits exactly the layout's cuts. */
  lemma {:induction false} WalkIn(m: seq<int>, l: Layout)
    requires AllIn(m, l)
    ensures Walk(a => if 0 <= a < |m| then m[a] else 0, HEAP_START, l.End()) == l.cuts
  {
    var sizeAt := a => if 0 <= a < |m| then m[a] else 0;
    forall k | 0 <= k < l.Count()
      ensures sizeAt(l.cuts[k]) == l.cuts[k + 1] - l.cuts[k]
    {
      assert BlockIn(m, l.cuts[k], l.cuts[k + 1], l.reqs[k]);
    }
    WalkLandsOnEnd(l, sizeAt, 0);
    assert l.cuts[0..] == l.cuts;
  }

  // ---------------------------------------------------------------- the validator

  /** What the validator checks of the block from `lo` up to `hi`. */
  predicate Tagged(m: seq<int>, lo: int, hi: int)
  {
    && 0 <= lo < hi <= |m| && Aligned(hi - lo)
    && m[lo] == hi - lo
    && (m[lo + MAGIC] == MAGIC_FREE || m[lo + MAGIC] == MAGIC_USED)
    && m[hi - 2] == MAGIC_FOOT
    && m[hi - 1] == lo
  }

  /** A walk from the start of the heap through blocks that pass, each of which starts before the end. */
  ghost predicate Steps(m: seq<int>, cuts: seq<int>, end: int)
  {
    && |cuts| > 0 && cuts[0] == HEAP_START
    && forall k, n | 0 <= k && n == k + 1 && n < |cuts| :: cuts[k] < end && Tagged(m, cuts[k], cuts[n])
  }

  /** The walk gets to the end, or past it. */
  ghost predicate Walked(m: seq<int>, cuts: seq<int>, end: int)
  {
    Steps(m, cuts, end) && cuts[|cuts| - 1] >= end
  }

  lemma {:induction false} StepsOn(m: seq<int>, cuts: seq<int>, end: int, next: int)
    requires Steps(m, cuts, end) && cuts[|cuts| - 1] < end && Tagged(m, cuts[|cuts| - 1], next)
    ensures Steps(m, cuts + [next], end)
  {
  }

  /** A walk that is not over is the beginning of every walk that is. */
  lemma {:induction false} StepsPrefix(m: seq<int>, cuts: seq<int>, all: seq<int>, end: int, n: nat)
    requires Steps(m, cuts, end) && Walked(m, all, end) && n < |cuts|
    ensures n < |all| && all[n] == cuts[n]
  {
    if n > 0 {
      StepsPrefix(m, cuts, all, end, n - 1);
      assert cuts[n - 1] < end && Tagged(m, cuts[n - 1], cuts[n]);
      assert n < |all| ==> Tagged(m, all[n - 1], all[n]);
    }
  }

  lemma {:induction false} WalkBegins(m: seq<int>, end: int)
    ensures Steps(m, [HEAP_START], end)
  {
  }

  lemma {:induction false} WalkedNext(m: seq<int>, all: seq<int>, end: int, n: nat)
    requires Walked(m, all, end) && n < |all| && all[n] < end
    ensures n + 1 < |all| && Tagged(m, all[n], all[n + 1])
  {
    if n + 1 < |all| {
      assert Tagged(m, all[n], all[n + 1]);
    }
  }

  /** A walk that is not over goes on to `next` just if the block up to there passes; otherwise no walk does. */
  lemma {:induction false} WalkGoesOn(m: seq<int>, cuts: seq<int>, end: int, next: int)
    requires Steps(m, cuts, end)
    requires var head := cuts[|cuts| - 1]; 0 <= head < end <= |m| && next == head + m[head]
    ensures if Tagged(m, cuts[|cuts| - 1], next) then Steps(m, cuts + [next], end)
            else forall all :: !Walked(m, all, end)
  {
    var head, n := cuts[|cuts| - 1], |cuts| - 1;
    if Tagged(m, head, next) {
      StepsOn(m, cuts, end, next);
    } else {
      forall all
        ensures !Walked(m, all, end)
      {
        if Walked(m, all, end) {
          StepsPrefix(m, cuts, all, end, n);
          WalkedNext(m, all, end, n);
        }
      }
    }
  }

  /** There is only one walk. */
  lemma {:induction false} WalkedOnce(m: seq<int>, cuts: seq<int>, all: seq<int>, end: int)
    requires Walked(m, cuts, end) && Walked(m, all, end)
    ensures cuts == all
  {
    StepsPrefix(m, cuts, all, end, |cuts| - 1);
    StepsPrefix(m, all, cuts, end, |all| - 1);
    forall n | 0 <= n < |cuts|
      ensures n < |all| && cuts[n] == all[n]
    {
      StepsPrefix(m, cuts, all, end, n);
    }
  }

  /** Memory that shows a layout passes, block by block. */
  lemma {:induction false} LayoutWalked(m: seq<int>, l: Layout)
    requires AllIn(m, l)
    ensures Walked(m, l.cuts, l.End())
  {
    hide AllRoomy, Ascending, AllAligned, BlockIn, Tagged;
    forall k, n | 0 <= k && n == k + 1 && n < |l.cuts|
      ensures l.cuts[k] < l.End() && Tagged(m, l.cuts[k], l.cuts[n])
    {
      LayoutTagged(m, l, k);
    }
  }

  lemma {:induction false} LayoutTagged(m: seq<int>, l: Layout, k: nat)
    requires AllIn(m, l) && k < l.Count()
    ensures l.cuts[k] < l.End() && Tagged(m, l.cuts[k], l.cuts[k + 1])
  {
    hide AllRoomy, BlockIn, Tagged, Aligned;
    assert BlockIn(m, l.cuts[k], l.cuts[k + 1], l.reqs[k]);
    BlockTagged(m, l.cuts[k], l.cuts[k + 1], l.reqs[k]);
    assert l.cuts[k] < l.cuts[|l.cuts| - 1];
  }

  lemma {:induction false} BlockTagged(m: seq<int>, lo: int, hi: int, request: nat)
    requires BlockIn(m, lo, hi, request) && Aligned(lo) && Aligned(hi)
    ensures Tagged(m, lo, hi)
  {
    assert Aligned(hi - lo);
  }

  /** A walk that lands on the end tiles the heap with aligned blocks. */
  lemma {:induction false} WalkedTiles(m: seq<int>, cuts: seq<int>, end: int)
    requires Walked(m, cuts, end) && cuts[|cuts| - 1] == end
    ensures Ascending(cuts) && AllAligned(cuts) && cuts[0] == HEAP_START
    ensures forall k, n | 0 <= k && n == k + 1 && n < |cuts| ::
              && 0 <= cuts[k] && cuts[k] + 8 <= cuts[n] <= |m|
              && m[cuts[k]] == cuts[n] - cuts[k]
              && (m[cuts[k] + 4] == MAGIC_FREE || m[cuts[k] + 4] == MAGIC_USED)
              && m[cuts[n] - 2] == MAGIC_FOOT && m[cuts[n] - 1] == cuts[k]
  {
    forall k, n | 0 <= k && n == k + 1 && n < |cuts|
      ensures && 0 <= cuts[k] && cuts[k] + 8 <= cuts[n] <= |m|
              && m[cuts[k]] == cuts[n] - cuts[k]
              && (m[cuts[k] + 4] == MAGIC_FREE || m[cuts[k] + 4] == MAGIC_USED)
              && m[cuts[n] - 2] == MAGIC_FOOT && m[cuts[n] - 1] == cuts[k]
    {
      assert Tagged(m, cuts[k], cuts[n]);
      AtLeastOne(cuts[n] - cuts[k]);
    }
    forall i, j | 0 <= i < j < |cuts|
      ensures cuts[i] < cuts[j]
    {
      StepsAscend(m, cuts, end, i, j);
    }
    forall i | 0 <= i < |cuts|
      ensures Aligned(cuts[i])
    {
      StepsAligned(m, cuts, end, i);
    }
  }

  lemma {:induction false} AtLeastOne(words: int)
    requires Aligned(words) && words > 0
    ensures words >= 8
  {
  }

  lemma {:induction false} StepsAscend(m: seq<int>, cuts: seq<int>, end: int, i: nat, j: nat)
    requires Steps(m, cuts, end) && i < j < |cuts|
    ensures cuts[i] < cuts[j]
  {
    assert Tagged(m, cuts[j - 1], cuts[j]);
    if i < j - 1 {
      StepsAscend(m, cuts, end, i, j - 1);
    }
  }

  lemma {:induction false} StepsAligned(m: seq<int>, cuts: seq<int>, end: int, i: nat)
    requires Steps(m, cuts, end) && i < |cuts|
    ensures Aligned(cuts[i])
  {
    if i == 0 {
      assert Aligned(HEAP_START);
    } else {
      StepsAligned(m, cuts, end, i - 1);
      assert Tagged(m, cuts[i - 1], cuts[i]);
      AlignedSum(cuts[i - 1], cuts[i] - cuts[i - 1]);
    }
  }

  /** A walk can get past the end: the validator does not look at where the last block stops. */
  lemma {:induction false} WalkedPast() returns (m: seq<int>, cuts: seq<int>)
    ensures |m| == HEAP_MAX && Walked(m, cuts, HEAP_START + MIN_WORDS) && cuts[|cuts| - 1] > HEAP_START + MIN_WORDS
  {
    m := seq(HEAP_MAX, i => if i == HEAP_START then 2 * MIN_WORDS
                            else if i == HEAP_START + MAGIC then MAGIC_FREE
                            else if i == HEAP_START + 2 * MIN_WORDS - 2 then MAGIC_FOOT
                            else HEAP_START);
    cuts := [HEAP_START, HEAP_START + 2 * MIN_WORDS];
    assert Tagged(m, cuts[0], cuts[1]);
  }
}
