/** The kernel heap: a best-fit allocator over boundary tags, working in place on an array of words. */
module Heap {
  import opened HeapLayout
  import opened HeapMemory
  import opened HeapRuns

  class KernelHeap {
    /** Memory by word address; the heap occupies the words from HEAP_START up to `end`. */
    const mem: array<int>
    /** The first word after the heap. */
    var end: int
    ghost var layout: Layout

    /** The memory shows the layout, which tiles the heap exactly. */
    ghost predicate Represented()
      reads this, mem
    {
      && mem.Length == HEAP_MAX
      && AllIn(mem[..], layout)
      && end == layout.End() <= HEAP_MAX
    }

    ghost predicate Valid()
      reads this, mem
    {
      Represented() && layout.WellFormed()
    }

    /** An empty heap, grown by its initial 32 KiB if the machine has that much memory. */
    constructor (available: nat)
      ensures Valid() && fresh(mem)
      ensures layout == if available >= 8 then Empty().Extend(8) else Empty()
    {
      mem := new int[HEAP_MAX];
      end := HEAP_START;
      layout := Empty();
      new;
      EmptyWellFormed();
      var head := Extend(0x8000, available);
    }

    /** Grow the heap by whole pages.  `available` is the number of pages that can still be mapped. */
    method Extend(bytes: nat, available: nat) returns (head: int)
      requires Valid() && Growable(end, bytes, available)
      modifies this`end, this`layout, mem
      ensures Valid()
      ensures head == 0 <==>
              bytes == 0 || old(end) + PagesFor(bytes) * PAGE_WORDS > HEAP_MAX || PagesFor(bytes) > available
      ensures head == 0 ==> end == old(end) && layout == old(layout) && mem[..] == old(mem[..])
      ensures head != 0 ==>
                && layout == old(layout).Extend(PagesFor(bytes))
                && layout.Count() > 0 && head == layout.cuts[layout.Count() - 1] == TailStart(old(layout))
                && AgreeOutside(old(mem[..]), mem[..], TailStart(old(layout)), old(end) + PagesFor(bytes) * PAGE_WORDS)
    {
      hide Layout.Coalesced, Ascending, AllAligned, AllRoomy, Layout.Extend, AllIn;
      EndAbove(layout);
      if end == HEAP_MAX {
        return 0;
      }
      if bytes == 0 {
        return 0;
      }
      var pages := (bytes + 0xFFF) % SIZE_MODULUS / 4096;
      NewEndExact(end, bytes);
      var newEnd := NewEndBytes(end, bytes) / WORD_BYTES;
      assert pages == PagesFor(bytes) && (newEnd == end + pages * PAGE_WORDS || pages > available);
      if newEnd > HEAP_MAX {
        return 0;
      }
      var i := 0;
      while i < pages
        invariant i <= pages && i <= available
      {
        if i >= available {
          return 0;
        }
        i := i + 1;
      }
      head := Attach(newEnd, pages);
    }

    /** Make the pages between the old and the new end a free block and merge it downwards. */
    method Attach(newEnd: int, ghost pages: nat) returns (head: int)
      requires Valid() && pages > 0 && newEnd == end + pages * PAGE_WORDS <= HEAP_MAX
      modifies this`end, this`layout, mem
      ensures Valid() && end == newEnd
      ensures layout == old(layout).Extend(pages)
      ensures layout.Count() > 0 && head == layout.cuts[layout.Count() - 1] == TailStart(old(layout))
      ensures AgreeOutside(old(mem[..]), mem[..], TailStart(old(layout)), newEnd)
    {
      hide Layout.Coalesced, Layout.Join, Layout.MergeLeft, Layout.MergeRight, Layout.Merge, Layout.Extend;
      hide Layout.Append;
      hide Ascending, AllAligned, AllRoomy, CoalescedExcept, Aligned;
      ghost var l, m := layout, mem[..];
      ghost var words := pages * PAGE_WORDS;
      head := end;
      var size := newEnd - head;
      EndAbove(l);
      end := newEnd;
      NewTags(head, size);
      layout := l.Append(words);
      AlignedPages(pages);
      AppendTiled(l, words);
      AppendIn(m, mem[..], l, words);
      AttachShape(l, pages);
      head := Merge(head, l.Count());
    }

    /** Write the header and footer of a new free block. */
    method NewTags(head: int, words: int)
      requires 0 <= head && words >= MIN_WORDS && head + words <= mem.Length
      modifies mem
      ensures BlockIn(mem[..], head, head + words, 0)
      ensures AgreeOutside(old(mem[..]), mem[..], head, head + words)
    {
      mem[head] := words;
      mem[head + MAGIC] := MAGIC_FREE;
      var foot := head + mem[head] - FOOT_WORDS;
      mem[foot + 1] := head;
      mem[foot] := MAGIC_FOOT;
    }

    /** Walk the heap for the first of the smallest free blocks that hold `words`, stopping at once at a
        perfect fit.  The walk checks every header it passes; on a well-formed heap no check fires. */
    method FindBest(words: int) returns (best: int, ghost b: nat)
      requires Valid()
      ensures best == 0 <==> forall i: nat | i < layout.Count() :: !layout.Fits(i, words)
      ensures best != 0 ==> layout.BestFit(b, words) && best == layout.cuts[b]
    {
      hide Ascending, AllAligned, AllRoomy, Layout.Coalesced, Layout.BestFit, BestBelow;
      best, b := 0, 0;
      var bestSize := SIZE_MODULUS - 1;
      var head := HEAP_START;
      ghost var k := 0;
      while head < end
        invariant k <= layout.Count() && head == layout.cuts[k]
        invariant best == 0 ==> NoFitBelow(layout, k, words) && bestSize == SIZE_MODULUS - 1
        invariant best != 0 ==>
                    && b < k && BestBelow(layout, k, b, words)
                    && best == layout.cuts[b] && bestSize == layout.Size(b) != words
        decreases end - head
      {
        CutBounds(layout, k);
        assert BlockIn(mem[..], layout.cuts[k], layout.cuts[k + 1], layout.reqs[k]);
        assert mem[head] % MIN_WORDS == 0 && MIN_WORDS <= mem[head] && WORD_BYTES * mem[head] <= 0x8000_0000;
        assert mem[head + MAGIC] == MAGIC_USED || mem[head + MAGIC] == MAGIC_FREE;
        ExtendSearch(layout, k, b, best != 0, words);
        if mem[head + MAGIC] != MAGIC_USED && mem[head] >= words {
          if mem[head] == words {
            return head, k;
          }
          if bestSize > mem[head] {
            best, bestSize, b := head, mem[head], k;
          }
        }
        head := head + mem[head];
        k := k + 1;
      }
      if k < layout.Count() {
        CutBounds(layout, k);
      }
      BestBelowAll(layout, b, best != 0, words);
    }

    /** The heap's own validator: walk the blocks by their footers and check every header and footer.  It
        accepts just the memory in which such a walk gets to the end of the heap, and so every heap that keeps
        the invariant. */
    method Validate() returns (ok: bool, ghost cuts: seq<int>)
      requires mem.Length == HEAP_MAX && HEAP_START <= end <= HEAP_MAX
      ensures ok <==> exists all :: Walked(mem[..], all, end)
      ensures ok ==> Walked(mem[..], cuts, end)
      ensures Valid() ==> ok && cuts == layout.cuts
    {
      hide Valid, Steps;
      if Valid() {
        ValidWalked(this);
      }
      ok, cuts := false, [HEAP_START];
      WalkBegins(mem[..], end);
      var head := HEAP_START;
      while head < end
        invariant |cuts| > 0 && Steps(mem[..], cuts, end) && head == cuts[|cuts| - 1]
        invariant HEAP_START <= head <= HEAP_MAX && Aligned(head)
        decreases HEAP_MAX - head
      {
        ghost var next := head + mem[head];
        WalkGoesOn(mem[..], cuts, end, next);
        var foot := head + mem[head] - FOOT_WORDS;
        if mem[head] <= 0 || mem[head] % MIN_WORDS != 0 {
          return;
        }
        if mem[head + MAGIC] != MAGIC_FREE && mem[head + MAGIC] != MAGIC_USED {
          return;
        }
        // The memory of the model ends here
        if foot + FOOT_WORDS > HEAP_MAX {
          return;
        }
        if mem[foot] != MAGIC_FOOT || mem[foot + 1] != head {
          return;
        }
        AlignedSum(head, mem[head]);
        head := foot + FOOT_WORDS;
        cuts := cuts + [next];
      }
      ok := true;
      assert Walked(mem[..], cuts, end);
      if Valid() {
        WalkedOnce(mem[..], cuts, layout.cuts, end);
      }
    }

    /** The owner of an allocation stores a word of data. */
    method Store(at: int, x: int, ghost i: nat)
      requires Valid() && i < layout.Count() && layout.reqs[i] > 0 && InData(layout, i, at)
      modifies mem
      ensures Valid() && mem[..] == old(mem[..])[at := x]
      ensures Next(old(layout), old(mem[..]), Step.Store(i, at), layout, mem[..])
    {
      hide Ascending, AllAligned, AllRoomy, Layout.Coalesced;
      ghost var m := mem[..];
      CutBounds(layout, i);
      StoreIn(m, layout, i, at, x);
      mem[at] := x;
      assert mem[..] == m[at := x];
    }

    /** Fill in the header of an allocated block. */
    method StampUsed(head: int, request: nat, file: int, line: int, timeLow: int, timeHigh: int)
      requires 0 <= head && head + HEAD_WORDS <= mem.Length
      modifies mem
      ensures mem[head + MAGIC] == MAGIC_USED && mem[head + VALID_SIZE] == request
      ensures forall a | 0 <= a < mem.Length && !(head + VALID_SIZE <= a < head + HEAD_WORDS) :: mem[a] == old(mem[a])
    {
      mem[head + MAGIC] := MAGIC_USED;
      mem[head + FILE] := file;
      mem[head + LINE] := line;
      mem[head + VALID_SIZE] := request;
      mem[head + ALLOCATE_TIME] := timeLow;
      mem[head + ALLOCATE_TIME + 1] := timeHigh;
    }

    /** Cut a free block in two and allocate the lower part. */
    method SplitTags(best: int, words: int, request: nat, file: int, line: int, timeLow: int, timeHigh: int)
      requires 0 <= best < mem.Length && BlockIn(mem[..], best, best + mem[best], 0)
      requires 2 * MIN_WORDS <= words && words + MIN_WORDS <= mem[best] && request > 0
      modifies mem
      ensures BlockIn(mem[..], best, best + words, request)
      ensures BlockIn(mem[..], best + words, best + old(mem[best]), 0)
      ensures AgreeOutside(old(mem[..]), mem[..], best, best + old(mem[best]))
    {
      var newSize := mem[best] - words;
      mem[best] := words;
      StampUsed(best, request, file, line, timeLow, timeHigh);
      var newFoot := best + mem[best] - FOOT_WORDS;
      mem[newFoot + 1] := best;
      mem[newFoot] := MAGIC_FOOT;
      var newHead := best + mem[best];
      mem[newHead] := newSize;
      mem[newHead + MAGIC] := MAGIC_FREE;
      mem[newHead + VALID_SIZE] := 0;
      mem[newHead + FILE] := 0;
      mem[newHead + LINE] := 0;
      var foot := newHead + mem[newHead] - FOOT_WORDS;
      mem[foot + 1] := newHead;
    }

    /** Allocate the free block at `best`, or its lower part. */
    method Take(best: int, words: int, request: nat, file: int, line: int, timeLow: int, timeHigh: int, ghost b: nat)
      requires Valid()
      requires layout.Fits(b, words) && best == layout.cuts[b]
      requires Aligned(words) && request > 0 && Roomy(0, words, request)
      modifies this`layout, mem
      ensures Valid()
      ensures layout == old(layout).Take(b, words, request)
      ensures AgreeOutside(old(mem[..]), mem[..], old(layout).cuts[b], old(layout).cuts[b + 1])
    {
      hide AllAligned, AllRoomy, Layout.Coalesced, Layout.Split, Layout.Mark, CoalescedExcept;
      ghost var l, m := layout, mem[..];
      assert BlockIn(m, l.cuts[b], l.cuts[b + 1], 0);
      FitGap(l, b, words);
      if mem[best] == words {
        StampUsed(best, request, file, line, timeLow, timeHigh);
      } else {
        SplitTags(best, words, request, file, line, timeLow, timeHigh);
      }
      layout := l.Take(b, words, request);
      TakeIn(m, mem[..], l, b, words, request);
      TakeFit(l, b, words, request);
    }

    /** Allocate `request` bytes: the best fitting free block, or else a new one at the end of the heap. */
    method Allocate(request: nat, file: int, line: int, timeLow: int, timeHigh: int, available: nat)
        returns (p: int, ghost step: Step)
      requires Valid() && Representable(request)
      requires NothingFits(layout, request) ==> Growable(end, BlockBytes(request), available)
      modifies this`end, this`layout, mem
      ensures Valid()
      ensures p == 0 <==>
              request == 0 || (NothingFits(old(layout), request) && !CanExtend(old(end), request, available))
      ensures p == 0 ==> layout == old(layout) && end == old(end) && mem[..] == old(mem[..])
      ensures p != 0 ==> Next(old(layout), old(mem[..]), step, layout, mem[..])
      ensures p != 0 ==> AllocatesAt(old(layout), step, request, p)
    {
      hide AllAligned, AllRoomy, Layout.Coalesced, Layout.Take, Layout.Extend, Layout.BestFit, AllIn, Next;
      step := Step.Extend(0);
      if request == 0 {
        return 0, step;
      }
      var words := BlockWords(request);
      BlockWordsFit(request);
      ghost var l, m := layout, mem[..];
      var best;
      ghost var b;
      best, b := FindBest(words);
      if best != 0 {
        step := Alloc(request, b);
        BestFits(l, b, words);
      } else {
        EndAbove(l);
        best := this.Extend(BlockBytes(request), available);
        if best == 0 {
          return 0, step;
        }
        step := AllocExtend(request, PagesFor(BlockBytes(request)));
        b := layout.Count() - 1;
        ExtendFits(l, PagesFor(BlockBytes(request)), words);
      }
      ghost var m1 := mem[..];
      Take(best, words, request, file, line, timeLow, timeHigh, b);
      p := best + HEAD_WORDS;
      if step.Alloc? {
        AllocStep(l, m, mem[..], request, b);
      } else {
        AllocExtendStep(l, m, m1, mem[..], request, step.pages);
      }
    }

    /** Free the allocation whose data is at the byte address `ptr`.  Pointers that the checks recognise
        as bad are ignored.  The caller must not pass a pointer that lies behind words that merely look
        like the header of an allocation. */
    method Deallocate(ptr: nat, file: int, line: int)
      requires Valid()
      requires LooksUsed(ptr) ==> exists i: nat :: LiveAt(layout, i, ptr)
      modifies this`layout, mem
      ensures Valid()
      ensures forall i: nat | LiveAt(old(layout), i, ptr) :: Next(old(layout), old(mem[..]), Free(i), layout, mem[..])
      ensures (forall i: nat :: !LiveAt(old(layout), i, ptr)) ==> layout == old(layout) && mem[..] == old(mem[..])
    {
      hide Ascending, AllAligned, AllRoomy, Layout.Coalesced, Next;
      ghost var l, m := layout, mem[..];
      LiveLooksUsed(l, m, ptr);
      if ptr == INVALID_POINTER || ptr == 0 || ptr % WORD_BYTES != 0 {
        return;
      }
      var p := ptr / WORD_BYTES;
      if p < HEAP_START || p > end {
        return;
      }
      var head := p - HEAD_WORDS;
      if mem[head + MAGIC] == MAGIC_FREE {
        return;
      }
      if mem[head + MAGIC] != MAGIC_USED {
        return;
      }
      assert LooksUsed(ptr);
      ghost var i: nat :| LiveAt(l, i, ptr);
      FreeBlock(head, file, line, i);
      LiveUnique(l, ptr, i);
    }

    /** Turn the allocation at `head`, whose footer is intact, into free space. */
    method FreeBlock(head: int, file: int, line: int, ghost i: nat)
      requires Valid()
      requires i < layout.Count() && layout.reqs[i] > 0 && head == layout.cuts[i]
      modifies this`layout, mem
      ensures Valid()
      ensures Next(old(layout), old(mem[..]), Free(i), layout, mem[..])
    {
      hide Ascending, AllAligned, AllRoomy, Layout.Coalesced, Layout.Release, Layout.Merge, CoalescedExcept;
      ghost var l, m := layout, mem[..];
      assert BlockIn(m, l.cuts[i], l.cuts[i + 1], l.reqs[i]);
      FreeTags(head, file, line, l.reqs[i]);
      layout := l.Mark(i, 0);
      MarkIn(m, mem[..], l, i, 0);
      FreedShape(l, i);
      var merged := Merge(head, i);
    }

    /** Check the footer and mark the block as free. */
    method FreeTags(head: int, file: int, line: int, ghost request: nat)
      requires 0 <= head < mem.Length && BlockIn(mem[..], head, head + mem[head], request) && request > 0
      modifies mem
      ensures BlockIn(mem[..], head, head + old(mem[head]), 0)
      ensures AgreeOutside(old(mem[..]), mem[..], head, head + old(mem[head]))
    {
      var foot := head + mem[head] - FOOT_WORDS;
      assert mem[foot + 1] == head && mem[foot] == MAGIC_FOOT;
      mem[head + MAGIC] := MAGIC_FREE;
      mem[head + FILE] := file;
      mem[head + LINE] := line;
      mem[head + VALID_SIZE] := 0;
    }

    /** The checks made on the pointer and the header before it take `ptr` for an allocation. */
    ghost predicate LooksUsed(ptr: nat)
      requires mem.Length == HEAP_MAX && end <= HEAP_MAX
      reads this, mem
    {
      && ptr % WORD_BYTES == 0
      && HEAP_START <= ptr / WORD_BYTES <= end
      && mem[ptr / WORD_BYTES - HEAD_WORDS + MAGIC] == MAGIC_USED
    }

    /** Give the allocation at the byte address `ptr` room for `request` bytes without moving it, into the
        free block after it if need be. */
    method Reallocate(ptr: nat, request: nat, file: int, line: int, ghost i: nat) returns (r: nat)
      requires Valid() && LiveAt(layout, i, ptr) && 0 < request && Representable(request)
      requires layout.Size(i) < BlockWords(request) ==>
                 i + 1 < layout.Count() && layout.reqs[i + 1] == 0
                 && BlockWords(request) <= layout.cuts[i + 2] - layout.cuts[i]
      modifies this`layout, mem
      ensures Valid() && r == ptr
      ensures i < layout.Count() && layout.cuts[i] == old(layout).cuts[i]
              && request <= RoomBytes(layout.cuts[i], layout.cuts[i + 1])
      ensures if old(layout).Size(i) < BlockWords(request)
              then Next(old(layout), old(mem[..]), Step.Grow(i, request), layout, mem[..])
              else layout == old(layout) && mem[..] == old(mem[..])
    {
      hide Ascending, AllAligned, AllRoomy, Layout.Coalesced, Next;
      var head := ptr / WORD_BYTES - HEAD_WORDS;
      var words := BlockWords(request);
      BlockWordsFit(request);
      assert BlockIn(mem[..], layout.cuts[i], layout.cuts[i + 1], layout.reqs[i]);
      if words > mem[head] {
        GrowBlock(head, words, request, file, line, i);
      }
      r := ptr;
    }

    /** Let an allocation take over the free block after it, or the lower part of that. */
    method GrowBlock(head: int, words: int, request: nat, file: int, line: int, ghost i: nat)
      requires Valid() && words == BlockWords(request) && 0 < request && Representable(request)
      requires i + 1 < layout.Count() && layout.reqs[i] > 0 && layout.reqs[i + 1] == 0 && head == layout.cuts[i]
      requires layout.Size(i) < words <= layout.cuts[i + 2] - layout.cuts[i]
      modifies this`layout, mem
      ensures Valid() && Next(old(layout), old(mem[..]), Step.Grow(i, request), layout, mem[..])
      ensures i < layout.Count() && layout.cuts[i] == old(layout).cuts[i]
              && request <= RoomBytes(layout.cuts[i], layout.cuts[i + 1])
    {
      hide Ascending, AllAligned, AllRoomy, Layout.Coalesced, Layout.Grow, CoalescedExcept, Layout.BestFit;
      ghost var l, m := layout, mem[..];
      BlockWordsFit(request);
      assert BlockIn(m, l.cuts[i], l.cuts[i + 1], l.reqs[i]);
      assert BlockIn(m, l.cuts[i + 1], l.cuts[i + 2], l.reqs[i + 1]);
      GrowShape(l, i, words);
      var next := head + mem[head];
      assert mem[next + MAGIC] == MAGIC_FREE && mem[next] + mem[head] >= words;
      GrowTags(head, next, words, request, file, line);
      layout := l.Grow(i, words, request);
      GrowIn(m, mem[..], l, i, words, request);
      GrowWellFormed(l, i, words, request);
    }

    /** Move the boundary between an allocation and the free block after it, or remove it. */
    method GrowTags(head: int, next: int, words: int, request: nat, file: int, line: int)
      requires 0 <= head < next < mem.Length && next == head + mem[head] && head + 2 * MIN_WORDS <= next
      requires BlockIn(mem[..], next, next + mem[next], 0)
      requires mem[head + MAGIC] == MAGIC_USED && request > 0
      requires next - head + MIN_WORDS <= words
      requires words == mem[next] + mem[head] || words + MIN_WORDS <= mem[next] + mem[head]
      modifies mem
      ensures BlockIn(mem[..], head, head + words, request)
      ensures words < old(mem[next]) + old(mem[head]) ==> BlockIn(mem[..], head + words, next + old(mem[next]), 0)
      ensures forall a | && 0 <= a < mem.Length && !(head <= a < head + HEAD_WORDS)
                         && !(next <= a < next + old(mem[next])) ::
                mem[a] == old(mem[a])
    {
      var size := mem[next] + mem[head];
      var foot := next + mem[next] - FOOT_WORDS;
      if size == words {
        mem[head] := words;
        mem[head + VALID_SIZE] := request;
        mem[head + FILE] := file;
        mem[head + LINE] := line;
        mem[foot + 1] := head;
        mem[next + MAGIC] := 0;
        mem[next] := 0;
      } else {
        MoveBoundary(head, size, words, request, file, line);
      }
    }

    /** Write the tags of an allocation of `words` and of the free block that is left of `size`. */
    method MoveBoundary(head: int, size: int, words: int, request: nat, file: int, line: int)
      requires 0 <= head && 2 * MIN_WORDS <= words && words + MIN_WORDS <= size && head + size <= mem.Length
      requires mem[head + MAGIC] == MAGIC_USED && request > 0
      requires mem[head + size - FOOT_WORDS] == MAGIC_FOOT
      modifies mem
      ensures BlockIn(mem[..], head, head + words, request) && BlockIn(mem[..], head + words, head + size, 0)
      ensures forall a | 0 <= a < mem.Length && !(head <= a < head + HEAD_WORDS)
                         && !(head + words - FOOT_WORDS <= a < head + size) :: mem[a] == old(mem[a])
    {
      mem[head] := words;
      mem[head + FILE] := file;
      mem[head + LINE] := line;
      mem[head + VALID_SIZE] := request;
      var foot := head + mem[head] - FOOT_WORDS;
      mem[foot + 1] := head;
      mem[foot] := MAGIC_FOOT;
      var next := head + mem[head];
      mem[next] := size - words;
      mem[next + MAGIC] := MAGIC_FREE;
      mem[next + mem[next] - FOOT_WORDS + 1] := next;
    }

    /** Merge the free block at `head` with its free neighbours. */
    method Merge(head: int, ghost i: nat) returns (r: int)
      requires Represented()
      requires i < layout.Count() && layout.cuts[i] == head && layout.reqs[i] == 0 && CoalescedExcept(layout, i)
      modifies this`layout, mem
      ensures Valid()
      ensures layout == old(layout).Merge(i)
      ensures old(layout).MergedIndex(i) < layout.Count() && r == layout.cuts[old(layout).MergedIndex(i)]
      ensures AgreeOutside(old(mem[..]), mem[..], MergedStart(old(layout), i), MergedEnd(old(layout), i))
    {
      hide Layout.Coalesced, Ascending, AllAligned, AllRoomy, CoalescedExcept, Layout.Join;
      ghost var l := layout;
      assert BlockIn(mem[..], l.cuts[i], l.cuts[i + 1], 0);
      var thisFoot := head + mem[head] - FOOT_WORDS;
      MergeLeftTiled(l, i);
      MergeLeftShape(l, i);
      r := MergeLeft(head, thisFoot, i);
      MergeRight(r, thisFoot, l.MergedIndex(i));
      MergeWellFormed(l, i);
    }

    /** Merge left (down): join the free block at `head` to the block below it if that is free. */
    method MergeLeft(head: int, thisFoot: int, ghost i: nat) returns (r: int)
      requires Represented()
      requires i < layout.Count() && layout.cuts[i] == head && layout.reqs[i] == 0
      requires thisFoot == layout.cuts[i + 1] - FOOT_WORDS
      modifies this`layout, mem
      ensures Represented()
      ensures layout == old(layout).MergeLeft(i)
      ensures r == old(layout).cuts[old(layout).MergedIndex(i)]
      ensures AgreeOutside(old(mem[..]), mem[..], MergedStart(old(layout), i), old(layout).cuts[i + 1])
    {
      ghost var l, m := layout, mem[..];
      r := head;
      var foot := head - FOOT_WORDS;
      PreviousHead(m, l, i);
      if head > HEAP_START && mem[mem[foot + 1] + MAGIC] == MAGIC_FREE {
        assert BlockIn(m, l.cuts[i - 1], l.cuts[i], 0) && BlockIn(m, l.cuts[i], l.cuts[i + 1], 0);
        r := mem[foot + 1];
        JoinTags(r, head, thisFoot);
        layout := l.Join(i);
        JoinIn(m, mem[..], l, i);
        JoinTiled(l, i);
      }
    }

    /** Rewrite the tags of two adjacent free blocks as those of one. */
    method JoinTags(previous: int, head: int, thisFoot: int)
      requires BlockIn(mem[..], previous, head, 0) && BlockIn(mem[..], head, thisFoot + FOOT_WORDS, 0)
      modifies mem
      ensures BlockIn(mem[..], previous, thisFoot + FOOT_WORDS, 0)
      ensures AgreeOutside(old(mem[..]), mem[..], previous, thisFoot + FOOT_WORDS)
    {
      var foot := head - FOOT_WORDS;
      mem[previous] := mem[previous] + mem[head];
      mem[thisFoot + 1] := previous;
      mem[head + MAGIC] := 0;
      mem[head] := 0;
      mem[foot + 1] := 0;
      mem[foot] := 0;
    }

    /** Merge right (up): join the block after the free block at `head` to it if that is free. */
    method MergeRight(head: int, thisFoot: int, ghost j: nat)
      requires Represented()
      requires j < layout.Count() && layout.cuts[j] == head && layout.reqs[j] == 0
      requires thisFoot == layout.cuts[j + 1] - FOOT_WORDS
      modifies this`layout, mem
      ensures Represented()
      ensures layout == old(layout).MergeRight(j)
      ensures AgreeOutside(old(mem[..]), mem[..], old(layout).cuts[j], MergedEnd(old(layout), j))
    {
      ghost var l, m := layout, mem[..];
      assert BlockIn(m, l.cuts[j], l.cuts[j + 1], 0);
      var next := head + mem[head];
      NextHead(m, l, j);
      if next < end && mem[next + MAGIC] == MAGIC_FREE {
        assert BlockIn(m, l.cuts[j + 1], l.cuts[j + 2], 0);
        JoinTagsUp(head, next, thisFoot);
        layout := l.Join(j + 1);
        JoinIn(m, mem[..], l, j + 1);
        JoinTiled(l, j + 1);
      }
    }

    /** The same rewriting, made from the lower block. */
    method JoinTagsUp(head: int, next: int, thisFoot: int)
      requires BlockIn(mem[..], head, next, 0) && thisFoot == next - FOOT_WORDS
      requires 0 <= next < mem.Length && BlockIn(mem[..], next, next + mem[next], 0)
      modifies mem
      ensures BlockIn(mem[..], head, next + old(mem[next]), 0)
      ensures AgreeOutside(old(mem[..]), mem[..], head, next + old(mem[next]))
    {
      mem[head] := mem[head] + mem[next];
      var foot := head + mem[head] - FOOT_WORDS;
      mem[foot + 1] := head;
      mem[thisFoot + 1] := 0;
      mem[thisFoot] := 0;
      mem[next] := 0;
      mem[next + MAGIC] := 0;
    }
  }

  /** The pointer returned for zero-sized blocks. */
  const INVALID_POINTER := 0xFFFF_FFFF

  /** Block `i` is allocated and its data is at the byte address `ptr`. */
  predicate LiveAt(l: Layout, i: nat, ptr: nat)
  {
    l.Shaped() && i < l.Count() && l.reqs[i] > 0 && ptr == WORD_BYTES * (l.cuts[i] + HEAD_WORDS)
  }

  /** The pointer of an allocation passes every check that is made on it. */
  lemma {:induction false} LiveLooksUsed(l: Layout, m: seq<int>, ptr: nat)
    requires AllIn(m, l)
    ensures forall i: nat | LiveAt(l, i, ptr) ::
              && ptr != 0 && ptr % WORD_BYTES == 0 && HEAP_START <= ptr / WORD_BYTES <= l.End()
              && ptr / WORD_BYTES - HEAD_WORDS == l.cuts[i]
              && 0 <= l.cuts[i] < l.cuts[i] + MAGIC < |m| && m[l.cuts[i] + MAGIC] == MAGIC_USED
  {
    forall i: nat | LiveAt(l, i, ptr)
      ensures ptr != 0 && ptr % WORD_BYTES == 0 && HEAP_START <= ptr / WORD_BYTES <= l.End()
      ensures ptr / WORD_BYTES - HEAD_WORDS == l.cuts[i]
      ensures 0 <= l.cuts[i] < l.cuts[i] + MAGIC < |m| && m[l.cuts[i] + MAGIC] == MAGIC_USED
    {
      CutBounds(l, i);
      assert BlockIn(m, l.cuts[i], l.cuts[i + 1], l.reqs[i]);
    }
  }

  lemma {:induction false} LiveUnique(l: Layout, ptr: nat, i: nat)
    requires l.Tiled() && LiveAt(l, i, ptr)
    ensures forall j: nat | LiveAt(l, j, ptr) :: j == i
  {
    forall j: nat | LiveAt(l, j, ptr)
      ensures j == i
    {
      assert l.cuts[j] == l.cuts[i];
    }
  }

  /** A freed block that is not yet merged. */
  lemma {:induction false} FreedShape(l: Layout, i: nat)
    requires l.WellFormed() && i < l.Count()
    ensures var free := l.Mark(i, 0);
            && CoalescedExcept(free, i) && free.Merge(i) == l.Release(i) && free.End() == l.End()
            && MergedStart(free, i) == MergedStart(l, i) && MergedEnd(free, i) == MergedEnd(l, i)
  {
    hide Ascending, AllAligned, AllRoomy, Layout.Merge;
  }

  lemma {:induction false} GrowShape(l: Layout, i: nat, words: int)
    requires l.Tiled() && i + 1 < l.Count() && l.reqs[i] > 0 && Aligned(words)
    requires l.Size(i) < words <= l.cuts[i + 2] - l.cuts[i]
    ensures l.cuts[i] + 2 * MIN_WORDS <= l.cuts[i + 1]
    ensures l.Size(i) + MIN_WORDS <= words
    ensures words == l.cuts[i + 2] - l.cuts[i] || words + MIN_WORDS <= l.cuts[i + 2] - l.cuts[i]
  {
    assert Roomy(l.cuts[i], l.cuts[i + 1], l.reqs[i]);
    CutBounds(l, i);
    CutBounds(l, i + 1);
  }

  ghost predicate NoFitBelow(l: Layout, k: nat, words: int)
    requires l.Shaped() && k <= l.Count()
  {
    forall i: nat | i < k :: !l.Fits(i, words)
  }

  /** Block `b` is the first of the smallest fits among the first `k` blocks. */
  ghost predicate BestBelow(l: Layout, k: nat, b: nat, words: int)
    requires l.Shaped() && k <= l.Count()
  {
    && b < k && l.Fits(b, words)
    && forall i: nat | i < k && l.Fits(i, words) :: l.Size(b) < l.Size(i) || (l.Size(b) == l.Size(i) && b <= i)
  }

  /** What is known of the first `k` blocks carries over to block `k`. */
  lemma {:induction false} ExtendSearch(l: Layout, k: nat, b: nat, found: bool, words: int)
    requires l.Shaped() && k < l.Count()
    requires if found then BestBelow(l, k, b, words) && l.Size(b) != words else NoFitBelow(l, k, words)
    ensures !l.Fits(k, words) ==> (if found then BestBelow(l, k + 1, b, words) else NoFitBelow(l, k + 1, words))
    ensures l.Fits(k, words) && found && l.Size(b) <= l.Size(k) ==> BestBelow(l, k + 1, b, words)
    ensures l.Fits(k, words) && (found ==> l.Size(k) < l.Size(b)) ==> BestBelow(l, k + 1, k, words)
    ensures l.Fits(k, words) && l.Size(k) == words ==> l.BestFit(k, words)
  {
    if l.Fits(k, words) && l.Size(k) == words {
      forall j: nat | j < |l.reqs| && l.Fits(j, words)
        ensures l.Size(k) < l.Size(j) || (l.Size(k) == l.Size(j) && k <= j)
      {
        if j < k {
          assert found && l.Size(b) > words;
        }
      }
    }
  }

  lemma {:induction false} BestBelowAll(l: Layout, b: nat, found: bool, words: int)
    requires l.Shaped()
    requires if found then BestBelow(l, l.Count(), b, words) else NoFitBelow(l, l.Count(), words)
    ensures found ==> l.BestFit(b, words)
    ensures found <==> exists i: nat :: i < l.Count() && l.Fits(i, words)
  {
  }

  /** No free block holds the request. */
  ghost predicate NothingFits(l: Layout, request: nat)
    requires l.Shaped()
  {
    forall i: nat | i < l.Count() :: !l.Fits(i, BlockWords(request))
  }

  /** The heap can still grow by the pages that the request needs. */
  predicate CanExtend(end: int, request: nat, available: nat)
  {
    var pages := PagesFor(BlockBytes(request));
    end + pages * PAGE_WORDS <= HEAP_MAX && pages <= available
  }

  /** The step allocates the request and hands out the data address `p`. */
  ghost predicate AllocatesAt(l: Layout, step: Step, request: nat, p: int)
    requires l.Shaped()
  {
    match step
    case Alloc(r, i) => r == request && i < l.Count() && p == l.cuts[i] + HEAD_WORDS
    case AllocExtend(r, pages) =>
      r == request && pages == PagesFor(BlockBytes(request)) && p == TailStart(l) + HEAD_WORDS
    case _ => false
  }

  /** A store into the data of an allocation leaves all tags in place. */
  lemma {:induction false} StoreIn(m: seq<int>, l: Layout, i: nat, at: int, x: int)
    requires AllIn(m, l) && i < l.Count() && l.reqs[i] > 0 && InData(l, i, at)
    ensures 0 <= at < |m| && AllIn(m[at := x], l)
  {
    hide Ascending, AllAligned, AllRoomy;
    assert BlockIn(m, l.cuts[i], l.cuts[i + 1], l.reqs[i]);
    forall k | 0 <= k < l.Count()
      ensures BlockIn(m[at := x], l.cuts[k], l.cuts[k + 1], l.reqs[k])
    {
      assert BlockIn(m, l.cuts[k], l.cuts[k + 1], l.reqs[k]);
      if k == i {
        assert Roomy(l.cuts[i], l.cuts[i + 1], l.reqs[i]) by { RoomyAt(l, i); }
      } else {
        Apart(l, i, k, k + 1, at);
      }
    }
  }

  lemma {:induction false} RoomyAt(l: Layout, i: nat)
    requires l.Tiled() && i < l.Count()
    ensures Roomy(l.cuts[i], l.cuts[i + 1], l.reqs[i])
  {
  }

  /** The memory after a step shows the layout if the memory before it did; of the steps of the allocator that is
      what its methods promise. */
  ghost predicate Performed(l: Layout, m: seq<int>, step: Step, l': Layout, m': seq<int>)
  {
    Next(l, m, step, l', m') && (AllIn(m, l) && !step.Store? ==> AllIn(m', l'))
  }

  lemma {:induction false} StoreShows(l: Layout, m: seq<int>, step: Step, l': Layout, m': seq<int>)
    requires Next(l, m, step, l', m') && step.Store? && AllIn(m, l)
    ensures AllIn(m', l')
  {
    hide AllIn, Layout.WellFormed;
    StoreIn(m, l, step.i, step.at, 0);
    StoreIn(m, l, step.i, step.at, m'[step.at]);
    assert m' == m[step.at := m'[step.at]];
  }

  /** Over every run from the empty heap, whatever the owners store into their allocations, the memory shows the
      layout. */
  lemma {:induction false} RunShows(ls: seq<Layout>, ms: seq<seq<int>>, steps: seq<Step>, n: nat)
    requires HeapRuns.Run(ls, ms, steps) && n < |ls| && ls[0] == Empty()
    requires forall k | 0 <= k < n :: Performed(ls[k], ms[k], steps[k], ls[k + 1], ms[k + 1])
    ensures AllIn(ms[n], ls[n])
  {
    hide AllIn, Next;
    if n == 0 {
      EmptyShown(ms[0]);
    } else {
      RunShows(ls, ms, steps, n - 1);
      assert Performed(ls[n - 1], ms[n - 1], steps[n - 1], ls[n], ms[n]);
      if steps[n - 1].Store? {
        StoreShows(ls[n - 1], ms[n - 1], steps[n - 1], ls[n], ms[n]);
      }
    }
  }

  lemma {:induction false} EmptyShown(m: seq<int>)
    ensures AllIn(m, Empty())
  {
    EmptyWellFormed();
  }

  lemma {:induction false} ValidWalked(h: KernelHeap)
    requires h.Valid()
    ensures Walked(h.mem[..], h.layout.cuts, h.end)
  {
    LayoutWalked(h.mem[..], h.layout);
  }

  /** Writing only to the block that is taken is a step that allocates it. */
  lemma {:induction false} AllocStep(l: Layout, m: seq<int>, m': seq<int>, request: nat, b: nat)
    requires l.WellFormed() && 0 < request && Representable(request) && l.BestFit(b, BlockWords(request))
    requires AgreeOutside(m, m', l.cuts[b], l.cuts[b + 1])
    ensures Next(l, m, Alloc(request, b), l.Take(b, BlockWords(request), request), m')
  {
    hide Layout.WellFormed, Layout.Take, Layout.BestFit;
  }

  lemma {:induction false} AllocExtendStep(l: Layout, m: seq<int>, m1: seq<int>, m': seq<int>, request: nat, pages: nat)
    requires l.WellFormed() && 0 < request && Representable(request) && NothingFits(l, request)
    requires 0 < pages && BlockWords(request) <= pages * PAGE_WORDS && l.End() + pages * PAGE_WORDS <= HEAP_MAX
    requires AgreeOutside(m, m1, TailStart(l), l.End() + pages * PAGE_WORDS)
    requires var e := l.Extend(pages);
             && e.Shaped() && e.Count() > 0 && AgreeOutside(m1, m', e.cuts[e.Count() - 1], e.cuts[e.Count()])
             && e.cuts[e.Count() - 1] == TailStart(l) && e.cuts[e.Count()] == l.End() + pages * PAGE_WORDS
    ensures var e := l.Extend(pages);
            Next(l, m, AllocExtend(request, pages), e.Take(e.Count() - 1, BlockWords(request), request), m')
  {
    hide Layout.WellFormed, Layout.Take, Layout.Extend, Layout.Fits;
  }

  lemma {:induction false} CutBounds(l: Layout, k: nat)
    requires l.Tiled() && k < l.Count()
    ensures HEAP_START <= l.cuts[k] && l.cuts[k] + MIN_WORDS <= l.cuts[k + 1] <= l.End()
    ensures l.Size(k) % MIN_WORDS == 0
  {
    assert k == 0 || l.cuts[0] < l.cuts[k];
    assert k + 1 == l.Count() || l.cuts[k + 1] < l.cuts[l.Count()];
    assert Aligned(l.cuts[k]) && Aligned(l.cuts[k + 1]) && l.cuts[k] < l.cuts[k + 1];
  }

  /** A free block that is larger than needed is larger by at least a whole block. */
  lemma {:induction false} FitGap(l: Layout, b: nat, words: int)
    requires l.Tiled() && l.Fits(b, words) && Aligned(words)
    ensures l.Size(b) != words ==> words + MIN_WORDS <= l.Size(b)
  {
    CutBounds(l, b);
  }

  lemma {:induction false} TakeFit(l: Layout, b: nat, words: int, request: nat)
    requires l.WellFormed() && l.Fits(b, words) && Aligned(words) && request > 0 && Roomy(0, words, request)
    ensures l.Take(b, words, request).WellFormed() && l.Take(b, words, request).End() == l.End()
  {
    TakeWellFormed(l, b, words, request);
  }

  lemma {:induction false} BestFits(l: Layout, b: nat, words: int)
    requires l.Shaped() && l.BestFit(b, words)
    ensures l.Fits(b, words)
  {
  }

  /** The block at the end of an extended heap holds what the heap was extended for. */
  lemma {:induction false} ExtendFits(l: Layout, pages: nat, words: int)
    requires l.Shaped() && words <= pages * PAGE_WORDS
    requires Ascending(l.cuts)
    ensures l.Extend(pages).Shaped() && l.Extend(pages).Count() > 0
    ensures l.Extend(pages).Fits(l.Extend(pages).Count() - 1, words)
    ensures l.Extend(pages).cuts[l.Extend(pages).Count()] == l.End() + pages * PAGE_WORDS
  {
    ExtendEnlargesTail(l, pages);
  }

  lemma {:induction false} EndAbove(l: Layout)
    requires l.Tiled()
    ensures HEAP_START <= TailStart(l) <= l.End()
  {
  }

  lemma {:induction false} AlignedPages(pages: nat)
    ensures Aligned(pages * PAGE_WORDS)
  {
    assert pages * PAGE_WORDS == 8 * (pages * 128);
  }

  /** The block appended to a heap is its last, and merging it leaves the tail of the heap. */
  lemma {:induction false} AttachShape(l: Layout, pages: nat)
    requires l.WellFormed() && pages > 0
    ensures var a := l.Append(pages * PAGE_WORDS);
            && a.Shaped() && l.Count() < a.Count() && a.reqs[l.Count()] == 0 && a.cuts[l.Count()] == l.End()
            && a.End() == l.End() + pages * PAGE_WORDS
            && a.Merge(l.Count()) == l.Extend(pages)
            && l.Extend(pages).Shaped() && l.Extend(pages).Count() == a.MergedIndex(l.Count()) + 1
            && l.Extend(pages).cuts[a.MergedIndex(l.Count())] == TailStart(l)
            && MergedStart(a, l.Count()) == TailStart(l)
            && MergedEnd(a, l.Count()) == l.End() + pages * PAGE_WORDS
  {
    ExtendEnlargesTail(l, pages);
  }

  /** The pages by which the heap grows for a block of `bytes`. */
  function PagesFor(bytes: nat): nat
  {
    (bytes + 0xFFF) / 4096
  }

  /** The byte address of the end of the heap after it grows, in 32-bit arithmetic. */
  function NewEndBytes(end: int, bytes: nat): int
  {
    (WORD_BYTES * end + (bytes + 0xFFF) % SIZE_MODULUS / 4096 * 4096) % SIZE_MODULUS
  }

  /** The new end is the true one exactly when it can be represented, and just then the bounds check answers
      right: an end that wraps is never above the old one, so it is always let through. */
  lemma {:induction false} NewEndExact(end: int, bytes: nat)
    requires HEAP_START <= end <= HEAP_MAX && bytes < SIZE_MODULUS
    ensures var trueEnd, limit := WORD_BYTES * end + 4096 * PagesFor(bytes), WORD_BYTES * HEAP_MAX;
            && (NewEndBytes(end, bytes) == trueEnd <==> trueEnd < SIZE_MODULUS)
            && ((NewEndBytes(end, bytes) > limit <==> trueEnd > limit) <==> trueEnd < SIZE_MODULUS)
            && (trueEnd >= SIZE_MODULUS ==> NewEndBytes(end, bytes) <= WORD_BYTES * end)
  {
    var sum := bytes + 0xFFF;
    if sum >= SIZE_MODULUS {
      assert sum % SIZE_MODULUS == sum - SIZE_MODULUS;
    }
  }

  /** The number of pages can be represented, and so can the new end unless memory runs out first. */
  predicate Growable(end: int, bytes: nat, available: nat)
  {
    && bytes + 0xFFF < SIZE_MODULUS
    && (WORD_BYTES * end + 4096 * PagesFor(bytes) < SIZE_MODULUS || PagesFor(bytes) > available)
  }

  /** A gigabyte asked of the freshly started heap wraps past the bounds check. */
  lemma {:induction false} NewEndWraps()
    ensures NewEndBytes(HEAP_START, 0x4000_0000) < WORD_BYTES * HEAP_MAX
    ensures WORD_BYTES * HEAP_START + 4096 * PagesFor(0x4000_0000) > WORD_BYTES * HEAP_MAX
  {
  }

  /** The range of addresses that a merge around block `i` may write. */
  function MergedStart(l: Layout, i: nat): int
    requires l.Shaped() && i < l.Count()
  {
    if i > 0 && l.reqs[i - 1] == 0 then l.cuts[i - 1] else l.cuts[i]
  }

  function MergedEnd(l: Layout, i: nat): int
    requires l.Shaped() && i < l.Count()
  {
    if i + 1 < l.Count() && l.reqs[i + 1] == 0 then l.cuts[i + 2] else l.cuts[i + 1]
  }

  /** The footer below a block leads to the header of the block before it. */
  lemma {:induction false} PreviousHead(m: seq<int>, l: Layout, i: nat)
    requires AllIn(m, l) && i < l.Count()
    ensures i > 0 <==> l.cuts[i] > HEAP_START
    ensures i > 0 ==> 0 <= l.cuts[i - 1] < l.cuts[i] - MAGIC && m[l.cuts[i] - 1] == l.cuts[i - 1]
    ensures i > 0 ==> (m[l.cuts[i - 1] + MAGIC] == MAGIC_FREE <==> l.reqs[i - 1] == 0)
  {
    if i > 0 {
      assert l.cuts[0] < l.cuts[i];
      assert BlockIn(m, l.cuts[i - 1], l.cuts[i], l.reqs[i - 1]);
    }
  }

  lemma {:induction false} NextHead(m: seq<int>, l: Layout, i: nat)
    requires AllIn(m, l) && i < l.Count()
    ensures 0 <= l.cuts[i] < |m| && m[l.cuts[i]] == l.cuts[i + 1] - l.cuts[i]
    ensures i + 1 < l.Count() <==> l.cuts[i + 1] < l.End()
    ensures i + 1 < l.Count() ==> l.cuts[i + 1] + MAGIC < |m|
    ensures i + 1 < l.Count() ==> (m[l.cuts[i + 1] + MAGIC] == MAGIC_FREE <==> l.reqs[i + 1] == 0)
  {
    assert BlockIn(m, l.cuts[i], l.cuts[i + 1], l.reqs[i]);
    if i + 1 < l.Count() {
      assert BlockIn(m, l.cuts[i + 1], l.cuts[i + 2], l.reqs[i + 1]);
    }
  }
}
