/** What compacting, rounding and marking mean, without their own terms. */
module MapMeaning {
  import opened MemoryMap

  /** A compacted map has no two neighbours that touch and are of the same kind and domain. */
  lemma {:induction false} CompactMeans(m: seq<Entry>, k: nat)
    requires Ordered(m) && 0 < k < |Compact(m)|
    ensures var e, f := Compact(m)[k - 1], Compact(m)[k];
            e.start + e.length < f.start || e.kind != f.kind || e.domain != f.domain
  {
    hide CompactFrom, Meaning;
    CompactSame(m);
  }

  /** A base is rounded to the page that it lies in, and a size up to whole pages. */
  lemma {:induction false} RoundMeans(base: nat, size: nat)
    requires size + 0xFFF < ADDRESSES
    ensures RoundBase(base) % 0x1000 == 0 && RoundBase(base) <= base < RoundBase(base) + 0x1000
    ensures RoundSize(size) % 0x1000 == 0 && size <= RoundSize(size) < size + 0x1000
  {
    var p, q := base / PAGE, (size + 0xFFF) / PAGE;
    assert RoundBase(base) == p * PAGE && RoundSize(size) == q * PAGE;
  }

  /** The range lies in this entry, which does not wrap, and there is room for the pieces. */
  predicate Holds(m: seq<Entry>, max: nat, base: nat, size: nat, k: nat)
  {
    && k < |m| && m[k].start <= base && base < m[k].start + m[k].length < ADDRESSES
    && base + size <= m[k].start + m[k].length
    && |m| + (if m[k].start < base then 1 else 0) + (if base + size < m[k].start + m[k].length then 1 else 0) <= max
  }

  /** On every ordered map, a range that does not wrap is marked exactly if one entry holds all of it, up to its very
      end, and there is room for the pieces. */
  lemma {:induction false} MarkableMeans(m: seq<Entry>, max: nat, base: nat, size: nat)
    requires Ordered(m) && Words(m) && base + size < ADDRESSES
    ensures Markable(m, max, base, size) <==> exists k: nat :: Holds(m, max, base, size, k)
  {
    hide Ordered, Words;
    if Markable(m, max, base, size) {
      var k := FirstBehind(m, base);
      InWords(m, k);
      Unwrapped(m[k], base);
      assert Holds(m, max, base, size, k);
    }
    if k: nat :| Holds(m, max, base, size, k) {
      FirstIs(m, base, k);
    }
  }

  lemma {:induction false} InWords(m: seq<Entry>, k: nat)
    requires Words(m) && k < |m|
    ensures m[k].start < ADDRESSES && m[k].length < ADDRESSES
  {
  }

  /** The entry that covers an address is the first that ends behind it. */
  lemma {:induction false} FirstIs(m: seq<Entry>, a: nat, k: nat)
    requires Ordered(m) && Words(m) && k < |m| && m[k].start <= a < End(m[k]) < ADDRESSES
    ensures FirstBehind(m, a) == k && End64(m[k]) == End(m[k])
  {
    InWords(m, k);
    Wraps(m[k]);
    var j := FirstBehind(m, a);
    if j < k {
      InWords(m, j);
      InOrder(m, j, k);
      Wraps(m[j]);
    }
  }
}
