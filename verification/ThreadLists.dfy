/** Thread lists as they are in memory: one `Next` pointer in every thread, shared by all lists, and a head
    and a tail pointer for each list. */
module ThreadLists {
  import opened Scheduler

  type Lists = map<List, seq<Tid>>

  datatype Links = Links(next: map<Tid, Tid>, head: map<List, Tid>, tail: map<List, Tid>)

  function Pointer(p: map<List, Tid>, q: List): Tid
  {
    if q in p then p[q] else NULL
  }

  function At(lists: Lists, q: List): seq<Tid>
  {
    if q in lists then lists[q] else []
  }

  /** The pointers of a list spell out its contents. */
  ghost predicate Chain(l: Links, q: List, s: seq<Tid>)
  {
    && Pointer(l.head, q) == (if s == [] then NULL else s[0])
    && Pointer(l.tail, q) == (if s == [] then NULL else s[|s| - 1])
    && forall i | 0 <= i < |s| :: LinkAt(l.next, s, i)
  }

  /** A thread points to the one behind it; only queued threads are constrained. */
  predicate LinkAt(next: map<Tid, Tid>, s: seq<Tid>, i: nat)
    requires i < |s|
  {
    s[i] != NULL && s[i] in next && next[s[i]] == if i + 1 < |s| then s[i + 1] else NULL
  }

  ghost predicate Chained(l: Links, lists: Lists)
  {
    forall q :: Chain(l, q, At(lists, q))
  }

  /** No thread is on two lists, or twice on one. */
  ghost predicate Separate(lists: Lists)
  {
    forall p, q, i, j | 0 <= i < |At(lists, p)| && 0 <= j < |At(lists, q)| && At(lists, p)[i] == At(lists, q)[j] ::
      p == q && i == j
  }

  ghost predicate OnNoList(lists: Lists, t: Tid)
  {
    forall q :: t !in At(lists, q)
  }

  lemma {:induction false} SoundSeparate(c: Sched)
    requires Sound(c)
    ensures Separate(c.lists)
  {
    forall p, q, i, j | 0 <= i < |At(c.lists, p)| && 0 <= j < |At(c.lists, q)| && At(c.lists, p)[i] == At(c.lists, q)[j]
      ensures p == q && i == j
    {
      assert Get(c, p) == At(c.lists, p) && Get(c, q) == At(c.lists, q);
      AtHome(c, p, i);
      AtHome(c, q, j);
    }
  }

  lemma {:induction false} IdleOnNoList(c: Sched, t: Tid)
    requires Sound(c) && t in c.status && Home(c, t) == Nowhere
    ensures OnNoList(c.lists, t)
  {
    Unlisted(c, t);
    assert forall q :: At(c.lists, q) == Get(c, q);
  }

  /** The ends of a list are NULL just if it is empty, and a thread's own pointer just if it is last. */
  lemma {:induction false} ChainEnds(l: Links, q: List, s: seq<Tid>, i: nat)
    requires Chain(l, q, s)
    ensures Pointer(l.tail, q) == NULL <==> s == []
    ensures Pointer(l.head, q) == NULL <==> s == []
    ensures i < |s| ==> s[i] != NULL && s[i] in l.next && (l.next[s[i]] == NULL <==> i + 1 == |s|)
  {
    if s != [] {
      assert LinkAt(l.next, s, |s| - 1) && LinkAt(l.next, s, 0);
    }
    if i < |s| {
      assert LinkAt(l.next, s, i);
      if i + 1 < |s| {
        assert LinkAt(l.next, s, i + 1);
      }
    }
  }

  lemma {:induction false} Ends(l: Links, lists: Lists, q: List)
    requires Chained(l, lists)
    ensures Pointer(l.tail, q) == NULL <==> At(lists, q) == []
    ensures Pointer(l.head, q) == NULL <==> At(lists, q) == []
    ensures At(lists, q) != [] ==> Pointer(l.head, q) == At(lists, q)[0] && Pointer(l.head, q) in l.next
    ensures At(lists, q) != [] ==> Pointer(l.tail, q) in At(lists, q) && Pointer(l.tail, q) in l.next
  {
    var s := At(lists, q);
    assert Chain(l, q, s);
    ChainEnds(l, q, s, 0);
    if s != [] {
      ChainEnds(l, q, s, |s| - 1);
    }
  }

  // ---------------------------------------------------------------- linking in

  /** Linking a thread in at the end of a list: the old tail, if any, points to it. */
  function LinkLast(l: Links, q: List, t: Tid): Links
  {
    var last := Pointer(l.tail, q);
    var next := if last == NULL then l.next else l.next[last := t];
    Links(next[t := NULL], if last == NULL then l.head[q := t] else l.head, l.tail[q := t])
  }

  lemma {:induction false} LinkLastChained(l: Links, lists: Lists, q: List, t: Tid)
    requires Chained(l, lists) && Separate(lists) && OnNoList(lists, t) && t != NULL
    ensures Chained(LinkLast(l, q, t), lists[q := At(lists, q) + [t]])
  {
    var l', lists' := LinkLast(l, q, t), lists[q := At(lists, q) + [t]];
    forall p: List
      ensures Chain(l', p, At(lists', p))
    {
      LinkLastChain(l, lists, q, t, p);
    }
  }

  lemma {:induction false} LinkLastChain(l: Links, lists: Lists, q: List, t: Tid, p: List)
    requires Chained(l, lists) && Separate(lists) && OnNoList(lists, t) && t != NULL
    ensures Chain(LinkLast(l, q, t), p, At(lists[q := At(lists, q) + [t]], p))
  {
    assert Chain(l, p, At(lists, p)) && Chain(l, q, At(lists, q));
    assert t !in At(lists, q) && t !in At(lists, p);
    if p == q {
      LinkLastHere(l, q, t, At(lists, q));
    } else {
      forall i | 0 <= i < |At(lists, p)|
        ensures At(lists, p)[i] != NULL
      {
        assert LinkAt(l.next, At(lists, p), i);
      }
      TailElsewhere(l, lists, q, p);
      LinkLastElsewhere(l, q, t, p, At(lists, p));
    }
  }

  lemma {:induction false} TailElsewhere(l: Links, lists: Lists, q: List, p: List)
    requires Separate(lists) && p != q && Chain(l, q, At(lists, q)) && NULL !in At(lists, p)
    ensures Pointer(l.tail, q) !in At(lists, p)
  {
  }

  lemma {:induction false} LinkLastHere(l: Links, q: List, t: Tid, s: seq<Tid>)
    requires Chain(l, q, s) && t !in s && t != NULL && Distinct(s)
    ensures Chain(LinkLast(l, q, t), q, s + [t])
  {
    var l' := LinkLast(l, q, t);
    ChainEnds(l, q, s, 0);
    forall i | 0 <= i < |s + [t]|
      ensures LinkAt(l'.next, s + [t], i)
    {
      if i < |s| {
        assert LinkAt(l.next, s, i);
      }
    }
  }

  lemma {:induction false} LinkLastElsewhere(l: Links, q: List, t: Tid, p: List, s: seq<Tid>)
    requires Chain(l, p, s) && p != q && t !in s && Pointer(l.tail, q) !in s
    ensures Chain(LinkLast(l, q, t), p, s)
  {
    var l' := LinkLast(l, q, t);
    forall i | 0 <= i < |s|
      ensures LinkAt(l'.next, s, i)
    {
      assert LinkAt(l.next, s, i);
    }
  }

  lemma {:induction false} AppendSeparate(lists: Lists, q: List, t: Tid)
    requires Separate(lists) && OnNoList(lists, t)
    ensures Separate(lists[q := At(lists, q) + [t]])
  {
    var d := lists[q := At(lists, q) + [t]];
    forall p, r, i, j | 0 <= i < |At(d, p)| && 0 <= j < |At(d, r)| && At(d, p)[i] == At(d, r)[j]
      ensures p == r && i == j
    {
      assert At(d, p)[i] == if i < |At(lists, p)| then At(lists, p)[i] else t;
      assert At(d, r)[j] == if j < |At(lists, r)| then At(lists, r)[j] else t;
      assert i < |At(lists, p)| ==> At(lists, p)[i] in At(lists, p);
      assert j < |At(lists, r)| ==> At(lists, r)[j] in At(lists, r);
    }
  }

  // ---------------------------------------------------------------- unlinking

  /** Unlinking a thread: the one before it, or the head, skips it. */
  function Unlink(l: Links, q: List, prev: Tid, t: Tid): Links
    requires t in l.next
  {
    Links(if prev == NULL then l.next else l.next[prev := l.next[t]],
          if prev == NULL then l.head[q := l.next[t]] else l.head,
          if l.next[t] == NULL then l.tail[q := prev] else l.tail)
  }

  function Before(s: seq<Tid>, i: nat): Tid
    requires i < |s|
  {
    if i == 0 then NULL else s[i - 1]
  }

  lemma {:induction false} UnlinkChained(l: Links, lists: Lists, q: List, i: nat)
    requires Chained(l, lists) && Separate(lists) && i < |At(lists, q)|
    ensures At(lists, q)[i] in l.next
    ensures Chained(Unlink(l, q, Before(At(lists, q), i), At(lists, q)[i]), lists[q := RemoveAt(At(lists, q), i)])
    ensures Separate(lists[q := RemoveAt(At(lists, q), i)])
    ensures OnNoList(lists[q := RemoveAt(At(lists, q), i)], At(lists, q)[i])
    ensures i > 0 ==>
              At(lists, q)[i - 1] != NULL && At(lists, q)[i - 1] != At(lists, q)[i] && At(lists, q)[i - 1] in l.next
  {
    var s := At(lists, q);
    assert Chain(l, q, s) && LinkAt(l.next, s, i) && (i > 0 ==> LinkAt(l.next, s, i - 1));
    var l', lists' := Unlink(l, q, Before(s, i), s[i]), lists[q := RemoveAt(s, i)];
    forall p: List
      ensures Chain(l', p, At(lists', p))
    {
      UnlinkChain(l, lists, q, i, p);
    }
    RemoveSeparate(lists, q, i);
  }

  lemma {:induction false} UnlinkChain(l: Links, lists: Lists, q: List, i: nat, p: List)
    requires Chained(l, lists) && Separate(lists) && i < |At(lists, q)| && At(lists, q)[i] in l.next
    ensures Chain(Unlink(l, q, Before(At(lists, q), i), At(lists, q)[i]), p,
                  At(lists[q := RemoveAt(At(lists, q), i)], p))
  {
    var s := At(lists, q);
    assert Chain(l, p, At(lists, p)) && Chain(l, q, s);
    if p == q {
      UnlinkHere(l, q, s, i);
    } else {
      assert i > 0 ==> s[i - 1] !in At(lists, p);
      UnlinkElsewhere(l, q, s, i, p, At(lists, p));
    }
  }

  lemma {:induction false} UnlinkHere(l: Links, q: List, s: seq<Tid>, i: nat)
    requires Chain(l, q, s) && Distinct(s) && i < |s| && s[i] in l.next
    ensures Chain(Unlink(l, q, Before(s, i), s[i]), q, RemoveAt(s, i))
  {
    var l', s' := Unlink(l, q, Before(s, i), s[i]), RemoveAt(s, i);
    ChainEnds(l, q, s, i);
    if i > 0 {
      ChainEnds(l, q, s, i - 1);
    }
    assert LinkAt(l.next, s, i);
    forall j | 0 <= j < |s'|
      ensures LinkAt(l'.next, s', j)
    {
      assert LinkAt(l.next, s, if j < i then j else j + 1);
    }
  }

  lemma {:induction false} UnlinkElsewhere(l: Links, q: List, s: seq<Tid>, i: nat, p: List, r: seq<Tid>)
    requires Chain(l, p, r) && p != q && i < |s| && s[i] in l.next && (i > 0 ==> s[i - 1] !in r)
    ensures Chain(Unlink(l, q, Before(s, i), s[i]), p, r)
  {
    var l' := Unlink(l, q, Before(s, i), s[i]);
    forall j | 0 <= j < |r|
      ensures LinkAt(l'.next, r, j)
    {
      assert LinkAt(l.next, r, j);
    }
  }

  lemma {:induction false} RemoveSeparate(lists: Lists, q: List, i: nat)
    requires Separate(lists) && i < |At(lists, q)|
    ensures Separate(lists[q := RemoveAt(At(lists, q), i)])
    ensures OnNoList(lists[q := RemoveAt(At(lists, q), i)], At(lists, q)[i])
  {
    var d := lists[q := RemoveAt(At(lists, q), i)];
    assert forall p, j | 0 <= j < |At(d, p)| :: At(d, p)[j] == At(lists, p)[if p == q && j >= i then j + 1 else j];
  }

  /** The pointer of a thread that is on no list may be anything. */
  lemma {:induction false} FreePointer(l: Links, lists: Lists, t: Tid, x: Tid)
    requires Chained(l, lists) && OnNoList(lists, t)
    ensures Chained(l.(next := l.next[t := x]), lists)
  {
    var l' := l.(next := l.next[t := x]);
    forall p: List
      ensures Chain(l', p, At(lists, p))
    {
      var s := At(lists, p);
      assert Chain(l, p, s);
      forall i | 0 <= i < |s|
        ensures LinkAt(l'.next, s, i)
      {
        assert LinkAt(l.next, s, i) && s[i] in s;
      }
    }
  }
}
