/** The timers in memory.  The sorted list and the callback queue are linked through the same `Next` pointer. */
module TimerLists {
  import opened Timers
  import S = Scheduler
  import ThreadLists

  const NULL: Id := 0

  /** The pointers from `first` on spell out a sequence. */
  ghost predicate Chain(next: map<Id, Id>, first: Id, s: seq<Id>)
  {
    first == (if s == [] then NULL else s[0]) && forall i | 0 <= i < |s| :: ThreadLists.LinkAt(next, s, i)
  }

  ghost predicate Disjoint(a: seq<Id>, b: seq<Id>)
  {
    forall i | 0 <= i < |a| :: a[i] !in b
  }

  function Following(s: seq<Id>, p: nat): Id
  {
    if p < |s| then s[p] else NULL
  }

  /** Linking a timer in behind the first `p`: the one before it, or the head, points to it. */
  function LinkIn(next: map<Id, Id>, s: seq<Id>, p: nat, t: Id): map<Id, Id>
    requires p <= |s|
  {
    var next' := next[t := Following(s, p)];
    if p == 0 then next' else next'[s[p - 1] := t]
  }

  lemma {:induction false} LinkInChain(next: map<Id, Id>, first: Id, s: seq<Id>, p: nat, t: Id)
    requires Chain(next, first, s) && S.Distinct(s) && p <= |s| && t !in s && t != NULL
    ensures Chain(LinkIn(next, s, p, t), if p == 0 then t else first, InsertAt(s, p, t))
  {
    var next', s' := LinkIn(next, s, p, t), InsertAt(s, p, t);
    forall i | 0 <= i < |s'|
      ensures ThreadLists.LinkAt(next', s', i)
    {
      if i != p {
        assert ThreadLists.LinkAt(next, s, if i < p then i else i - 1);
      }
      if p < |s| {
        assert ThreadLists.LinkAt(next, s, p);
      }
    }
  }

  /** Unlinking the timer at position `p`. */
  function LinkOut(next: map<Id, Id>, s: seq<Id>, p: nat): map<Id, Id>
    requires p < |s|
  {
    if p == 0 then next else next[s[p - 1] := Following(s, p + 1)]
  }

  lemma {:induction false} LinkOutChain(next: map<Id, Id>, first: Id, s: seq<Id>, p: nat)
    requires Chain(next, first, s) && S.Distinct(s) && p < |s|
    ensures Chain(LinkOut(next, s, p), if p == 0 then Following(s, 1) else first, S.RemoveAt(s, p))
    ensures s[p] in next && next[s[p]] == Following(s, p + 1) && s[p] != NULL
  {
    var next', s' := LinkOut(next, s, p), S.RemoveAt(s, p);
    assert ThreadLists.LinkAt(next, s, p);
    forall i | 0 <= i < |s'|
      ensures ThreadLists.LinkAt(next', s', i)
    {
      assert ThreadLists.LinkAt(next, s, if i < p then i else i + 1);
    }
    if p + 1 < |s| {
      assert ThreadLists.LinkAt(next, s, p + 1);
    }
  }

  lemma {:induction false} ElsewhereChain(next: map<Id, Id>, next': map<Id, Id>, first: Id, s: seq<Id>)
    requires Chain(next, first, s)
    requires forall i | 0 <= i < |s| :: s[i] in next ==> s[i] in next' && next'[s[i]] == next[s[i]]
    ensures Chain(next', first, s)
  {
    forall i | 0 <= i < |s|
      ensures ThreadLists.LinkAt(next', s, i)
    {
      assert ThreadLists.LinkAt(next, s, i);
    }
  }

  /** The list and the queue hold no timer twice and none together. */
  lemma {:induction false} ListsApart(s: State)
    requires Known(s) && Placed(s)
    ensures S.Distinct(s.list) && S.Distinct(s.queue) && Disjoint(s.list, s.queue)
  {
    forall i | 0 <= i < |s.list|
      ensures s.list[i] !in s.queue
    {
      OnePlace(s, s.list[i]);
    }
    OnceDistinct(s, s.list);
    OnceDistinct(s, s.queue);
  }

  lemma {:induction false} OnceDistinct(s: State, l: seq<Id>)
    requires forall i | 0 <= i < |l| :: l[i] in s.active && Count(l, l[i]) <= Places(s, l[i])
    requires Placed(s)
    ensures S.Distinct(l)
  {
    forall i, j | 0 <= i < j < |l|
      ensures l[i] != l[j]
    {
      assert Places(s, l[i]) <= 1;
      TwiceCounted(l, i, j);
    }
  }

  lemma {:induction false} TwiceCounted(l: seq<Id>, i: nat, j: nat)
    requires i < j < |l|
    ensures l[i] == l[j] ==> Count(l, l[i]) >= 2
  {
    assert l == l[..i] + [l[i]] + l[i + 1..j] + [l[j]] + l[j + 1..];
  }

  class TimerSystem {
    var now: int
    var next: map<Id, Id>
    var deadline: map<Id, int>
    var active: map<Id, bool>
    var hasCallback: map<Id, bool>
    var timers: Id
    var queueHead: Id
    var queueTail: Id
    ghost var list: seq<Id>
    ghost var queue: seq<Id>
    ghost var inHand: seq<Id>
    ghost var removing: seq<Id>
    ghost var ticket: map<Id, nat>
    ghost var holder: seq<Id>
    ghost var log: seq<Outcome>

    ghost function Abs(): State
      reads this
    {
      State(now, deadline, active, hasCallback, list, queue, inHand, removing, ticket, holder, log)
    }

    ghost predicate Linked()
      reads this`next, this`timers, this`queueHead, this`queueTail, this`list, this`queue
    {
      && Chain(next, timers, list) && Chain(next, queueHead, queue)
      && queueTail == (if queue == [] then NULL else queue[|queue| - 1])
    }

    ghost predicate Sound()
      reads this
    {
      Valid(Abs()) && Linked() && NULL !in active
    }

    /** All timers that there will be, each with or without a callback; none is active. */
    constructor (callbacks: map<Id, bool>)
      requires NULL !in callbacks
      ensures Sound() && Start(Abs()) && hasCallback == callbacks
    {
      now, timers, queueHead, queueTail := 0, NULL, NULL, NULL;
      next := map[];
      deadline := map t | t in callbacks :: 0;
      active := map t | t in callbacks :: false;
      hasCallback := callbacks;
      list, queue, inHand, removing, holder, log := [], [], [], [], [], [];
      ticket := map t | t in callbacks :: 0;
      new;
      StartValid(Abs());
    }

    /** Schedule a timer, unless it is active. */
    method ScheduleTimer(t: Id, delta: int)
      requires Sound() && t in active
      modifies this`next, this`deadline, this`active, this`timers, this`list, this`ticket, this`holder
      ensures Sound() && Abs() == Schedule(old(Abs()), t, delta)
    {
      hide Valid, Linked, Position, InsertAt;
      ValidParts(Abs());
      if !active[t] {
        ScheduleKeeps(Abs(), t, delta);
        Insert(t, now + delta);
      }
    }

    method Insert(t: Id, due: int)
      requires Sound() && t in active && !active[t]
      modifies this`next, this`deadline, this`active, this`timers, this`list, this`ticket, this`holder
      ensures Known(old(Abs())) && Linked() && Abs() == Schedule(old(Abs()), t, due - now)
    {
      hide Valid, Chain, Known, Placed, Position, InsertAt, Linked;
      ValidParts(Abs());
      var prev, p := FindLater(t, due);
      LinkBehind(t, prev, p);
      deadline := deadline[t := due];
      active := active[t := true];
      ticket := ticket[t := |holder|];
      holder := holder + [t];
    }

    /** The place for a timer: behind all that expire no later.  NULL stands for the head of the list. */
    method FindLater(t: Id, due: int) returns (prev: Id, ghost p: nat)
      requires Sound() && t in active && !active[t]
      ensures Known(Abs()) && p == Position(deadline, list, due)
      ensures prev == (if p == 0 then NULL else list[p - 1])
    {
      hide Placed, Sorted, NotEarly, Held, Accounted;
      assert list[0..] == list;
      var th := timers;
      prev, p := NULL, 0;
      while th != NULL
        invariant 0 <= p <= |list| && th == Following(list, p) && prev == (if p == 0 then NULL else list[p - 1])
        invariant Position(deadline, list, due) == p + Position(deadline, list[p..], due)
        decreases |list| - p
      {
        assert ThreadLists.LinkAt(next, list, p);
        OnePlace(Abs(), t);
        assert th != t;
        if deadline[th] > due {
          return;
        }
        assert list[p..][1..] == list[p + 1..];
        prev, th, p := th, next[th], p + 1;
      }
    }

    method LinkBehind(t: Id, prev: Id, ghost p: nat)
      requires Linked() && Known(Abs()) && Placed(Abs()) && t in active && !active[t] && t != NULL
      requires p <= |list| && prev == (if p == 0 then NULL else list[p - 1])
      modifies this`next, this`timers, this`list
      ensures Linked() && list == InsertAt(old(list), p, t)
    {
      hide Known, Placed, Position;
      assert S.Distinct(list) && S.Distinct(queue) && Disjoint(list, queue) && t !in list && t !in queue by {
        ListsApart(Abs());
        OnePlace(Abs(), t);
      }
      LinkInChain(next, timers, list, p, t);
      ghost var l := next;
      if p > 0 {
        assert ThreadLists.LinkAt(next, list, p - 1);
      }
      if prev == NULL {
        next := next[t := timers];
        timers := t;
      } else {
        next := next[t := next[prev]];
        next := next[prev := t];
      }
      assert next == LinkIn(l, list, p, t);
      ElsewhereChain(l, next, queueHead, queue);
      list := InsertAt(list, p, t);
    }

    /** First half of removing a timer: unlink it if it is on the list. */
    method UnlinkTimer(t: Id) returns (found: bool)
      requires Sound() && t in active
      modifies this`next, this`timers, this`list, this`removing, this`log
      ensures Known(old(Abs())) && found == (t in old(list))
      ensures Sound() && Abs() == Unlink(old(Abs()), t)
    {
      hide Valid, Known, Placed, Linked;
      ValidParts(Abs());
      var prev;
      found, prev := Find(t);
      if found {
        UnlinkKeeps(Abs(), t);
        Detach(t, prev);
        removing, log := removing + [t], log + [Cancelled(ticket[t])];
      }
    }

    /** Second half: mark it inactive. */
    method UnmarkTimer(t: Id)
      requires Sound() && t in removing
      modifies this`active, this`removing
      ensures Sound() && Abs() == Unmark(old(Abs()), t)
    {
      hide Valid, Linked, Without;
      UnmarkKeeps(Abs(), t);
      ValidParts(Abs());
      active := active[t := false];
      removing := Without(removing, t);
    }

    method Find(t: Id) returns (found: bool, prev: Id)
      requires Linked() && t != NULL
      ensures found == (t in list)
      ensures found ==> var p := S.IndexOf(list, t); prev == (if p == 0 then NULL else list[p - 1])
    {
      var th := timers;
      ghost var p := 0;
      prev := NULL;
      while th != NULL && th != t
        invariant 0 <= p <= |list| && th == Following(list, p) && prev == (if p == 0 then NULL else list[p - 1])
        invariant forall i | 0 <= i < p :: list[i] != t
        decreases |list| - p
      {
        assert ThreadLists.LinkAt(next, list, p);
        prev, th, p := th, next[th], p + 1;
      }
      found := th != NULL;
      assert p < |list| ==> ThreadLists.LinkAt(next, list, p);
    }

    method Detach(t: Id, prev: Id)
      requires Linked() && Known(Abs()) && Placed(Abs()) && t in list
      requires var p := S.IndexOf(list, t); prev == (if p == 0 then NULL else list[p - 1])
      modifies this`next, this`timers, this`list
      ensures Linked() && list == Without(old(list), t)
    {
      hide Known, Placed;
      assert S.Distinct(list) && S.Distinct(queue) && Disjoint(list, queue) by {
        ListsApart(Abs());
      }
      ghost var p, l := S.IndexOf(list, t), next;
      LinkOutChain(next, timers, list, p);
      if p > 0 {
        LinkOutChain(next, timers, list, p - 1);
      }
      if prev == NULL {
        timers := next[t];
      } else {
        next := next[prev := next[t]];
      }
      assert next == LinkOut(l, list, p);
      ElsewhereChain(l, next, queueHead, queue);
      list := S.RemoveAt(list, p);
    }

    /** Put a timer at the end of the callback queue. */
    method AddWork(t: Id)
      requires Linked() && S.Distinct(queue) && Disjoint(list, queue) && t !in list && t !in queue && t != NULL
      modifies this`next, this`queueHead, this`queueTail, this`queue
      ensures Linked() && queue == old(queue) + [t]
    {
      ghost var l := next;
      LinkInChain(next, queueHead, queue, |queue|, t);
      assert queue != [] ==> ThreadLists.LinkAt(next, queue, |queue| - 1);
      if queueTail != NULL {
        next := next[queueTail := t];
      } else {
        queueHead := t;
      }
      queueTail := t;
      next := next[t := NULL];
      assert next == LinkIn(l, queue, |queue|, t);
      assert InsertAt(queue, |queue|, t) == queue + [t];
      ElsewhereChain(l, next, timers, list);
      queue := queue + [t];
    }

    /** Take the first timer, which is over its deadline, off the list. */
    method ExpireFirst()
      requires Linked() && Known(Abs()) && Placed(Abs()) && Due(Abs()) && NULL !in active
      modifies this`next, this`active, this`timers, this`queueHead, this`queueTail, this`list, this`queue, this`log
      ensures Linked() && Abs() == Expire(old(Abs())) && NULL !in active
    {
      hide Known, Placed, Linked, Chain;
      assert S.Distinct(list) && S.Distinct(queue) && Disjoint(list, queue) by {
        ListsApart(Abs());
      }
      assert list[0] in active && list[0] in hasCallback && list[0] in deadline && list[0] in ticket by {
        FirstKnown(Abs());
      }
      var t := PopTimer();
      if hasCallback[t] {
        AddWork(t);
      } else {
        active := active[t := false];
        log := log + [Fired(ticket[t], deadline[t], now)];
      }
    }

    method PopTimer() returns (t: Id)
      requires Linked() && list != [] && S.Distinct(list) && S.Distinct(queue) && Disjoint(list, queue)
      modifies this`timers, this`list
      ensures t == old(list)[0] && t != NULL && list == old(list)[1..]
      ensures Linked() && Disjoint(list, queue) && t !in list && t !in queue
    {
      LinkOutChain(next, timers, list, 0);
      assert S.RemoveAt(list, 0) == list[1..];
      t := timers;
      timers := next[t];
      list := list[1..];
    }

    /** Expire timers until the first one is not due, reading the clock in each round. */
    method CallTimers(passed: seq<nat>)
      requires Sound()
      modifies this`now, this`next, this`active, this`timers, this`queueHead, this`queueTail
      modifies this`list, this`queue, this`log
      ensures Known(old(Abs())) && Sound() && Abs() == Timers.CallTimers(old(Abs()), passed)
    {
      hide Valid, Known, Placed, Expire, Linked, Chain, First, Rest;
      ghost var s := Abs();
      var left := passed;
      ValidParts(s);
      HeadKnown();
      while timers != NULL
        invariant Sound() && Known(Abs()) && Placed(Abs())
        invariant timers != NULL <==> list != []
        invariant list != [] ==> timers == list[0] && list[0] in deadline
        invariant Timers.CallTimers(Abs(), left) == Timers.CallTimers(s, passed)
        decreases |list|
      {
        ghost var before := Abs();
        ClockKeeps(before, First(left));
        now := now + First(left);
        assert Abs() == Later(before, First(left));
        left := Rest(left);
        ValidParts(Abs());
        if deadline[timers] >= now {
          break;
        }
        ExpireKeeps(Abs());
        ExpireTakes(Abs());
        ExpireFirst();
        ValidParts(Abs());
        HeadKnown();
      }
    }

    lemma {:induction false} HeadKnown()
      requires Linked() && Known(Abs())
      ensures timers != NULL <==> list != []
      ensures list != [] ==> timers == list[0] && list[0] in deadline
    {
      if list != [] {
        assert ThreadLists.LinkAt(next, list, 0);
      }
    }

    /** The callback thread takes the first timer off the queue. */
    method TakeTimer() returns (t: Id)
      requires Sound() && inHand == []
      modifies this`queueHead, this`queueTail, this`queue, this`inHand
      ensures Sound()
      ensures if old(queue) == [] then t == NULL && Abs() == old(Abs())
              else t == old(queue)[0] && Abs() == Dequeue(old(Abs()))
    {
      hide Valid, Linked;
      ghost var s := Abs();
      assert (queue != [] ==> Valid(Dequeue(s))) && S.Distinct(queue) by {
        ValidParts(s);
        ListsApart(s);
        if queue != [] {
          DequeueKeeps(s);
        }
      }
      t := PopWork();
      if t != NULL {
        inHand := [t];
      }
    }

    method PopWork() returns (t: Id)
      requires Linked() && S.Distinct(queue)
      modifies this`queueHead, this`queueTail, this`queue
      ensures Linked()
      ensures if old(queue) == [] then t == NULL && queue == []
              else t == old(queue)[0] && t != NULL && queue == old(queue)[1..]
    {
      if queue != [] {
        LinkOutChain(next, queueHead, queue, 0);
        assert S.RemoveAt(queue, 0) == queue[1..];
      }
      if queueHead == NULL {
        return NULL;
      }
      t := queueHead;
      queueHead := next[t];
      if queueTail == t {
        queueTail := NULL;
      }
      queue := queue[1..];
    }

    /** It marks the timer inactive and calls it. */
    method CallTimer(t: Id)
      requires Sound() && inHand == [t]
      modifies this`active, this`inHand, this`log
      ensures Known(old(Abs())) && Sound() && Abs() == Call(old(Abs()))
    {
      hide Valid, Linked;
      CallKeeps(Abs());
      ValidParts(Abs());
      log := log + [Fired(ticket[t], deadline[t], now)];
      active := active[t := false];
      inHand := [];
    }
  }

  lemma {:induction false} FirstKnown(s: State)
    requires Known(s) && s.list != []
    ensures s.list[0] in s.active && s.list[0] in s.hasCallback && s.list[0] in s.deadline && s.list[0] in s.ticket
  {
  }

  lemma {:induction false} ValidParts(s: State)
    requires Valid(s)
    ensures Known(s) && Placed(s) && s.deadline.Keys == s.active.Keys == s.hasCallback.Keys == s.ticket.Keys
    ensures forall i | 0 <= i < |s.list| :: s.list[i] in s.deadline
    ensures forall i | 0 <= i < |s.removing| :: s.removing[i] in s.active
    ensures forall i | 0 <= i < |s.inHand| :: s.inHand[i] in s.active
  {
  }
}
