/** Timers: the sorted list, the queue of expired timers with callbacks, and the thread that calls them. */
module Timers {
  import S = Scheduler

  type Id = nat

  /** What became of one scheduling of a timer. */
  datatype Outcome = Fired(ticket: nat, deadline: int, time: int) | Cancelled(ticket: nat)

  /** `list` is sorted by deadline.  `removing` holds timers that have been unlinked but are not yet marked
      inactive, and `inHand` the timer that the callback thread has dequeued but not yet marked.
      Each scheduling gets a ticket; `holder` and `log` record whose it was and what became of it. */
  datatype State = State(
    now: int,
    deadline: map<Id, int>,
    active: map<Id, bool>,
    hasCallback: map<Id, bool>,
    list: seq<Id>,
    queue: seq<Id>,
    inHand: seq<Id>,
    removing: seq<Id>,
    ticket: map<Id, nat>,
    holder: seq<Id>,
    log: seq<Outcome>)

  // ---------------------------------------------------------------- the steps

  /** The first position of a timer that expires strictly later. */
  function Position(deadline: map<Id, int>, list: seq<Id>, due: int): (p: nat)
    requires forall i | 0 <= i < |list| :: list[i] in deadline
    ensures p <= |list|
    ensures forall i | 0 <= i < p :: deadline[list[i]] <= due
    ensures p < |list| ==> deadline[list[p]] > due
  {
    if list == [] || deadline[list[0]] > due then 0 else 1 + Position(deadline, list[1..], due)
  }

  function InsertAt(list: seq<Id>, p: nat, t: Id): seq<Id>
    requires p <= |list|
  {
    list[..p] + [t] + list[p..]
  }

  /** Scheduling an active timer has no effect. */
  function Schedule(s: State, t: Id, delta: int): State
    requires t in s.active && forall i | 0 <= i < |s.list| :: s.list[i] in s.deadline
  {
    if s.active[t] then s
    else
      var due := s.now + delta;
      s.(deadline := s.deadline[t := due],
         active := s.active[t := true],
         list := InsertAt(s.list, Position(s.deadline, s.list, due), t),
         ticket := s.ticket[t := |s.holder|],
         holder := s.holder + [t])
  }

  /** Unlink a timer; one that is not on the list is left alone. */
  function Unlink(s: State, t: Id): State
    requires t in s.ticket || t !in s.list
  {
    if t !in s.list then s
    else
      s.(list := Without(s.list, t), removing := s.removing + [t], log := s.log + [Cancelled(s.ticket[t])])
  }

  function Without(list: seq<Id>, t: Id): seq<Id>
  {
    if t in list then S.RemoveAt(list, S.IndexOf(list, t)) else list
  }

  /** Mark a timer that has been unlinked. */
  function Unmark(s: State, t: Id): State
  {
    s.(active := s.active[t := false], removing := Without(s.removing, t))
  }

  /** The first timer is over its deadline. */
  predicate Due(s: State)
  {
    s.list != [] && s.list[0] in s.deadline && s.deadline[s.list[0]] < s.now
  }

  /** Take the first timer off the list, to the callback queue or to fire right away as an event. */
  function Expire(s: State): State
    requires Due(s) && s.list[0] in s.hasCallback && s.list[0] in s.ticket
  {
    var t := s.list[0];
    var rest := s.(list := s.list[1..]);
    if s.hasCallback[t] then rest.(queue := s.queue + [t])
    else rest.(active := s.active[t := false], log := s.log + [Fired(s.ticket[t], s.deadline[t], s.now)])
  }

  function Later(s: State, passed: nat): State
  {
    s.(now := s.now + passed)
  }

  /** The first of some spans of time; none is left when they run out. */
  function First(passed: seq<nat>): nat
  {
    if passed == [] then 0 else passed[0]
  }

  function Rest(passed: seq<nat>): seq<nat>
  {
    if passed == [] then [] else passed[1..]
  }

  /** Expire timers until the first one is not due.  The clock is read anew in each round; `passed` says how
      far it has moved on. */
  function CallTimers(s: State, passed: seq<nat>): State
    requires Known(s)
    decreases |s.list|
  {
    if s.list == [] then s
    else
      var s' := Later(s, First(passed));
      if Due(s') then
        ExpireKnown(s');
        CallTimers(Expire(s'), Rest(passed))
      else s'
  }

  /** The callback thread takes the first timer off the queue ... */
  function Dequeue(s: State): State
    requires s.queue != [] && s.inHand == []
  {
    s.(queue := s.queue[1..], inHand := [s.queue[0]])
  }

  /** ... marks it inactive and calls it. */
  function Call(s: State): State
    requires s.inHand != [] && s.inHand[0] in s.ticket && s.inHand[0] in s.deadline
  {
    var t := s.inHand[0];
    s.(active := s.active[t := false], inHand := [], log := s.log + [Fired(s.ticket[t], s.deadline[t], s.now)])
  }

  // ---------------------------------------------------------------- the invariant

  ghost predicate Known(s: State)
  {
    && s.deadline.Keys == s.active.Keys == s.hasCallback.Keys == s.ticket.Keys
    && (forall i | 0 <= i < |s.list| :: s.list[i] in s.active)
    && (forall i | 0 <= i < |s.queue| :: s.queue[i] in s.active)
    && (forall i | 0 <= i < |s.inHand| :: s.inHand[i] in s.active)
    && (forall i | 0 <= i < |s.removing| :: s.removing[i] in s.active)
    && |s.inHand| <= 1
  }

  function Count(list: seq<Id>, t: Id): nat
  {
    multiset(list)[t]
  }

  /** In how many places a timer is. */
  function Places(s: State, t: Id): nat
  {
    Count(s.list, t) + Count(s.queue, t) + Count(s.inHand, t) + Count(s.removing, t)
  }

  /** A timer is active just if it is in one of the places, and it is never in two. */
  ghost predicate Placed(s: State)
  {
    forall t | t in s.active :: Places(s, t) == if s.active[t] then 1 else 0
  }

  /** By deadline, and for equal deadlines by the time of scheduling. */
  predicate Ordered(s: State, a: Id, b: Id)
    requires a in s.deadline && b in s.deadline && a in s.ticket && b in s.ticket
  {
    s.deadline[a] < s.deadline[b] || (s.deadline[a] == s.deadline[b] && s.ticket[a] < s.ticket[b])
  }

  ghost predicate Sorted(s: State)
    requires Known(s)
  {
    forall i, j | 0 <= i < j < |s.list| :: Ordered(s, s.list[i], s.list[j])
  }

  /** Timers that wait to be called are over their deadlines, and so was every timer that has fired. */
  ghost predicate NotEarly(s: State)
    requires Known(s)
  {
    && (forall i | 0 <= i < |s.queue| :: s.deadline[s.queue[i]] < s.now)
    && (forall i | 0 <= i < |s.inHand| :: s.deadline[s.inHand[i]] < s.now)
    && (forall i | 0 <= i < |s.log| :: s.log[i].Fired? ==> s.log[i].deadline < s.log[i].time <= s.now)
  }

  /** The scheduling with this ticket is over. */
  ghost predicate Settled(s: State, k: nat)
  {
    exists i :: 0 <= i < |s.log| && s.log[i].ticket == k
  }

  /** The scheduling with this ticket is still to come off. */
  predicate Open(s: State, k: nat)
    requires k < |s.holder|
  {
    var t := s.holder[k];
    t in s.active && t in s.ticket && s.active[t] && s.ticket[t] == k && t !in s.removing
  }

  /** An active timer holds its ticket. */
  ghost predicate Held(s: State)
  {
    forall t | t in s.active && s.active[t] :: t in s.ticket && s.ticket[t] < |s.holder| && s.holder[s.ticket[t]] == t
  }

  /** Every scheduling either is still to come off or has fired or been cancelled, just once. */
  ghost predicate Accounted(s: State)
  {
    && (forall i, j | 0 <= i < j < |s.log| :: s.log[i].ticket != s.log[j].ticket)
    && (forall i | 0 <= i < |s.log| :: s.log[i].ticket < |s.holder|)
    && (forall k | 0 <= k < |s.holder| :: Settled(s, k) <==> !Open(s, k))
  }

  ghost predicate Valid(s: State)
  {
    Known(s) && Placed(s) && Sorted(s) && NotEarly(s) && Held(s) && Accounted(s)
  }

  // ---------------------------------------------------------------- every step keeps it

  lemma {:induction false} ExpireKnown(s: State)
    requires Known(s) && Due(s)
    ensures Known(Expire(s))
  {
  }

  /** A timer in one place is active and in no other. */
  lemma {:induction false} OnePlace(s: State, t: Id)
    requires Known(s) && Placed(s) && t in s.active
    ensures s.active[t] <==> t in s.list || t in s.queue || t in s.inHand || t in s.removing
    ensures t in s.list ==> t !in s.queue && t !in s.inHand && t !in s.removing
    ensures t in s.queue ==> t !in s.inHand && t !in s.removing
    ensures t in s.inHand ==> t !in s.removing
  {
    assert Count(s.list, t) > 0 <==> t in s.list;
    assert Count(s.queue, t) > 0 <==> t in s.queue;
    assert Count(s.inHand, t) > 0 <==> t in s.inHand;
    assert Count(s.removing, t) > 0 <==> t in s.removing;
    assert Places(s, t) == if s.active[t] then 1 else 0;
  }

  lemma {:induction false} CountInsert(list: seq<Id>, p: nat, t: Id, u: Id)
    requires p <= |list|
    ensures Count(InsertAt(list, p, t), u) == Count(list, u) + if u == t then 1 else 0
  {
    assert list == list[..p] + list[p..];
  }

  lemma {:induction false} CountHead(list: seq<Id>, u: Id)
    requires list != []
    ensures Count(list, u) == Count(list[1..], u) + if u == list[0] then 1 else 0
  {
    assert list == [list[0]] + list[1..];
  }

  lemma {:induction false} CountWithout(list: seq<Id>, t: Id, u: Id)
    requires t in list
    ensures Count(list, u) == Count(Without(list, t), u) + if u == t then 1 else 0
  {
    var i := S.IndexOf(list, t);
    assert list == list[..i] + [list[i]] + list[i + 1..];
  }

  lemma {:induction false} ScheduleKeeps(s: State, t: Id, delta: int)
    requires Valid(s) && t in s.active && !s.active[t]
    ensures Valid(Schedule(s, t, delta))
  {
    hide Settled, Open, Places, Ordered;
    ScheduleKnown(s, t, delta);
    SchedulePlaced(s, t, delta);
    ScheduleSorted(s, t, delta);
    ScheduleAccounted(s, t, delta);
    OnePlace(s, t);
  }

  lemma {:induction false} ScheduleKnown(s: State, t: Id, delta: int)
    requires Known(s) && t in s.active
    ensures Known(Schedule(s, t, delta))
  {
  }

  lemma {:induction false} SchedulePlaced(s: State, t: Id, delta: int)
    requires Known(s) && Placed(s) && t in s.active && !s.active[t]
    ensures Placed(Schedule(s, t, delta))
  {
    hide Count, InsertAt;
    var s' := Schedule(s, t, delta);
    forall u | u in s'.active
      ensures Places(s', u) == if s'.active[u] then 1 else 0
    {
      assert Places(s, u) == if s.active[u] then 1 else 0;
      CountInsert(s.list, Position(s.deadline, s.list, s.now + delta), t, u);
    }
  }

  lemma {:induction false} ScheduleSorted(s: State, t: Id, delta: int)
    requires Known(s) && Placed(s) && Sorted(s) && Held(s) && t in s.active && !s.active[t]
    requires Known(Schedule(s, t, delta))
    ensures Sorted(Schedule(s, t, delta))
  {
    var s', p := Schedule(s, t, delta), Position(s.deadline, s.list, s.now + delta);
    forall i, j | 0 <= i < j < |s'.list|
      ensures Ordered(s', s'.list[i], s'.list[j])
    {
      if i != p {
        OnePlace(s, s.list[if i < p then i else i - 1]);
      }
      if j != p {
        OnePlace(s, s.list[if j < p then j else j - 1]);
      }
      OnePlace(s, t);
      if i != p && j != p {
        assert Ordered(s, s.list[if i < p then i else i - 1], s.list[if j < p then j else j - 1]);
      } else if i == p {
        LaterAll(s, p, j - 1, s.now + delta);
      }
    }
  }

  /** From the insertion point on, all timers expire later. */
  lemma {:induction false} LaterAll(s: State, p: nat, j: nat, due: int)
    requires Known(s) && Sorted(s) && p <= j < |s.list| && s.deadline[s.list[p]] > due
    ensures s.deadline[s.list[j]] > due
  {
    if p < j {
      assert Ordered(s, s.list[p], s.list[j]);
    }
  }

  lemma {:induction false} ScheduleAccounted(s: State, t: Id, delta: int)
    requires Known(s) && Placed(s) && Accounted(s) && Held(s) && t in s.active && !s.active[t]
    ensures Held(Schedule(s, t, delta)) && Accounted(Schedule(s, t, delta))
  {
    var s' := Schedule(s, t, delta);
    OnePlace(s, t);
    forall k | 0 <= k < |s'.holder|
      ensures Settled(s', k) <==> !Open(s', k)
    {
      if k < |s.holder| {
        assert Settled(s', k) <==> Settled(s, k);
        assert Open(s', k) <==> Open(s, k);
      }
    }
  }

  /** One open scheduling is settled and no other is touched. */
  lemma {:induction false} Settle(s: State, s': State, t: Id, o: Outcome)
    requires Accounted(s) && t in s.ticket && s.ticket[t] < |s.holder| && Open(s, s.ticket[t])
    requires s'.holder == s.holder && s'.log == s.log + [o] && o.ticket == s.ticket[t]
    requires forall k | 0 <= k < |s.holder| :: Open(s', k) <==> Open(s, k) && k != s.ticket[t]
    ensures Accounted(s')
  {
    hide Open;
    assert !Settled(s, s.ticket[t]);
    forall k | 0 <= k < |s'.holder|
      ensures Settled(s', k) <==> !Open(s', k)
    {
      assert s'.log[|s.log|].ticket == s.ticket[t];
      assert Settled(s', k) <==> Settled(s, k) || k == s.ticket[t] by {
        if Settled(s, k) {
          var i :| 0 <= i < |s.log| && s.log[i].ticket == k;
          assert s'.log[i].ticket == k;
        }
      }
    }
  }

  lemma {:induction false} SameAccount(s: State, s': State)
    requires Accounted(s) && s'.holder == s.holder && s'.log == s.log
    requires forall k | 0 <= k < |s.holder| :: Open(s', k) <==> Open(s, k)
    ensures Accounted(s')
  {
    assert forall k :: Settled(s', k) <==> Settled(s, k);
  }

  lemma {:induction false} WithoutMember(list: seq<Id>, t: Id, u: Id)
    requires u != t
    ensures u in Without(list, t) <==> u in list
  {
    if t in list {
      var i := S.IndexOf(list, t);
      assert list == list[..i] + [t] + list[i + 1..];
    }
  }

  // Removing

  lemma {:induction false} UnlinkKnown(s: State, t: Id)
    requires Known(s) && t in s.list
    ensures Known(Unlink(s, t))
  {
  }

  lemma {:induction false} UnlinkPlaced(s: State, t: Id)
    requires Known(s) && Placed(s) && t in s.list
    ensures Placed(Unlink(s, t))
  {
    hide Count, Without;
    var s' := Unlink(s, t);
    forall u | u in s'.active
      ensures Places(s', u) == if s'.active[u] then 1 else 0
    {
      assert Places(s, u) == if s.active[u] then 1 else 0;
      CountWithout(s.list, t, u);
      CountLast(s.removing, t, u);
    }
  }

  lemma {:induction false} CountLast(list: seq<Id>, t: Id, u: Id)
    ensures Count(list + [t], u) == Count(list, u) + if u == t then 1 else 0
  {
  }

  lemma {:induction false} UnlinkSorted(s: State, t: Id)
    requires Known(s) && Sorted(s) && t in s.list && Known(Unlink(s, t))
    ensures Sorted(Unlink(s, t))
  {
    var s', p := Unlink(s, t), S.IndexOf(s.list, t);
    forall i, j | 0 <= i < j < |s'.list|
      ensures Ordered(s', s'.list[i], s'.list[j])
    {
      assert Ordered(s, s.list[if i < p then i else i + 1], s.list[if j < p then j else j + 1]);
    }
  }

  lemma {:induction false} UnlinkAccounted(s: State, t: Id)
    requires Known(s) && Placed(s) && Accounted(s) && Held(s) && t in s.list
    ensures Accounted(Unlink(s, t))
  {
    hide Count, Without, Accounted;
    OnePlace(s, t);
    Settle(s, Unlink(s, t), t, Cancelled(s.ticket[t]));
  }

  lemma {:induction false} UnlinkKeeps(s: State, t: Id)
    requires Valid(s) && t in s.list
    ensures Valid(Unlink(s, t))
  {
    hide Settled, Open, Places, Ordered, Without;
    UnlinkKnown(s, t);
    UnlinkPlaced(s, t);
    UnlinkSorted(s, t);
    UnlinkAccounted(s, t);
  }

  lemma {:induction false} UnmarkKnown(s: State, t: Id)
    requires Known(s) && t in s.removing
    ensures Known(Unmark(s, t))
  {
  }

  lemma {:induction false} UnmarkPlaced(s: State, t: Id)
    requires Known(s) && Placed(s) && t in s.removing
    ensures Placed(Unmark(s, t))
  {
    hide Count, Without, Known;
    var s' := Unmark(s, t);
    forall u | u in s'.active
      ensures Places(s', u) == if s'.active[u] then 1 else 0
    {
      assert t in s.active by { KnownRemoving(s, t); }
      assert u in s.active ==> Places(s, u) == if s.active[u] then 1 else 0;
      CountWithout(s.removing, t, u);
      CountMember(s.removing, t);
    }
  }

  lemma {:induction false} KnownRemoving(s: State, t: Id)
    requires Known(s) && t in s.removing
    ensures t in s.active
  {
  }

  lemma {:induction false} CountMember(list: seq<Id>, t: Id)
    ensures Count(list, t) > 0 <==> t in list
  {
  }

  lemma {:induction false} UnmarkAccounted(s: State, t: Id)
    requires Known(s) && Accounted(s) && Held(s) && t in s.removing
    ensures Accounted(Unmark(s, t))
  {
    hide Without, Accounted;
    var s' := Unmark(s, t);
    forall k | 0 <= k < |s.holder|
      ensures Open(s', k) <==> Open(s, k)
    {
      if s.holder[k] != t {
        WithoutMember(s.removing, t, s.holder[k]);
      }
    }
    SameAccount(s, s');
  }

  lemma {:induction false} UnmarkKeeps(s: State, t: Id)
    requires Valid(s) && t in s.removing
    ensures Valid(Unmark(s, t))
  {
    hide Settled, Open, Places, Without;
    UnmarkKnown(s, t);
    UnmarkPlaced(s, t);
    UnmarkAccounted(s, t);
  }

  // Expiring and calling

  lemma {:induction false} ExpirePlaced(s: State)
    requires Known(s) && Placed(s) && Due(s)
    ensures Placed(Expire(s))
  {
    hide Count;
    var s', t := Expire(s), s.list[0];
    forall u | u in s'.active
      ensures Places(s', u) == if s'.active[u] then 1 else 0
    {
      assert Places(s, u) == if s.active[u] then 1 else 0;
      CountHead(s.list, u);
      CountLast(s.queue, t, u);
    }
  }

  lemma {:induction false} ExpireSorted(s: State)
    requires Known(s) && Sorted(s) && Due(s) && Known(Expire(s))
    ensures Sorted(Expire(s))
  {
    var s' := Expire(s);
    forall i, j | 0 <= i < j < |s'.list|
      ensures Ordered(s', s'.list[i], s'.list[j])
    {
      assert Ordered(s, s.list[i + 1], s.list[j + 1]);
    }
  }

  lemma {:induction false} ExpireAccounted(s: State)
    requires Known(s) && Placed(s) && Accounted(s) && Held(s) && Due(s)
    ensures Accounted(Expire(s)) && Held(Expire(s))
  {
    hide Count, Accounted;
    var t := s.list[0];
    OnePlace(s, t);
    if s.hasCallback[t] {
      SameAccount(s, Expire(s));
    } else {
      Settle(s, Expire(s), t, Fired(s.ticket[t], s.deadline[t], s.now));
    }
  }

  lemma {:induction false} ExpireKeeps(s: State)
    requires Valid(s) && Due(s)
    ensures Valid(Expire(s))
  {
    hide Settled, Open, Places, Ordered, Accounted, Placed, Sorted, Held;
    ExpireKnown(s);
    ExpirePlaced(s);
    ExpireSorted(s);
    ExpireAccounted(s);
  }

  lemma {:induction false} CallTimersKeeps(s: State, passed: seq<nat>)
    requires Valid(s)
    ensures Valid(CallTimers(s, passed)) && !Due(CallTimers(s, passed))
    decreases |s.list|
  {
    hide Placed, Sorted, NotEarly, Held, Accounted;
    if s.list != [] {
      var s' := Later(s, First(passed));
      ClockKeeps(s, First(passed));
      if Due(s') {
        ExpireKeeps(s');
        CallTimersKeeps(Expire(s'), Rest(passed));
      }
    }
  }

  lemma {:induction false} ExpireTakes(s: State)
    requires Known(s) && Due(s)
    ensures Expire(s).list == s.list[1..] && Expire(s).deadline == s.deadline && Expire(s).now == s.now
  {
  }

  /** A tick takes just the timers off the list that are over their deadlines when it reads the clock last. */
  lemma {:induction false} TickTakesDue(s: State, passed: seq<nat>)
    requires Known(s)
    ensures var r := CallTimers(s, passed);
            s.now <= r.now && r.deadline == s.deadline && r.list == s.list[Position(s.deadline, s.list, r.now - 1)..]
    decreases |s.list|
  {
    hide Expire;
    if s.list != [] {
      var s' := Later(s, First(passed));
      if Due(s') {
        ExpireKnown(s');
        ExpireTakes(s');
        TickTakesDue(Expire(s'), Rest(passed));
      }
    }
  }

  /** After a tick no timer on the list is over its deadline. */
  lemma {:induction false} TickComplete(s: State, passed: seq<nat>)
    requires Valid(s)
    ensures var r := CallTimers(s, passed);
            Known(r) && forall i | 0 <= i < |r.list| :: r.deadline[r.list[i]] >= r.now
  {
    hide Placed, NotEarly, Held, Accounted, CallTimers;
    CallTimersKeeps(s, passed);
    var r := CallTimers(s, passed);
    forall i | 0 <= i < |r.list|
      ensures r.deadline[r.list[i]] >= r.now
    {
      if i > 0 {
        assert Ordered(r, r.list[0], r.list[i]);
      }
    }
  }

  lemma {:induction false} CountEmpty(u: Id)
    ensures Count([], u) == 0
  {
  }

  lemma {:induction false} DequeuePlaced(s: State)
    requires Known(s) && Placed(s) && s.queue != [] && s.inHand == []
    ensures Known(Dequeue(s)) && Placed(Dequeue(s))
  {
    hide Count;
    var s' := Dequeue(s);
    forall u | u in s'.active
      ensures Places(s', u) == if s'.active[u] then 1 else 0
    {
      assert Places(s, u) == if s.active[u] then 1 else 0;
      CountHead(s.queue, u);
      CountHead(s'.inHand, u);
      assert s'.inHand[1..] == [];
    }
  }

  lemma {:induction false} DequeueKeeps(s: State)
    requires Valid(s) && s.queue != [] && s.inHand == []
    ensures Valid(Dequeue(s))
  {
    hide Settled, Count, Placed, Accounted;
    DequeuePlaced(s);
    SameAccount(s, Dequeue(s));
    SameSorted(s, Dequeue(s));
  }

  lemma {:induction false} SameSorted(s: State, s': State)
    requires Known(s) && Known(s') && Sorted(s)
    requires s'.list == s.list && s'.deadline == s.deadline && s'.ticket == s.ticket
    ensures Sorted(s')
  {
    forall i, j | 0 <= i < j < |s'.list|
      ensures Ordered(s', s'.list[i], s'.list[j])
    {
      assert Ordered(s, s.list[i], s.list[j]);
    }
  }

  lemma {:induction false} CallPlaced(s: State)
    requires Known(s) && Placed(s) && s.inHand != []
    ensures Known(Call(s)) && Placed(Call(s))
  {
    hide Count;
    var s', t := Call(s), s.inHand[0];
    forall u | u in s'.active
      ensures Places(s', u) == if s'.active[u] then 1 else 0
    {
      assert Places(s, u) == if s.active[u] then 1 else 0;
      CountHead(s.inHand, u);
      CountEmpty(u);
      assert s.inHand[1..] == [];
    }
  }

  lemma {:induction false} CallAccounted(s: State)
    requires Known(s) && Placed(s) && Accounted(s) && Held(s) && s.inHand != []
    ensures Accounted(Call(s)) && Held(Call(s))
  {
    hide Count, Accounted;
    var t := s.inHand[0];
    OnePlace(s, t);
    Settle(s, Call(s), t, Fired(s.ticket[t], s.deadline[t], s.now));
  }

  lemma {:induction false} CallKeeps(s: State)
    requires Valid(s) && s.inHand != []
    ensures Valid(Call(s))
  {
    hide Settled, Count, Placed, Accounted, Held;
    CallPlaced(s);
    CallAccounted(s);
    SameSorted(s, Call(s));
  }

  lemma {:induction false} ClockKeeps(s: State, d: nat)
    requires Valid(s)
    ensures Valid(Later(s, d))
  {
    hide Settled, Count, Accounted, Places;
    var s' := Later(s, d);
    assert forall t :: Places(s', t) == Places(s, t) by { SamePlaces(s, s'); }
    SameSorted(s, s');
    SameAccount(s, s');
  }

  lemma {:induction false} SamePlaces(s: State, s': State)
    requires s'.list == s.list && s'.queue == s.queue && s'.inHand == s.inHand && s'.removing == s.removing
    ensures forall t :: Places(s', t) == Places(s, t)
  {
  }

  // ---------------------------------------------------------------- runs

  datatype Step =
    | Clock(passed: nat)
    | ScheduleTimer(t: Id, delta: int)
    | UnlinkTimer(t: Id)
    | UnmarkTimer(t: Id)
    | Tick(spans: seq<nat>)
    | TakeTimer
    | CallTimer

  ghost predicate Enabled(s: State, step: Step)
    requires Known(s)
  {
    match step
    case Clock(_) => true
    case ScheduleTimer(t, _) => t in s.active
    case UnlinkTimer(t) => t in s.active
    case UnmarkTimer(t) => t in s.removing
    case Tick(_) => true
    case TakeTimer => s.queue != [] && s.inHand == []
    case CallTimer => s.inHand != []
  }

  ghost function Next(s: State, step: Step): State
    requires Known(s) && Enabled(s, step)
  {
    match step
    case Clock(d) => Later(s, d)
    case ScheduleTimer(t, delta) => Schedule(s, t, delta)
    case UnlinkTimer(t) => Unlink(s, t)
    case UnmarkTimer(t) => Unmark(s, t)
    case Tick(passed) => CallTimers(s, passed)
    case TakeTimer => Dequeue(s)
    case CallTimer => Call(s)
  }

  lemma {:induction false} StepKeeps(s: State, step: Step)
    requires Valid(s) && Enabled(s, step)
    ensures Valid(Next(s, step))
  {
    hide Placed, Sorted, NotEarly, Held, Accounted;
    match step
    case Clock(d) => ClockKeeps(s, d);
    case ScheduleTimer(t, delta) => if !s.active[t] { ScheduleKeeps(s, t, delta); }
    case UnlinkTimer(t) => if t in s.list { UnlinkKeeps(s, t); }
    case UnmarkTimer(t) => UnmarkKeeps(s, t);
    case Tick(passed) => CallTimersKeeps(s, passed);
    case TakeTimer => DequeueKeeps(s);
    case CallTimer => CallKeeps(s);
  }

  ghost predicate StepAt(ss: seq<State>, steps: seq<Step>, n: nat)
    requires |ss| == |steps| + 1 && n < |steps|
  {
    Known(ss[n]) && Enabled(ss[n], steps[n]) && ss[n + 1] == Next(ss[n], steps[n])
  }

  /** At the start every timer is inactive. */
  ghost predicate Start(s: State)
  {
    && s.deadline.Keys == s.active.Keys == s.hasCallback.Keys == s.ticket.Keys
    && (forall t | t in s.active :: !s.active[t])
    && s.list == s.queue == s.inHand == s.removing == [] && s.holder == [] && s.log == []
  }

  ghost predicate Run(ss: seq<State>, steps: seq<Step>)
  {
    |ss| == |steps| + 1 && Start(ss[0]) && forall n | 0 <= n < |steps| :: StepAt(ss, steps, n)
  }

  /** In every state of every run the list is sorted with ties in scheduling order, a timer is active just
      if it is in one of its places, and every scheduling is open, cancelled or fired after its deadline. */
  lemma {:induction false} RunValid(ss: seq<State>, steps: seq<Step>, n: nat)
    requires Run(ss, steps) && n < |ss|
    ensures Valid(ss[n])
  {
    hide Placed, NotEarly, Held, Accounted;
    if n == 0 {
      StartValid(ss[0]);
    } else {
      RunValid(ss, steps, n - 1);
      assert StepAt(ss, steps, n - 1);
      StepKeeps(ss[n - 1], steps[n - 1]);
    }
  }

  lemma {:induction false} StartValid(s: State)
    requires Start(s)
    ensures Valid(s)
  {
    forall t | t in s.active
      ensures Places(s, t) == 0
    {
      CountEmpty(t);
    }
  }

  // ---------------------------------------------------------------- what a scheduling was promised

  /** The deadlines that the first `n` steps promised, one for each scheduling of an inactive timer: the time of
      that step and the span asked for. */
  ghost function Promised(ss: seq<State>, steps: seq<Step>, n: nat): seq<int>
    requires |ss| == |steps| + 1 && n <= |steps|
  {
    if n == 0 then [] else Promised(ss, steps, n - 1) + PromisedBy(ss[n - 1], steps[n - 1])
  }

  function PromisedBy(s: State, step: Step): seq<int>
  {
    if step.ScheduleTimer? && step.t in s.active && !s.active[step.t] then [s.now + step.delta] else []
  }

  /** Timers hold, and fired timers have kept, the deadlines that they were promised. */
  ghost predicate Kept(s: State, promised: seq<int>)
  {
    && |promised| == |s.holder|
    && (forall t | t in s.active && s.active[t] ::
          t in s.ticket && t in s.deadline && s.ticket[t] < |promised| && s.deadline[t] == promised[s.ticket[t]])
    && (forall i | 0 <= i < |s.log| && s.log[i].Fired? ::
          s.log[i].ticket < |promised| && s.log[i].deadline == promised[s.log[i].ticket])
  }

  lemma {:induction false} ExpireKept(s: State, promised: seq<int>)
    requires Valid(s) && Due(s) && Kept(s, promised)
    ensures Kept(Expire(s), promised)
  {
    hide Sorted, NotEarly, Held, Accounted;
    OnePlace(s, s.list[0]);
  }

  lemma {:induction false} TickKept(s: State, passed: seq<nat>, promised: seq<int>)
    requires Valid(s) && Kept(s, promised)
    ensures Kept(CallTimers(s, passed), promised)
    decreases |s.list|
  {
    hide Placed, Sorted, NotEarly, Held, Accounted;
    if s.list != [] {
      var s' := Later(s, First(passed));
      ClockKeeps(s, First(passed));
      if Due(s') {
        ExpireKept(s', promised);
        ExpireKeeps(s');
        TickKept(Expire(s'), Rest(passed), promised);
      }
    }
  }

  lemma {:induction false} CallKept(s: State, promised: seq<int>)
    requires Valid(s) && s.inHand != [] && Kept(s, promised)
    ensures Kept(Call(s), promised)
  {
    hide Sorted, NotEarly, Held, Accounted;
    OnePlace(s, s.inHand[0]);
  }

  lemma {:induction false} ScheduleKept(s: State, t: Id, delta: int, promised: seq<int>)
    requires Known(s) && Kept(s, promised) && t in s.active
    ensures Kept(Schedule(s, t, delta), promised + PromisedBy(s, ScheduleTimer(t, delta)))
  {
  }

  lemma {:induction false} StepKept(s: State, step: Step, promised: seq<int>)
    requires Valid(s) && Enabled(s, step) && Kept(s, promised)
    ensures Kept(Next(s, step), promised + PromisedBy(s, step))
  {
    hide Placed, Sorted, NotEarly, Held, Accounted, CallTimers, Call, Schedule, Without;
    if step.ScheduleTimer? {
      ScheduleKept(s, step.t, step.delta, promised);
    } else {
      assert promised + PromisedBy(s, step) == promised;
      if step.Tick? {
        TickKept(s, step.spans, promised);
      } else if step.CallTimer? {
        CallKept(s, promised);
      }
    }
  }

  lemma {:induction false} RunKept(ss: seq<State>, steps: seq<Step>, n: nat)
    requires Run(ss, steps) && n <= |steps|
    ensures Kept(ss[n], Promised(ss, steps, n))
  {
    hide Valid, Known, Enabled, Next;
    if n > 0 {
      RunKept(ss, steps, n - 1);
      assert StepAt(ss, steps, n - 1);
      RunValid(ss, steps, n - 1);
      StepKept(ss[n - 1], steps[n - 1], Promised(ss, steps, n - 1));
    }
  }

  /** A timer fires only after the time of its scheduling and the span asked for then have gone by, and at most
      once for each time it was scheduled. */
  lemma {:induction false} FiresOnceAndLate(ss: seq<State>, steps: seq<Step>, n: nat, i: nat, j: nat)
    requires Run(ss, steps) && n <= |steps| && i < |ss[n].log| && j < |ss[n].log|
    ensures var promised, o := Promised(ss, steps, n), ss[n].log[i];
            o.Fired? ==> o.ticket < |promised| && promised[o.ticket] == o.deadline < o.time <= ss[n].now
    ensures ss[n].log[i].ticket == ss[n].log[j].ticket ==> i == j
  {
    hide StepAt, Start;
    RunValid(ss, steps, n);
    RunKept(ss, steps, n);
  }

  /** A run goes on with any step that is enabled in its last state. */
  lemma {:induction false} RunExtends(ss: seq<State>, steps: seq<Step>)
    requires Run(ss, steps)
    ensures Known(ss[|steps|])
    ensures forall step | Enabled(ss[|steps|], step) :: Run(ss + [Next(ss[|steps|], step)], steps + [step])
  {
    hide Placed, Sorted, NotEarly, Held, Accounted, Known, Enabled, Next, Start;
    RunValid(ss, steps, |steps|);
    forall step | Enabled(ss[|steps|], step)
      ensures Run(ss + [Next(ss[|steps|], step)], steps + [step])
    {
      var ss', steps' := ss + [Next(ss[|steps|], step)], steps + [step];
      forall n | 0 <= n < |steps'|
        ensures StepAt(ss', steps', n)
      {
        assert n < |steps| ==> StepAt(ss, steps, n);
      }
    }
  }
}
