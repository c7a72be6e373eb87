/** Threads, the lists they are linked into, and the choice of the next one to run.

    A thread is named by the address of its descriptor; 0 is NULL.  What a sleeping thread waits for (the
    wait pointer, and for events the mask kept in the return status) is part of its status. */
module Scheduler {

  type Tid = nat
  type Event = nat

  const NULL: Tid := 0
  const MIN_PRIORITY := 10

  datatype Status =
    | Preinit
    | Active
    | Sleeping
    | MutexSleep(mutex: nat)
    | SemaphoreSleep(sem: nat)
    | QueueSleep(queue: nat)
    | EventSleep(mask: set<Event>)

  /** The lists that thread descriptors are linked into through their one `Next` pointer. */
  datatype List =
    | RunQueue(priority: nat)
    | Sleepers
    | MutexWaiters(mutex: nat)
    | SemaphoreWaiters(sem: nat)
    | WorkSleepers(queue: nat)

  datatype Sched = Sched(
    status: map<Tid, Status>,
    priority: map<Tid, nat>,
    lists: map<List, seq<Tid>>,
    current: Tid,
    numActive: int)

  // ---------------------------------------------------------------- sequences

  ghost predicate Distinct<T>(s: seq<T>)
  {
    forall i, j | 0 <= i < j < |s| :: s[i] != s[j]
  }

  function IndexOf(s: seq<Tid>, t: Tid): (r: nat)
    requires t in s
    ensures r < |s| && s[r] == t
    ensures forall j | 0 <= j < r :: s[j] != t
  {
    if s[0] == t then 0 else 1 + IndexOf(s[1..], t)
  }

  function RemoveAt<T>(s: seq<T>, i: nat): seq<T>
    requires i < |s|
  {
    s[..i] + s[i + 1..]
  }

  /** The contents of a list; one that was never used is empty. */
  function Get(c: Sched, q: List): seq<Tid>
  {
    if q in c.lists then c.lists[q] else []
  }

  // ---------------------------------------------------------------- where a thread is

  datatype Place = Nowhere | On(list: List)

  /** The wait list that goes with a status. */
  function WaitList(s: Status): Place
  {
    match s
    case Sleeping => On(Sleepers)
    case MutexSleep(m) => On(MutexWaiters(m))
    case SemaphoreSleep(s) => On(SemaphoreWaiters(s))
    case QueueSleep(w) => On(WorkSleepers(w))
    case _ => Nowhere
  }

  /** The list that a thread must be on: its run queue if it is active and not running. */
  function Home(c: Sched, t: Tid): Place
    requires t in c.status && t in c.priority
  {
    if c.status[t].Active? then
      if t == c.current then Nowhere else On(RunQueue(c.priority[t]))
    else
      WaitList(c.status[t])
  }

  ghost predicate Shaped(c: Sched)
  {
    && c.priority.Keys == c.status.Keys
    && NULL !in c.status && c.current in c.status
    && (forall t | t in c.priority :: c.priority[t] <= MIN_PRIORITY)
  }

  /** Every thread on the list belongs there, once. */
  ghost predicate ListOk(c: Sched, q: List)
    requires c.priority.Keys == c.status.Keys
  {
    && Distinct(Get(c, q))
    && forall i | 0 <= i < |Get(c, q)| :: BelongsOn(c, Get(c, q)[i], q)
  }

  predicate BelongsOn(c: Sched, t: Tid, q: List)
    requires c.priority.Keys == c.status.Keys
  {
    t in c.status && Home(c, t) == On(q)
  }

  /** The thread is on the list where it belongs. */
  predicate ThreadOk(c: Sched, t: Tid)
    requires c.priority.Keys == c.status.Keys && t in c.status
  {
    var home := Home(c, t);
    home.On? ==> t in Get(c, home.list)
  }

  ghost predicate Listed(c: Sched)
    requires Shaped(c)
  {
    forall q :: ListOk(c, q)
  }

  ghost predicate Placed(c: Sched)
    requires Shaped(c)
  {
    forall t | t in c.status :: ThreadOk(c, t)
  }

  ghost function ActiveSet(status: map<Tid, Status>): set<Tid>
  {
    set t | t in status && status[t].Active?
  }

  /** Every thread is in exactly one place, and the number of active threads is right. */
  ghost predicate Sound(c: Sched)
  {
    Shaped(c) && Listed(c) && Placed(c) && c.numActive == |ActiveSet(c.status)|
  }

  // ---------------------------------------------------------------- list surgery

  function Append(c: Sched, q: List, t: Tid): Sched
  {
    c.(lists := c.lists[q := Get(c, q) + [t]])
  }

  /** Take the thread at position `i` off a list. */
  function Detach(c: Sched, q: List, i: nat): Sched
    requires i < |Get(c, q)|
  {
    c.(lists := c.lists[q := RemoveAt(Get(c, q), i)])
  }

  /** Make a thread that is on no list active: it joins its run queue unless it is the current thread. */
  function AddActive(c: Sched, t: Tid): Sched
    requires t in c.priority
  {
    var c' := c.(status := c.status[t := Active], numActive := c.numActive + 1);
    if t == c.current then c' else Append(c', RunQueue(c.priority[t]), t)
  }

  /** Take the thread at position `i` off a wait list and make it active. */
  function Unblock(c: Sched, q: List, i: nat): Sched
    requires i < |Get(c, q)| && Get(c, q)[i] in c.priority
  {
    AddActive(Detach(c, q, i), Get(c, q)[i])
  }

  /** The current thread stops being active. */
  function Doze(c: Sched, status: Status): Sched
  {
    c.(status := c.status[c.current := status], numActive := c.numActive - 1)
  }

  /** The current thread goes to sleep on a list. */
  function SleepOn(c: Sched, status: Status, q: List): Sched
  {
    Append(Doze(c, status), q, c.current)
  }

  // ---------------------------------------------------------------- the next thread to run

  /** The best priority at or after `p` that has a thread queued. */
  function FirstQueued(c: Sched, p: nat): (r: nat)
    requires p <= MIN_PRIORITY + 1
    ensures p <= r <= MIN_PRIORITY + 1
    ensures forall q: nat | p <= q < r :: Get(c, RunQueue(q)) == []
    ensures r <= MIN_PRIORITY ==> Get(c, RunQueue(r)) != []
    decreases MIN_PRIORITY + 1 - p
  {
    if p > MIN_PRIORITY || Get(c, RunQueue(p)) != [] then p else FirstQueued(c, p + 1)
  }

  /** Let the old thread be scheduled again. */
  function Requeue(c: Sched): Sched
    requires c.current in c.status && c.current in c.priority
  {
    if c.status[c.current].Active? then Append(c, RunQueue(c.priority[c.current]), c.current) else c
  }

  /** Put the first thread of a run queue on the CPU. */
  function RunFirst(c: Sched, p: nat): Sched
    requires Get(c, RunQueue(p)) != []
  {
    c.(lists := c.lists[RunQueue(p) := Get(c, RunQueue(p))[1..]], current := Get(c, RunQueue(p))[0])
  }

  /** Run the first thread of the best queue. */
  function Pick(c: Sched): Sched
  {
    var p := FirstQueued(c, 0);
    if p > MIN_PRIORITY then c else RunFirst(c, p)
  }

  function Reschedule(c: Sched, noSwitch: bool): Sched
    requires Shaped(c)
  {
    if noSwitch || c.numActive == 0 then c else Pick(Requeue(c))
  }

  // ---------------------------------------------------------------- keeping everything in its place

  lemma {:induction false} AtHome(c: Sched, q: List, i: nat)
    requires Shaped(c) && Listed(c) && i < |Get(c, q)|
    ensures BelongsOn(c, Get(c, q)[i], q)
    ensures Distinct(Get(c, q))
  {
    assert ListOk(c, q);
  }

  lemma {:induction false} OnlyAtHome(c: Sched, q: List, t: Tid)
    requires Shaped(c) && Listed(c) && t in Get(c, q)
    ensures BelongsOn(c, t, q)
  {
    var i :| 0 <= i < |Get(c, q)| && Get(c, q)[i] == t;
    AtHome(c, q, i);
  }

  lemma {:induction false} CountUp(status: map<Tid, Status>, t: Tid)
    requires t in status && !status[t].Active?
    ensures |ActiveSet(status[t := Active])| == |ActiveSet(status)| + 1
  {
    assert ActiveSet(status[t := Active]) == ActiveSet(status) + {t};
  }

  lemma {:induction false} CountDown(status: map<Tid, Status>, t: Tid, s: Status)
    requires t in status && status[t].Active? && !s.Active?
    ensures |ActiveSet(status[t := s])| == |ActiveSet(status)| - 1
  {
    assert ActiveSet(status) == ActiveSet(status[t := s]) + {t};
  }

  /** A thread that the lists do not mention is linked into the list where it belongs. */
  lemma {:induction false} LinkListed(c: Sched, q: List, t: Tid)
    requires Shaped(c) && BelongsOn(c, t, q)
    requires forall p :: t !in Get(c, p) && ListOk(c, p)
    ensures Shaped(Append(c, q, t)) && Listed(Append(c, q, t))
  {
    var c' := Append(c, q, t);
    forall p: List
      ensures ListOk(c', p)
    {
      assert ListOk(c, p);
      forall i | 0 <= i < |Get(c', p)|
        ensures BelongsOn(c', Get(c', p)[i], p)
      {
        if i < |Get(c, p)| {
          assert BelongsOn(c, Get(c, p)[i], p);
        }
      }
    }
  }

  lemma {:induction false} LinkPlaced(c: Sched, q: List, t: Tid)
    requires Shaped(c) && BelongsOn(c, t, q)
    requires forall u | u in c.status && u != t :: ThreadOk(c, u)
    ensures Shaped(Append(c, q, t)) && Placed(Append(c, q, t))
  {
    var c' := Append(c, q, t);
    forall u | u in c'.status
      ensures ThreadOk(c', u)
    {
      if u == t {
        assert Get(c', q)[|Get(c, q)|] == t;
      } else {
        assert ThreadOk(c, u);
      }
    }
  }

  /** Changing the status of a thread that is on no list disturbs no list and no other thread. */
  lemma {:induction false} ChangeStatus(c: Sched, t: Tid, s: Status, n: int)
    requires Shaped(c) && t in c.status
    requires forall p :: t !in Get(c, p) && ListOk(c, p)
    requires forall u | u in c.status && u != t :: ThreadOk(c, u)
    ensures var c' := c.(status := c.status[t := s], numActive := n);
            && Shaped(c')
            && (forall p :: t !in Get(c', p) && ListOk(c', p))
            && (forall u | u in c'.status && u != t :: ThreadOk(c', u))
  {
    var c' := c.(status := c.status[t := s], numActive := n);
    forall p: List
      ensures t !in Get(c', p) && ListOk(c', p)
    {
      assert ListOk(c, p);
      forall i | 0 <= i < |Get(c', p)|
        ensures BelongsOn(c', Get(c', p)[i], p)
      {
        assert BelongsOn(c, Get(c, p)[i], p);
      }
    }
    forall u | u in c'.status && u != t
      ensures ThreadOk(c', u)
    {
      assert ThreadOk(c, u);
    }
  }

  /** A sound scheduler mentions a thread only on the list where it belongs. */
  lemma {:induction false} Unlisted(c: Sched, t: Tid)
    requires Shaped(c) && Listed(c) && t in c.status && Home(c, t) == Nowhere
    ensures forall p :: t !in Get(c, p) && ListOk(c, p)
  {
    forall p: List
      ensures t !in Get(c, p) && ListOk(c, p)
    {
      if t in Get(c, p) {
        OnlyAtHome(c, p, t);
      }
      assert ListOk(c, p);
    }
  }

  lemma {:induction false} DetachListed(c: Sched, q: List, i: nat)
    requires Shaped(c) && Listed(c) && i < |Get(c, q)|
    ensures Shaped(Detach(c, q, i))
    ensures forall p :: Get(c, q)[i] !in Get(Detach(c, q, i), p) && ListOk(Detach(c, q, i), p)
  {
    var d, t := Detach(c, q, i), Get(c, q)[i];
    AtHome(c, q, i);
    forall p: List
      ensures t !in Get(d, p) && ListOk(d, p)
    {
      assert ListOk(c, p);
      if p == q {
        forall j | 0 <= j < |Get(d, p)|
          ensures Get(d, p)[j] != t && BelongsOn(d, Get(d, p)[j], p)
        {
          assert BelongsOn(c, Get(c, p)[if j < i then j else j + 1], p);
        }
      } else {
        if t in Get(c, p) {
          OnlyAtHome(c, p, t);
        }
        forall j | 0 <= j < |Get(d, p)|
          ensures BelongsOn(d, Get(d, p)[j], p)
        {
          assert BelongsOn(c, Get(c, p)[j], p);
        }
      }
    }
  }

  lemma {:induction false} DetachPlaced(c: Sched, q: List, i: nat)
    requires Shaped(c) && Placed(c) && i < |Get(c, q)|
    ensures Shaped(Detach(c, q, i))
    ensures forall u | u in c.status && u != Get(c, q)[i] :: ThreadOk(Detach(c, q, i), u)
  {
    var d := Detach(c, q, i);
    forall u | u in c.status && u != Get(c, q)[i]
      ensures ThreadOk(d, u)
    {
      assert ThreadOk(c, u);
      if Home(c, u) == On(q) {
        var j :| 0 <= j < |Get(c, q)| && Get(c, q)[j] == u;
        assert Get(d, q)[if j < i then j else j - 1] == u;
      }
    }
  }

  /** Making a thread active that the lists do not mention. */
  lemma {:induction false} AddActiveSound(c: Sched, t: Tid)
    requires Shaped(c) && t in c.status && !c.status[t].Active? && c.numActive == |ActiveSet(c.status)|
    requires forall p :: t !in Get(c, p) && ListOk(c, p)
    requires forall u | u in c.status && u != t :: ThreadOk(c, u)
    ensures Sound(AddActive(c, t))
  {
    hide ListOk, ThreadOk;
    ChangeStatus(c, t, Active, c.numActive + 1);
    CountUp(c.status, t);
    var c' := c.(status := c.status[t := Active], numActive := c.numActive + 1);
    if t == c.current {
      IdleOk(c', t);
    } else {
      LinkListed(c', RunQueue(c.priority[t]), t);
      LinkPlaced(c', RunQueue(c.priority[t]), t);
    }
  }

  lemma {:induction false} IdleOk(c: Sched, t: Tid)
    requires c.priority.Keys == c.status.Keys && t in c.status && Home(c, t) == Nowhere
    ensures ThreadOk(c, t)
  {
  }

  /** Waking a thread that is on no list keeps everything in its place. */
  lemma {:induction false} ActivateSound(c: Sched, t: Tid)
    requires Sound(c) && t in c.status && !c.status[t].Active? && Home(c, t) == Nowhere
    ensures Sound(AddActive(c, t))
  {
    hide ListOk, ThreadOk, BelongsOn;
    Unlisted(c, t);
    AddActiveSound(c, t);
  }

  /** So does waking a thread that is anywhere on a wait list. */
  lemma {:induction false} UnblockSound(c: Sched, q: List, i: nat)
    requires Sound(c) && i < |Get(c, q)| && !q.RunQueue?
    ensures Get(c, q)[i] in c.status && Sound(Unblock(c, q, i))
  {
    hide ListOk, ThreadOk;
    AtHome(c, q, i);
    DetachListed(c, q, i);
    DetachPlaced(c, q, i);
    AddActiveSound(Detach(c, q, i), Get(c, q)[i]);
  }

  /** The current thread may go to sleep, on a list or on none. */
  lemma {:induction false} SleepOnSound(c: Sched, s: Status, q: List)
    requires Sound(c) && c.status[c.current].Active? && WaitList(s) == On(q)
    ensures Sound(SleepOn(c, s, q))
  {
    hide ListOk, ThreadOk;
    Unlisted(c, c.current);
    ChangeStatus(c, c.current, s, c.numActive - 1);
    CountDown(c.status, c.current, s);
    LinkListed(Doze(c, s), q, c.current);
    LinkPlaced(Doze(c, s), q, c.current);
  }

  lemma {:induction false} DozeSound(c: Sched, s: Status)
    requires Sound(c) && c.status[c.current].Active? && !s.Active? && WaitList(s) == Nowhere
    ensures Sound(Doze(c, s))
  {
    hide ListOk, ThreadOk;
    Unlisted(c, c.current);
    ChangeStatus(c, c.current, s, c.numActive - 1);
    CountDown(c.status, c.current, s);
    IdleOk(Doze(c, s), c.current);
  }

  // ---------------------------------------------------------------- switching threads

  /** The scheduler with no thread on the CPU. */
  function Parked(c: Sched): Sched
  {
    c.(current := NULL)
  }

  /** Once the old thread is queued again, every active thread is on its run queue. */
  lemma {:induction false} RequeueParked(c: Sched)
    requires Sound(c)
    ensures var d := Parked(Requeue(c));
            && d.priority.Keys == d.status.Keys
            && (forall q :: ListOk(d, q))
            && (forall u | u in d.status :: ThreadOk(d, u))
  {
    var d, t := Parked(Requeue(c)), c.current;
    forall q: List
      ensures ListOk(d, q)
    {
      assert ListOk(c, q);
      if t in Get(c, q) {
        OnlyAtHome(c, q, t);
      }
      forall i | 0 <= i < |Get(d, q)|
        ensures BelongsOn(d, Get(d, q)[i], q)
      {
        if i < |Get(c, q)| {
          assert BelongsOn(c, Get(c, q)[i], q);
        }
      }
    }
    forall u | u in d.status
      ensures ThreadOk(d, u)
    {
      assert ThreadOk(c, u);
      if u == t && c.status[t].Active? {
        var q := RunQueue(c.priority[t]);
        assert Get(d, q)[|Get(c, q)|] == t;
      }
    }
  }

  /** A thread at the head of a run queue can be put on the CPU. */
  lemma {:induction false} RunHead(c: Sched, p: nat)
    requires Shaped(c) && p <= MIN_PRIORITY && Get(c, RunQueue(p)) != []
    requires forall q :: ListOk(Parked(c), q)
    requires forall u | u in c.status :: ThreadOk(Parked(c), u)
    requires c.numActive == |ActiveSet(c.status)|
    ensures Sound(RunFirst(c, p))
  {
    var d, q := Parked(c), Get(c, RunQueue(p));
    var t := q[0];
    var c' := RunFirst(c, p);
    assert ListOk(d, RunQueue(p)) && BelongsOn(d, t, RunQueue(p));
    forall r: List
      ensures ListOk(c', r)
    {
      assert ListOk(d, r);
      forall i | 0 <= i < |Get(c', r)|
        ensures BelongsOn(c', Get(c', r)[i], r)
      {
        assert BelongsOn(d, Get(d, r)[if r == RunQueue(p) then i + 1 else i], r);
      }
    }
    forall u | u in c'.status
      ensures ThreadOk(c', u)
    {
      assert ThreadOk(d, u);
      if u != t && Home(c', u) == On(RunQueue(p)) {
        var i :| 0 <= i < |q| && q[i] == u;
        assert q[1..][i - 1] == u;
      }
    }
  }

  /** If any thread is active then, once the old thread is queued again, a run queue of that thread's
      priority or better has a thread. */
  lemma {:induction false} SomeQueued(c: Sched, t: Tid)
    requires Sound(c) && t in c.status && c.status[t].Active?
    ensures FirstQueued(Requeue(c), 0) <= c.priority[t]
  {
    var d := Parked(Requeue(c));
    RequeueParked(c);
    assert ThreadOk(d, t);
  }

  lemma {:induction false} ActiveExists(c: Sched) returns (t: Tid)
    requires Sound(c) && c.numActive != 0
    ensures t in c.status && c.status[t].Active?
  {
    assert ActiveSet(c.status) != {};
    t :| t in ActiveSet(c.status);
  }

  /** Rescheduling keeps everything in its place. */
  lemma {:induction false} RescheduleSound(c: Sched, noSwitch: bool)
    requires Sound(c)
    ensures Sound(Reschedule(c, noSwitch))
  {
    if !noSwitch && c.numActive != 0 {
      var t := ActiveExists(c);
      SomeQueued(c, t);
      RequeueParked(c);
      RunHead(Requeue(c), FirstQueued(Requeue(c), 0));
    }
  }

  /** The thread at the head of the best queue is active and of that queue's priority. */
  lemma {:induction false} HeadOfBest(c: Sched)
    requires Sound(c) && c.numActive != 0
    ensures var p := FirstQueued(Requeue(c), 0);
            && p <= MIN_PRIORITY
            && var t := Get(Requeue(c), RunQueue(p))[0];
               t in c.status && c.status[t].Active? && c.priority[t] == p
  {
    hide Listed, Placed, Distinct, Requeue;
    var t := ActiveExists(c);
    SomeQueued(c, t);
    RequeueParked(c);
    RequeueEffect(c);
    var d := Parked(Requeue(c));
    var p := FirstQueued(Requeue(c), 0);
    assert ListOk(d, RunQueue(p)) && Get(d, RunQueue(p)) == Get(Requeue(c), RunQueue(p));
    assert BelongsOn(d, Get(d, RunQueue(p))[0], RunQueue(p));
  }

  lemma {:induction false} RequeueEffect(c: Sched)
    requires c.current in c.status && c.current in c.priority
    ensures Requeue(c).status == c.status && Requeue(c).priority == c.priority
    ensures forall p: List | !p.RunQueue? :: Get(Requeue(c), p) == Get(c, p)
  {
  }

  lemma {:induction false} RescheduleUnfold(c: Sched)
    requires Shaped(c) && FirstQueued(Requeue(c), 0) <= MIN_PRIORITY && c.numActive != 0
    ensures Reschedule(c, false) == RunFirst(Requeue(c), FirstQueued(Requeue(c), 0))
  {
  }

  /** Rescheduling leaves the CPU with an active thread that no active thread beats, unless switching is
      disabled or no thread is active at all.  So it never fails to find a thread that it counted. */
  lemma {:induction false} RescheduleBest(c: Sched)
    requires Sound(c)
    ensures var c' := Reschedule(c, false);
            && (c.numActive == 0 <==> forall t | t in c.status :: !c.status[t].Active?)
            && (c.numActive != 0 ==> c'.current in c.status && c.status[c'.current].Active?)
            && (c.numActive != 0 ==>
                  forall t | t in c.status && c.status[t].Active? :: c.priority[c'.current] <= c.priority[t])
            && (c.numActive == 0 ==> c' == c)
  {
    hide Listed, Placed;
    NoneActive(c);
    if c.numActive != 0 {
      HeadOfBest(c);
      RescheduleUnfold(c);
      forall t | t in c.status && c.status[t].Active?
        ensures FirstQueued(Requeue(c), 0) <= c.priority[t]
      {
        SomeQueued(c, t);
      }
    }
  }

  lemma {:induction false} NoneActive(c: Sched)
    requires Sound(c)
    ensures c.numActive == 0 <==> forall t | t in c.status :: !c.status[t].Active?
  {
    if c.numActive == 0 {
      assert ActiveSet(c.status) == {};
      assert forall t | t in c.status :: t !in ActiveSet(c.status);
    } else {
      var t := ActiveExists(c);
    }
  }
}
