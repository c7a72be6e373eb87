/** The kernel's threads and blocking primitives as they are kept in memory, updated in place.

    Every method is one region that the kernel runs under its locks.  It is proved to take the pointers and
    counters to those of the next state of the state machine. */
module Kernel {
  import opened Scheduler
  import opened KernelState
  import opened KernelRuns
  import opened ThreadLists

  class Machine {
    // Thread descriptors
    var next: map<Tid, Tid>
    var status: map<Tid, Status>
    var priority: map<Tid, nat>
    var ret: map<Tid, int>
    var pending: map<Tid, set<Event>>
    // List heads and tails
    var head: map<List, Tid>
    var tail: map<List, Tid>
    // Mutexes, semaphores and work queues
    var owner: map<nat, Tid>
    var value: map<nat, int>
    var work: map<nat, seq<nat>>
    // The CPU
    var current: Tid
    var numActive: int
    var noSwitch: bool
    // What the lists hold
    ghost var lists: map<List, seq<Tid>>

    ghost function Pointers(): Links
      reads this`next, this`head, this`tail
    {
      Links(next, head, tail)
    }

    ghost function Core(): Sched
      reads this`status, this`priority, this`lists, this`current, this`numActive
    {
      Sched(status, priority, lists, current, numActive)
    }

    ghost function Abs(): KState
      reads this
    {
      KState(Core(), noSwitch, ret, pending, owner, value, work)
    }

    ghost predicate Linked()
      reads this`next, this`head, this`tail, this`lists, this`status
    {
      Chained(Pointers(), lists) && next.Keys == status.Keys
    }

    ghost predicate Valid()
      reads this
    {
      Inv(Abs()) && Linked()
    }

    /** Boot: the first thread runs, the others have yet to be started, and nothing is held or waited for. */
    constructor (priorities: map<Tid, nat>, first: Tid, mutexes: set<nat>, semaphores: map<nat, nat>, queues: set<nat>)
      requires NULL !in priorities && first in priorities
      requires forall t | t in priorities :: priorities[t] <= MIN_PRIORITY
      ensures Valid() && Initial(Abs())
      ensures priority == priorities && current == first && owner.Keys == mutexes && work.Keys == queues
      ensures value.Keys == semaphores.Keys && forall s | s in semaphores :: value[s] == semaphores[s]
    {
      next := map t | t in priorities :: NULL;
      status := map t | t in priorities :: if t == first then Active else Preinit;
      priority := priorities;
      ret := map t | t in priorities :: 0;
      pending := map t | t in priorities :: {};
      head, tail, lists := map[], map[], map[];
      owner := map m | m in mutexes :: NULL;
      value := map s | s in semaphores :: semaphores[s];
      work := map w | w in queues :: [];
      current, numActive, noSwitch := first, 1, false;
      new;
      hide Inv, Initial;
      BootInitial(Abs());
      InitialInv(Abs());
    }

    /** The head pointer of a list tells whether it is empty, and who is first. */
    lemma {:induction false} HeadKnown(q: List)
      requires Linked()
      ensures Pointer(head, q) != NULL <==> Get(Core(), q) != []
      ensures Pointer(head, q) != NULL ==> Pointer(head, q) == Get(Core(), q)[0]
    {
      Ends(Pointers(), lists, q);
    }

    // -------------------------------------------------------------- lists

    /** Put a thread at the end of a list. */
    method AddToList(q: List, t: Tid)
      requires Linked() && Separate(lists) && OnNoList(lists, t) && t != NULL && t in status
      modifies this`next, this`head, this`tail, this`lists
      ensures Linked() && lists == old(lists)[q := At(old(lists), q) + [t]]
    {
      hide Separate, OnNoList, Chained, At;
      ghost var l := Pointers();
      LinkLastChained(l, lists, q, t);
      Ends(l, lists, q);
      if Pointer(head, q) != NULL {
        next := next[Pointer(tail, q) := t];
      } else {
        head := head[q := t];
      }
      tail := tail[q := t];
      next := next[t := NULL];
      lists := lists[q := At(lists, q) + [t]];
      assert Pointers() == LinkLast(l, q, t);
    }

    /** Find a thread on a list. */
    method Find(q: List, t: Tid) returns (found: bool, prev: Tid)
      requires Linked() && t != NULL
      ensures found == (t in At(lists, q))
      ensures found ==> prev == Before(At(lists, q), IndexOf(At(lists, q), t))
    {
      hide Chained, At;
      ghost var l, i := Pointers(), 0;
      ghost var s := At(lists, q);
      ListAt(l, lists, q);
      var th;
      prev, th := NULL, Pointer(head, q);
      while th != NULL && th != t
        invariant 0 <= i <= |s| && forall j | 0 <= j < i :: s[j] != t
        invariant th == (if i < |s| then s[i] else NULL) && prev == (if i == 0 then NULL else s[i - 1])
        decreases |s| - i
      {
        assert LinkAt(l.next, s, i);
        prev, th, i := th, next[th], i + 1;
      }
      found := th != NULL;
      if i < |s| {
        assert LinkAt(l.next, s, i);
      }
    }

    /** Take a thread off a list, if it is there. */
    method DelFromQueue(q: List, t: Tid) returns (found: bool)
      requires Linked() && Separate(lists) && t != NULL
      modifies this`next, this`head, this`tail, this`lists
      ensures found == (t in At(old(lists), q))
      ensures Linked()
      ensures found ==> lists == old(lists)[q := RemoveAt(At(old(lists), q), IndexOf(At(old(lists), q), t))]
      ensures found ==> Separate(lists) && OnNoList(lists, t)
      ensures !found ==> lists == old(lists)
    {
      hide Separate, OnNoList, Chained, At;
      ghost var l, s := Pointers(), At(lists, q);
      var prev;
      found, prev := Find(q, t);
      if found {
        ghost var i := IndexOf(s, t);
        UnlinkChained(l, lists, q, i);
        if prev == NULL {
          head := head[q := next[t]];
        } else {
          next := next[prev := next[t]];
        }
        if next[t] == NULL {
          tail := tail[q := prev];
        }
        lists := lists[q := RemoveAt(s, i)];
        assert Pointers() == Unlink(l, q, Before(s, i), s[i]);
      }
    }

    /** Take the first thread off a list. */
    method PopFirst(q: List) returns (t: Tid)
      requires Linked() && Separate(lists) && At(lists, q) != []
      modifies this`next, this`head, this`tail, this`lists
      ensures t == At(old(lists), q)[0] && t in status
      ensures Linked() && lists == old(lists)[q := RemoveAt(At(old(lists), q), 0)] && Separate(lists)
              && OnNoList(lists, t)
    {
      hide Separate, OnNoList, Chained, At;
      ghost var l := Pointers();
      UnlinkChained(l, lists, q, 0);
      Ends(l, lists, q);
      t := Pointer(head, q);
      head := head[q := next[t]];
      if next[t] == NULL {
        tail := tail[q := NULL];
      }
      lists := lists[q := RemoveAt(At(lists, q), 0)];
      assert Pointers() == Unlink(l, q, NULL, t);
    }

    // -------------------------------------------------------------- running and sleeping

    /** Make a thread active; it is on no list. */
    method AddActive(t: Tid)
      requires Linked() && Separate(lists) && OnNoList(lists, t) && t != NULL && t in status && t in priority
      requires !status[t].Active?
      modifies this`next, this`head, this`tail, this`lists, this`status, this`numActive
      ensures Linked() && Core() == Scheduler.AddActive(old(Core()), t)
    {
      hide Separate, OnNoList, Chained;
      status := status[t := Active];
      if t != current {
        AddToList(RunQueue(priority[t]), t);
      }
      numActive := numActive + 1;
    }

    /** Take the current thread out of the count of active threads. */
    method RemActive() returns (us: Tid)
      modifies this`numActive
      ensures us == current && numActive == old(numActive) - 1
    {
      numActive := numActive - 1;
      us := current;
    }

    /** Put a thread at the end of a wait list. */
    method Enqueue(q: List, us: Tid)
      requires Linked() && Separate(lists) && OnNoList(lists, us) && us != NULL && us in status
      modifies this`next, this`head, this`tail, this`lists
      ensures Linked() && lists == old(lists)[q := At(old(lists), q) + [us]]
    {
      hide Separate, OnNoList, Chained, At;
      ghost var l := Pointers();
      LinkLastChained(l, lists, q, us);
      Ends(l, lists, q);
      NotOn(lists, q, us);
      next := next[us := NULL];
      if Pointer(tail, q) != NULL {
        next := next[Pointer(tail, q) := us];
      } else {
        head := head[q := us];
      }
      tail := tail[q := us];
      lists := lists[q := At(lists, q) + [us]];
      assert Pointers() == LinkLast(l, q, us);
    }

    /** Put the current thread to sleep at the end of a list. */
    method IntSleep(s: Status, q: List)
      requires Linked() && Separate(lists) && OnNoList(lists, current) && current != NULL && current in status
      modifies this`next, this`head, this`tail, this`lists, this`status, this`numActive
      ensures Linked() && Core() == SleepOn(old(Core()), s, q)
    {
      hide Separate, OnNoList, Chained;
      var us := RemActive();
      status := status[us := s];
      Enqueue(q, us);
    }

    /** The first thread of the best run queue, taken off its queue. */
    method GetRunnable() returns (t: Tid)
      requires Linked() && Separate(lists)
      modifies this`next, this`head, this`tail, this`lists
      ensures var p := FirstQueued(old(Core()), 0);
              if p > MIN_PRIORITY then t == NULL && lists == old(lists)
              else t == Get(old(Core()), RunQueue(p))[0] && Core() == RunFirst(old(Core()), p).(current := current)
      ensures Linked()
    {
      hide Separate, OnNoList, Chained;
      var i := 0;
      while i < MIN_PRIORITY + 1
        invariant 0 <= i <= MIN_PRIORITY + 1
        invariant Linked() && Separate(lists) && Core() == old(Core())
        invariant FirstQueued(Core(), 0) == FirstQueued(Core(), i)
      {
        Ends(Pointers(), lists, RunQueue(i));
        if Pointer(head, RunQueue(i)) != NULL {
          ghost var s := At(lists, RunQueue(i));
          t := PopFirst(RunQueue(i));
          assert RemoveAt(s, 0) == s[1..];
          FreePointer(Pointers(), lists, t, NULL);
          next := next[t := NULL];
          return t;
        }
        i := i + 1;
      }
      return NULL;
    }

    /** Choose the next thread: the old one joins its queue, and the first of the best queue leaves it. */
    method GetNextToRun() returns (chosen: Tid)
      requires Linked() && Sound(Core())
      modifies this`next, this`head, this`tail, this`lists
      ensures Linked()
      ensures noSwitch ==> chosen == current
      ensures !noSwitch ==> (chosen == NULL <==> numActive == 0)
      ensures Core().(current := if chosen == NULL then current else chosen)
              == Scheduler.Reschedule(old(Core()), noSwitch)
    {
      hide Listed, Placed, Separate, OnNoList, Chained;
      ghost var c := Core();
      if noSwitch {
        return current;
      }
      if numActive == 0 {
        return NULL;
      }
      SoundSeparate(c);
      if status[current].Active? {
        IdleOnNoList(c, current);
        AppendSeparate(lists, RunQueue(priority[current]), current);
        AddToList(RunQueue(priority[current]), current);
      }
      assert Core() == Requeue(c);
      HeadOfBest(c);
      RescheduleUnfold(c);
      chosen := GetRunnable();
    }

    /** Switch to the chosen thread, if there is one. */
    method Reschedule()
      requires Valid()
      modifies this`next, this`head, this`tail, this`lists, this`current
      ensures Valid() && Abs() == old(Abs()).(sched := Scheduler.Reschedule(old(Core()), noSwitch))
    {
      hide Inv, Sound, Shaped, Chained, Scheduler.Reschedule;
      ghost var k := Abs();
      assert Inv(k.(sched := Scheduler.Reschedule(k.sched, k.noSwitch))) && Sound(k.sched) by {
        RescheduleKeeps(k);
        InvParts(k);
      }
      var chosen := GetNextToRun();
      if chosen != NULL && chosen != current {
        current := chosen;
      }
      assert Core() == Scheduler.Reschedule(k.sched, k.noSwitch);
    }

    /** Make a thread active that is on no list because it is new or sleeps on an event. */
    method WakeIdle(t: Tid)
      requires Linked() && Sound(Core()) && t in status && WaitList(status[t]) == Nowhere && !status[t].Active?
      modifies this`next, this`head, this`tail, this`lists, this`status, this`numActive
      ensures t in old(Core()).priority && Linked() && Core() == Scheduler.AddActive(old(Core()), t)
    {
      hide Listed, Placed, Linked, Separate, OnNoList;
      SoundSeparate(Core());
      IdleOnNoList(Core(), t);
      AddActive(t);
    }

    /** Make a newly created thread schedulable. */
    method Start(t: Tid)
      requires Valid() && t in status && status[t].Preinit?
      modifies this`next, this`head, this`tail, this`lists, this`status, this`numActive
      ensures Valid() && Abs() == KernelState.Start(old(Abs()), t)
    {
      hide Inv, Sound, Shaped, Linked, Scheduler.AddActive;
      ghost var k := Abs();
      assert Sound(k.sched) && Inv(KernelState.Start(k, t)) by {
        InvParts(k);
        StartKeeps(k, t);
      }
      WakeIdle(t);
    }

    // -------------------------------------------------------------- mutexes

    /** Take the first waiter off a mutex. */
    method PopOwner(q: List) returns (t: Tid)
      requires Linked() && Separate(lists) && At(lists, q) != []
      modifies this`next, this`head, this`tail, this`lists
      ensures t == At(old(lists), q)[0] && t in status
      ensures Linked() && lists == old(lists)[q := RemoveAt(At(old(lists), q), 0)] && Separate(lists)
              && OnNoList(lists, t)
    {
      hide Separate, OnNoList, Chained, At;
      ghost var l := Pointers();
      UnlinkChained(l, lists, q, 0);
      Ends(l, lists, q);
      LastIsTail(l, lists, q, 0);
      t := Pointer(head, q);
      head := head[q := next[t]];
      if Pointer(tail, q) == t {
        tail := tail[q := NULL];
      }
      lists := lists[q := RemoveAt(At(lists, q), 0)];
      assert Pointers() == Unlink(l, q, NULL, t);
    }

    /** Take a mutex, or wait in line for it. */
    method MutexAcquire(m: nat)
      requires Valid() && m in owner && current in status && status[current].Active?
      modifies this`next, this`head, this`tail, this`lists, this`status, this`numActive, this`owner
      ensures Valid() && Abs() == KernelState.MutexAcquire(old(Abs()), m)
    {
      hide Inv, Sound, Shaped, Chained, Separate, OnNoList, SleepOn;
      ghost var k := Abs();
      assert Inv(KernelState.MutexAcquire(k, m)) by {
        InvParts(k);
        LockKeeps(k, m);
      }
      Runs(k);
      if owner[m] != NULL {
        IntSleep(MutexSleep(m), MutexWaiters(m));
      } else {
        owner := owner[m := current];
      }
      assert Abs() == KernelState.MutexAcquire(k, m);
    }

    /** Take the first waiter off a mutex and wake it. */
    method WakeOwner(q: List) returns (t: Tid)
      requires Linked() && Sound(Core()) && Get(Core(), q) != [] && !q.RunQueue?
      modifies this`next, this`head, this`tail, this`lists, this`status, this`numActive
      ensures t == Get(old(Core()), q)[0] && t in old(Core()).priority
      ensures Linked() && Core() == Unblock(old(Core()), q, 0)
    {
      hide Listed, Placed, Chained, Separate, OnNoList;
      SoundSeparate(Core());
      WaiterAwaits(Core(), q, 0);
      t := PopOwner(q);
      if !status[t].Active? {
        AddActive(t);
      }
    }

    /** Hand a mutex over to its first waiter, or free it. */
    method MutexRelease(m: nat)
      requires Valid() && m in owner
      modifies this`next, this`head, this`tail, this`lists, this`status, this`numActive, this`owner
      ensures Valid() && Abs() == KernelState.MutexRelease(old(Abs()), m)
    {
      hide Inv, Sound, Shaped, Linked, Core, Get, Unblock;
      ghost var k := Abs();
      assert Sound(k.sched) && Wired(k) && Inv(KernelState.MutexRelease(k, m)) by {
        InvParts(k);
        UnlockKeeps(k, m);
      }
      HeadKnown(MutexWaiters(m));
      if Pointer(head, MutexWaiters(m)) != NULL {
        owner := owner[m := Pointer(head, MutexWaiters(m))];
        var t := WakeOwner(MutexWaiters(m));
      } else {
        owner := owner[m := NULL];
      }
      assert Abs() == KernelState.MutexRelease(k, m);
    }

    // -------------------------------------------------------------- semaphores

    /** Take the first waiter off a list and wake it. */
    method WakeFirst(q: List) returns (t: Tid)
      requires Linked() && Sound(Core()) && Get(Core(), q) != [] && !q.RunQueue?
      modifies this`next, this`head, this`tail, this`lists, this`status, this`numActive
      ensures t == Get(old(Core()), q)[0] && t in old(Core()).priority
      ensures Linked() && Core() == Unblock(old(Core()), q, 0)
    {
      hide Listed, Placed, Chained, Separate, OnNoList;
      SoundSeparate(Core());
      WaiterAwaits(Core(), q, 0);
      t := PopFirst(q);
      if !status[t].Active? {
        AddActive(t);
      }
    }

    /** Take items, or wait in line for them.  A thread that waits finds what it got in its return status. */
    method SemaphoreWait(s: nat, maxToTake: int) returns (taken: int, waits: bool)
      requires Valid() && s in value && current in status && status[current].Active?
      modifies this`next, this`head, this`tail, this`lists, this`status, this`numActive, this`value, this`ret
      ensures Valid() && Abs() == KernelState.SemaphoreWait(old(Abs()), s, maxToTake)
      ensures waits == (old(value[s]) <= 0)
      ensures !waits ==>
                && taken == (if 0 < maxToTake < old(value[s]) then maxToTake else old(value[s]))
                && value == old(value)[s := old(value[s]) - taken]
      ensures waits ==> value == old(value) && current in ret && ret[current] == if maxToTake < 0 then 0 else maxToTake
    {
      hide Inv, Sound, Shaped, Linked, Separate, OnNoList, SleepOn;
      ghost var k := Abs();
      assert Inv(KernelState.SemaphoreWait(k, s, maxToTake)) by {
        InvParts(k);
        WaitKeeps(k, s, maxToTake);
      }
      var request := if maxToTake < 0 then 0 else maxToTake;
      if value[s] > 0 {
        taken, waits := if request != 0 && value[s] > request then request else value[s], false;
        value := value[s := value[s] - taken];
        assert Abs() == KernelState.SemaphoreWait(k, s, maxToTake);
      } else {
        taken, waits := 0, true;
        JoinLine(s, request);
        assert Abs() == KernelState.SemaphoreWait(k, s, maxToTake);
      }
    }

    /** Wait in line for items. */
    method JoinLine(s: nat, request: int)
      requires Valid() && current in status && status[current].Active?
      modifies this`next, this`head, this`tail, this`lists, this`status, this`numActive, this`ret
      ensures Linked()
      ensures Abs() == old(Abs()).(ret := old(ret)[current := request],
                                   sched := SleepOn(old(Core()), SemaphoreSleep(s), SemaphoreWaiters(s)))
    {
      hide Inv, Sound, Shaped, Linked, Separate, OnNoList, SleepOn;
      Runs(Abs());
      ret := ret[current := request];
      IntSleep(SemaphoreSleep(s), SemaphoreWaiters(s));
    }

    /** Serve the first waiter. */
    method Grant(s: nat)
      requires Linked() && Sound(Core()) && Wired(Abs()) && s in value && Get(Core(), SemaphoreWaiters(s)) != []
      modifies this`next, this`head, this`tail, this`lists, this`status, this`numActive, this`value, this`ret
      ensures Linked() && Abs() == GrantFirst(old(Abs()), s)
    {
      hide Sound, Linked, Core, Unblock, Get, GrantFirst;
      ghost var k := Abs();
      var t := WakeFirst(SemaphoreWaiters(s));
      assert t in k.ret by {
        WaiterAwaits(k.sched, SemaphoreWaiters(s), 0);
      }
      var given := if ret[t] != 0 && value[s] > ret[t] then ret[t] else value[s];
      assert given == Share(k.ret[t], k.value[s]);
      value := value[s := value[s] - given];
      ret := ret[t := given];
      GrantParts(k, s, Abs());
    }

    /** Serve waiters while there are items left. */
    method ServeWaiters(s: nat)
      requires Linked() && Sound(Core()) && Wired(Abs()) && s in value
      modifies this`next, this`head, this`tail, this`lists, this`status, this`numActive, this`value, this`ret
      ensures Linked() && Abs() == GrantAll(old(Abs()), s)
    {
      hide Sound, Chained, GrantFirst, Wired;
      ghost var k, q := Abs(), SemaphoreWaiters(s);
      Ends(Pointers(), lists, q);
      while value[s] != 0 && Pointer(head, SemaphoreWaiters(s)) != NULL
        invariant Linked() && Sound(Core()) && Wired(Abs()) && s in value
        invariant Pointer(head, q) != NULL <==> Get(Core(), q) != []
        invariant GrantAll(Abs(), s) == GrantAll(k, s)
        decreases |Get(Core(), q)|
      {
        GrantFirstSound(Abs(), s);
        Grant(s);
        Ends(Pointers(), lists, q);
      }
    }

    /** Add items and serve waiters. */
    method SemaphoreSignal(s: nat, amount: int)
      requires Valid() && s in value
      modifies this`next, this`head, this`tail, this`lists, this`status, this`numActive, this`value, this`ret
      ensures Linked() && Abs() == KernelState.SemaphoreSignal(old(Abs()), s, amount)
      ensures amount >= 0 ==> Valid()
    {
      hide Inv, Sound, Shaped, Chained, GrantAll;
      ghost var k := Abs();
      assert Sound(k.sched) && Wired(k) && (amount >= 0 ==> Inv(KernelState.SemaphoreSignal(k, s, amount))) by {
        InvParts(k);
        if amount >= 0 {
          SignalKeeps(k, s, amount);
        }
      }
      value := value[s := value[s] + amount];
      ServeWaiters(s);
    }

    /** Take a waiting thread off its semaphore without giving it anything. */
    method UnlinkWaiter(q: List, t: Tid)
      requires Linked() && Separate(lists) && t != NULL && t in At(lists, q)
      modifies this`next, this`head, this`tail, this`lists
      ensures Linked() && Separate(lists) && OnNoList(lists, t)
      ensures lists == old(lists)[q := RemoveAt(At(old(lists), q), IndexOf(At(old(lists), q), t))]
    {
      hide Separate, OnNoList, Chained, At;
      ghost var l, s := Pointers(), At(lists, q);
      ghost var i := IndexOf(s, t);
      UnlinkChained(l, lists, q, i);
      LastIsTail(l, lists, q, i);
      Ends(l, lists, q);
      var prev := NULL;
      if Pointer(head, q) == t {
        head := head[q := next[t]];
      } else {
        prev := FindBefore(q, t);
        next := next[prev := next[t]];
      }
      if Pointer(tail, q) == t {
        tail := tail[q := prev];
      }
      lists := lists[q := RemoveAt(s, i)];
      assert Pointers() == Unlink(l, q, Before(s, i), s[i]);
    }

    /** The thread in front of another on a list, where it is not the first. */
    method FindBefore(q: List, t: Tid) returns (prev: Tid)
      requires Linked() && Separate(lists) && t != NULL && t in At(lists, q) && At(lists, q)[0] != t
      ensures prev != NULL && prev == Before(At(lists, q), IndexOf(At(lists, q), t))
    {
      hide Chained, Separate, At;
      ghost var l, s, i := Pointers(), At(lists, q), 0;
      ListAt(l, lists, q);
      assert LinkAt(l.next, s, 0);
      prev := Pointer(head, q);
      while prev != NULL && next[prev] != t
        invariant 0 <= i < IndexOf(s, t) && prev == s[i] && prev in next
        decreases |s| - i
      {
        assert LinkAt(l.next, s, i) && LinkAt(l.next, s, i + 1);
        prev, i := next[prev], i + 1;
      }
      assert LinkAt(l.next, s, i);
      assert IndexOf(s, t) == i + 1;
    }

    /** Take a waiter off its semaphore and wake it empty-handed. */
    method ForceWake(t: Tid)
      requires Linked() && Sound(Core()) && Wired(Abs()) && t in status && status[t].SemaphoreSleep?
      modifies this`next, this`head, this`tail, this`lists, this`status, this`numActive, this`ret
      ensures Linked() && Abs() == KernelState.ForceWake(old(Abs()), t)
    {
      hide Sound, Linked, Unblock;
      ret := ret[t := 0];
      WakeWaiter(SemaphoreWaiters(status[t].sem), t);
    }

    method WakeWaiter(q: List, t: Tid)
      requires Linked() && Sound(Core()) && t in status && WaitList(status[t]) == On(q)
      modifies this`next, this`head, this`tail, this`lists, this`status, this`numActive
      ensures Shaped(old(Core())) && t in Get(old(Core()), q)
      ensures Linked() && Core() == Unblock(old(Core()), q, IndexOf(Get(old(Core()), q), t))
    {
      hide Listed, Placed, Linked, Separate, OnNoList;
      WaiterListed(Core(), t);
      SoundSeparate(Core());
      UnlinkWaiter(q, t);
      AddActive(t);
    }

    // -------------------------------------------------------------- sleeping and waking

    /** Sleep until woken, unless there is a message. */
    method Sleep(hasMessages: bool)
      requires Valid() && current in status && status[current].Active?
      modifies this`next, this`head, this`tail, this`lists, this`status, this`numActive
      ensures Valid() && Abs() == KernelState.Sleep(old(Abs()), hasMessages)
    {
      hide Inv, Sound, Shaped, Linked, Separate, OnNoList, SleepOn;
      ghost var k := Abs();
      assert Inv(KernelState.Sleep(k, hasMessages)) by {
        InvParts(k);
        SleepKeeps(k, hasMessages);
      }
      if hasMessages {
        return;
      }
      Runs(k);
      SleepNow();
      assert Abs() == KernelState.Sleep(k, hasMessages);
    }

    method SleepNow()
      requires Linked() && Separate(lists) && OnNoList(lists, current) && current != NULL && current in status
      modifies this`next, this`head, this`tail, this`lists, this`status, this`numActive
      ensures Linked() && Core() == SleepOn(old(Core()), Sleeping, Sleepers)
    {
      hide Separate, OnNoList, Chained;
      var us := RemActive();
      status := status[us := Sleeping];
      AddToList(Sleepers, us);
    }

    /** Wake a sleeping thread; a semaphore waiter gets nothing.  Other threads are left alone. */
    method Wake(t: Tid)
      requires Valid() && t in status
      modifies this`next, this`head, this`tail, this`lists, this`status, this`numActive, this`ret
      ensures Valid() && Abs() == KernelState.Wake(old(Abs()), t)
    {
      hide Inv, Sound, Shaped, Linked, KernelState.ForceWake, Unblock;
      ghost var k := Abs();
      assert Sound(k.sched) && Wired(k) && Inv(KernelState.Wake(k, t)) by {
        InvParts(k);
        WakeKeeps(k, t);
      }
      match status[t]
      case Sleeping => WakeSleeper(t);
      case SemaphoreSleep(_) => ForceWake(t);
      case _ =>
    }

    method WakeSleeper(t: Tid)
      requires Linked() && Sound(Core()) && t in status && status[t].Sleeping?
      modifies this`next, this`head, this`tail, this`lists, this`status, this`numActive
      ensures Shaped(old(Core())) && t in Get(old(Core()), Sleepers)
      ensures Linked() && Core() == Unblock(old(Core()), Sleepers, IndexOf(Get(old(Core()), Sleepers), t))
    {
      hide Listed, Placed, Linked, Separate, OnNoList;
      WaiterListed(Core(), t);
      SoundSeparate(Core());
      var found := DelFromQueue(Sleepers, t);
      AddActive(t);
    }

    // -------------------------------------------------------------- events

    /** Raise events on a thread, waking it if it waits for one of them; a timer also ends a semaphore wait. */
    method PostEvent(t: Tid, mask: set<Event>)
      requires Valid() && t in status
      modifies this`next, this`head, this`tail, this`lists, this`status, this`numActive, this`ret, this`pending
      ensures Valid() && Abs() == KernelState.PostEvent(old(Abs()), t, mask)
    {
      hide Inv, Sound, Shaped, Linked, KernelState.ForceWake, Scheduler.AddActive;
      ghost var k := Abs();
      assert Sound(k.sched) && Wired(k) && Inv(KernelState.PostEvent(k, t, mask)) by {
        InvParts(k);
        PostKeeps(k, t, mask);
      }
      if mask != {} {
        Raise(t, mask);
      }
    }

    method Raise(t: Tid, mask: set<Event>)
      requires Linked() && Sound(Core()) && Wired(Abs()) && t in status && mask != {}
      modifies this`next, this`head, this`tail, this`lists, this`status, this`numActive, this`ret, this`pending
      ensures Linked() && Abs() == KernelState.PostEvent(old(Abs()), t, mask)
    {
      hide Sound, Linked, KernelState.ForceWake, Scheduler.AddActive;
      pending := pending[t := pending[t] + mask];
      match status[t]
      case EventSleep(waitMask) =>
        if waitMask * mask != {} {
          WakeIdle(t);
        }
      case SemaphoreSleep(_) =>
        if EVENT_TIMER in mask {
          ForceWake(t);
        }
      case _ =>
    }

    /** Clear pending events without waiting. */
    method ClearEvent(mask: set<Event>)
      requires Valid() && current in pending
      modifies this`pending
      ensures Valid() && Abs() == TakeEvents(old(Abs()), mask)
      ensures pending == old(pending)[current := old(pending[current]) - mask]
    {
      hide Inv, Chained;
      ghost var k := Abs();
      TakeKeeps(k, mask);
      pending := pending[current := pending[current] - mask];
      assert Abs() == TakeEvents(k, mask);
    }

    /** Put the current thread to sleep on no list: its `Next` pointer just points to itself. */
    method SleepOffList(s: Status)
      requires Linked() && OnNoList(lists, current) && current != NULL && current in status
      modifies this`next, this`status, this`numActive
      ensures Linked() && Core() == Doze(old(Core()), s)
    {
      hide Chained, OnNoList;
      FreePointer(Pointers(), lists, current, current);
      var us := RemActive();
      status := status[us := s];
      next := next[us := us];
    }

    /** Consume pending events, or sleep until one is raised. */
    method WaitEvents(mask: set<Event>) returns (events: set<Event>)
      requires Valid() && current in status && status[current].Active? && current in pending
      modifies this`next, this`status, this`numActive, this`pending
      ensures Valid() && Abs() == KernelState.WaitEvents(old(Abs()), mask)
      ensures events == old(pending[current]) * mask
      ensures pending == if events == {} then old(pending) else old(pending)[current := old(pending[current]) - mask]
    {
      hide Inv, Sound, Shaped, Linked, Separate, OnNoList;
      ghost var k := Abs();
      assert Wired(k) && Inv(KernelState.WaitEvents(k, mask)) by {
        InvParts(k);
        AwaitKeeps(k, mask);
      }
      events := pending[current] * mask;
      if mask == {} {
        return;
      }
      if events == {} {
        Runs(k);
        SleepOffList(EventSleep(mask));
      } else {
        pending := pending[current := pending[current] - mask];
      }
      assert Abs() == KernelState.WaitEvents(k, mask);
    }

    // -------------------------------------------------------------- work queues

    /** Take the first item of work, or sleep until there is some. */
    method GetWork(w: nat) returns (got: bool, item: nat)
      requires Valid() && w in work && current in status && status[current].Active?
      modifies this`next, this`head, this`tail, this`lists, this`status, this`numActive, this`work
      ensures Valid() && Abs() == KernelState.GetWork(old(Abs()), w)
      ensures got == (old(work[w]) != []) && (got ==> item == old(work[w])[0])
    {
      hide Inv, Sound, Shaped, Linked, Separate, OnNoList, SleepOn;
      ghost var k := Abs();
      assert Wired(k) && Inv(KernelState.GetWork(k, w)) by {
        InvParts(k);
        GetWorkKeeps(k, w);
      }
      if work[w] != [] {
        got, item := true, work[w][0];
        work := work[w := work[w][1..]];
      } else {
        got, item := false, 0;
        Runs(k);
        IntSleep(QueueSleep(w), WorkSleepers(w));
      }
      assert Abs() == KernelState.GetWork(k, w);
    }

    /** Add an item of work and wake the first thread that waits for one. */
    method AddWork(w: nat, item: nat)
      requires Valid() && w in work
      modifies this`next, this`head, this`tail, this`lists, this`status, this`numActive, this`work
      ensures Valid() && Abs() == KernelState.AddWork(old(Abs()), w, item)
    {
      hide Inv, Sound, Shaped, Linked, Core, Get, Unblock;
      ghost var k := Abs();
      assert Sound(k.sched) && Wired(k) && Inv(KernelState.AddWork(k, w, item)) by {
        InvParts(k);
        AddWorkKeeps(k, w, item);
      }
      work := work[w := work[w] + [item]];
      HeadKnown(WorkSleepers(w));
      if Pointer(head, WorkSleepers(w)) != NULL {
        var t := WakeFirst(WorkSleepers(w));
      }
      assert Abs() == KernelState.AddWork(k, w, item);
    }
  }

  lemma {:induction false} BootInitial(k: KState)
    requires NULL !in k.sched.priority && k.sched.current in k.sched.priority && k.sched.lists == map[]
    requires forall t | t in k.sched.priority :: k.sched.priority[t] <= MIN_PRIORITY
    requires k.ret.Keys == k.pending.Keys == k.sched.status.Keys == k.sched.priority.Keys
    requires forall t | t in k.sched.status :: k.sched.status[t] == if t == k.sched.current then Active else Preinit
    requires k.sched.numActive == 1
    requires forall m | m in k.owner :: k.owner[m] == NULL
    requires forall s | s in k.value :: k.value[s] >= 0
    ensures Initial(k)
  {
  }

  lemma {:induction false} InvParts(k: KState)
    requires Inv(k)
    ensures Sound(k.sched) && Wired(k) && Shaped(k.sched) && k.sched.current in k.sched.status
    ensures k.sched.priority.Keys == k.sched.status.Keys && NULL !in k.sched.status
    ensures Separate(k.sched.lists)
  {
    SoundSeparate(k.sched);
  }

  lemma {:induction false} GrantParts(k: KState, s: nat, k': KState)
    requires Sound(k.sched) && Wired(k) && s in k.value && Get(k.sched, SemaphoreWaiters(s)) != []
    requires var t := Get(k.sched, SemaphoreWaiters(s))[0];
             && t in k.ret && t in k.sched.priority
             && k' == k.(value := k.value[s := k.value[s] - Share(k.ret[t], k.value[s])],
                         ret := k.ret[t := Share(k.ret[t], k.value[s])],
                         sched := Unblock(k.sched, SemaphoreWaiters(s), 0))
    ensures k' == GrantFirst(k, s)
  {
    hide Sound, Unblock;
  }

  /** The running thread is on no list. */
  lemma {:induction false} Runs(k: KState)
    requires Inv(k) && k.sched.current in k.sched.status && k.sched.status[k.sched.current].Active?
    ensures Sound(k.sched) && Separate(k.sched.lists) && OnNoList(k.sched.lists, k.sched.current)
    ensures k.sched.current != NULL && k.sched.priority.Keys == k.sched.status.Keys
  {
    SoundSeparate(k.sched);
    IdleOnNoList(k.sched, k.sched.current);
  }

  /** A thread on a wait list is known, and asleep. */
  lemma {:induction false} WaiterAwaits(c: Sched, q: List, i: nat)
    requires Sound(c) && i < |Get(c, q)| && !q.RunQueue?
    ensures Get(c, q)[i] in c.status && !c.status[Get(c, q)[i]].Active?
    ensures WaitList(c.status[Get(c, q)[i]]) == On(q)
  {
    AtHome(c, q, i);
  }

  lemma {:induction false} LastIsTail(l: Links, lists: Lists, q: List, i: nat)
    requires Chained(l, lists) && Separate(lists) && i < |At(lists, q)| && At(lists, q)[i] in l.next
    ensures Pointer(l.tail, q) == At(lists, q)[i] <==> l.next[At(lists, q)[i]] == NULL
  {
    assert Chain(l, q, At(lists, q));
    ChainEnds(l, q, At(lists, q), i);
  }

  lemma {:induction false} ListAt(l: Links, lists: Lists, q: List)
    requires Chained(l, lists)
    ensures Chain(l, q, At(lists, q))
  {
  }

  lemma {:induction false} NotOn(lists: Lists, q: List, t: Tid)
    requires OnNoList(lists, t)
    ensures t !in At(lists, q)
  {
  }
}
