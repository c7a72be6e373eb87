/** What each operation does to every thread, written out: its status, its pending events and its result.  Together
    with the invariant, which says where a thread with a given status is, this decides every operation. */
module KernelEffects {
  import opened Scheduler
  import opened KernelState
  import opened KernelRuns
  import opened KernelHistory
  import opened SemaphoreHistory

  /** The only thread that an operation other than a signal affects. */
  ghost function Touched(k: KState, op: Op): Tid
    requires Inv(k)
  {
    match op
    case Start(t) => t
    case Unlock(m) => FirstOr(k, MutexWaiters(m))
    case Post(t, _) => t
    case Wake(t) => t
    case AddWork(w, _) => FirstOr(k, WorkSleepers(w))
    case _ => k.sched.current
  }

  function FirstOr(k: KState, q: List): Tid
  {
    if Get(k.sched, q) != [] then Get(k.sched, q)[0] else k.sched.current
  }

  /** The status of that thread afterwards. */
  ghost function StatusAfter(k: KState, op: Op, t: Tid): Status
    requires Inv(k) && Enabled(k, op) && t in k.sched.status
  {
    var now := k.sched.status[t];
    match op
    case Start(_) => Active
    case Lock(m) => if k.owner[m] != NULL then MutexSleep(m) else now
    case Unlock(m) => if Get(k.sched, MutexWaiters(m)) != [] then Active else now
    case Wait(s, _) => if k.value[s] <= 0 then SemaphoreSleep(s) else now
    case Post(_, mask) =>
      if (now.EventSleep? && now.mask * mask != {}) || (now.SemaphoreSleep? && EVENT_TIMER in mask)
      then Active else now
    case Await(mask) => if mask != {} && k.pending[t] * mask == {} then EventSleep(mask) else now
    case Sleep(hasMessages) => if !hasMessages then Sleeping else now
    case Wake(_) => if now.Sleeping? || now.SemaphoreSleep? then Active else now
    case GetWork(w) => if k.work[w] == [] then QueueSleep(w) else now
    case AddWork(w, _) => if Get(k.sched, WorkSleepers(w)) != [] then Active else now
    case _ => now
  }

  /** Its events: a post adds to them, and a clear or a wait takes away what it asks for. */
  ghost function EventsAfter(k: KState, op: Op, t: Tid): set<Event>
    requires Inv(k) && t in k.pending
  {
    match op
    case Post(_, mask) => k.pending[t] + mask
    case Take(mask) => k.pending[t] - mask
    case Await(mask) => k.pending[t] - mask
    case _ => k.pending[t]
  }

  /** What it finds in its return status: what it asked for while it waits on a semaphore, and nothing if it is
      thrown out. */
  ghost function ResultAfter(k: KState, op: Op, t: Tid): int
    requires Inv(k) && Enabled(k, op) && t in k.ret && t in k.sched.status
  {
    match op
    case Wait(s, n) => if k.value[s] > 0 then k.ret[t] else if n < 0 then 0 else n
    case Post(_, mask) => if k.sched.status[t].SemaphoreSleep? && EVENT_TIMER in mask then 0 else k.ret[t]
    case Wake(_) => if k.sched.status[t].SemaphoreSleep? then 0 else k.ret[t]
    case _ => k.ret[t]
  }

  /** The whole effect on threads. */
  ghost predicate Exact(k: KState, op: Op)
    requires Inv(k) && Enabled(k, op)
  {
    var k', t := Apply(k, op), Touched(k, op);
    && t in k.sched.status && t in k.pending && t in k.ret
    && k'.sched.status == k.sched.status[t := StatusAfter(k, op, t)]
    && k'.pending == k.pending[t := EventsAfter(k, op, t)]
    && k'.ret == k.ret[t := ResultAfter(k, op, t)]
    && k'.sched.priority == k.sched.priority && (!op.Reschedule? ==> k'.sched.current == k.sched.current)
    && k'.noSwitch == if op.SetSwitching? then op.disabled else k.noSwitch
  }

  lemma {:induction false} InvShape(k: KState)
    requires Inv(k)
    ensures Shaped(k.sched) && Wired(k) && Sound(k.sched) && k.sched.current in k.sched.status
    ensures k.sched.status.Keys == k.pending.Keys == k.ret.Keys
  {
  }

  lemma {:induction false} LockExact(k: KState, m: nat)
    requires Inv(k) && Enabled(k, Lock(m))
    ensures Exact(k, Lock(m))
  {
    hide Sound, Shaped, SemaphoresOk, MutexesOk, RequestsOk, EventsOk, Get, SleepOn;
    InvShape(k);
    SleepOnEffect(k.sched, MutexSleep(m), MutexWaiters(m));
  }

  lemma {:induction false} WaitExact(k: KState, s: nat, n: int)
    requires Inv(k) && Enabled(k, Wait(s, n))
    ensures Exact(k, Wait(s, n))
  {
    hide Sound, Shaped, SemaphoresOk, MutexesOk, RequestsOk, EventsOk, Get, SleepOn;
    InvShape(k);
    SleepOnEffect(k.sched, SemaphoreSleep(s), SemaphoreWaiters(s));
  }

  lemma {:induction false} LeaveExact(k: KState, op: Op)
    requires Inv(k) && Enabled(k, op) && (op.Sleep? || op.GetWork?)
    ensures Exact(k, op)
  {
    hide Sound, Shaped, SemaphoresOk, MutexesOk, RequestsOk, EventsOk, Get, SleepOn;
    InvShape(k);
    if op.Sleep? {
      SleepOnEffect(k.sched, Sleeping, Sleepers);
    } else {
      SleepOnEffect(k.sched, QueueSleep(op.queue), WorkSleepers(op.queue));
    }
  }

  lemma {:induction false} NothingTaken(a: set<Event>, b: set<Event>)
    requires a * b == {}
    ensures a - b == a
  {
    forall e | e in a
      ensures e !in b
    {
      assert e in b ==> e in a * b;
    }
  }

  /** What a wait for events does to the running thread. */
  lemma {:induction false} AwaitSteps(k: KState, mask: set<Event>)
    requires Wired(k) && k.sched.current in k.pending
    ensures var k', t := WaitEvents(k, mask), k.sched.current;
            var sleeps := mask != {} && k.pending[t] * mask == {};
            && k'.sched.status == (if sleeps then k.sched.status[t := EventSleep(mask)] else k.sched.status)
            && k'.pending == k.pending[t := k.pending[t] - mask] && k'.ret == k.ret && k'.noSwitch == k.noSwitch
            && k'.sched.priority == k.sched.priority && k'.sched.current == k.sched.current
  {
    var t := k.sched.current;
    assert mask == {} ==> k.pending[t] * mask == {};
    if k.pending[t] * mask == {} {
      NothingTaken(k.pending[t], mask);
    }
  }

  lemma {:induction false} AwaitExact(k: KState, mask: set<Event>)
    requires Inv(k) && Enabled(k, Await(mask))
    ensures Exact(k, Await(mask))
  {
    hide Sound, Shaped, SemaphoresOk, MutexesOk, RequestsOk, EventsOk, Get, WaitEvents;
    InvShape(k);
    AwaitSteps(k, mask);
  }

  lemma {:induction false} TakeExact(k: KState, mask: set<Event>)
    requires Inv(k) && Enabled(k, Take(mask))
    ensures Exact(k, Take(mask))
  {
    hide Sound, Shaped, SemaphoresOk, MutexesOk, RequestsOk, EventsOk, Get;
    InvShape(k);
  }

  lemma {:induction false} HandOverExact(k: KState, op: Op)
    requires Inv(k) && Enabled(k, op) && (op.Unlock? || op.AddWork?)
    ensures Exact(k, op)
  {
    hide Sound, Shaped, SemaphoresOk, MutexesOk, RequestsOk, EventsOk, Get, Unblock;
    InvShape(k);
    var q := if op.Unlock? then MutexWaiters(op.mutex) else WorkSleepers(op.queue);
    if Get(k.sched, q) != [] {
      FirstAtHome(k.sched, q);
      UnblockEffect(k.sched, q, 0);
    }
  }

  lemma {:induction false} SwitchExact(k: KState, op: Op)
    requires Inv(k) && Enabled(k, op) && (op.Start? || op.Reschedule? || op.SetSwitching?)
    ensures Exact(k, op)
  {
    hide Sound, Shaped, SemaphoresOk, MutexesOk, RequestsOk, EventsOk, Get, AddActive, Scheduler.Reschedule;
    InvShape(k);
    if op.Start? {
      AddActiveEffect(k.sched, op.t);
    } else if op.Reschedule? {
      RescheduleEffect(k.sched, k.noSwitch);
    }
  }

  lemma {:induction false} ForceWakeExact(k: KState, t: Tid)
    requires Sound(k.sched) && Wired(k) && t in k.sched.status && k.sched.status[t].SemaphoreSleep?
    ensures var k' := ForceWake(k, t);
            && k'.sched.status == k.sched.status[t := Active] && k'.sched.current == k.sched.current
            && k'.sched.priority == k.sched.priority && k'.pending == k.pending && k'.ret == k.ret[t := 0]
            && k'.noSwitch == k.noSwitch
  {
    hide Listed, Placed, Unblock;
    WaiterListed(k.sched, t);
    var q := SemaphoreWaiters(k.sched.status[t].sem);
    UnblockEffect(k.sched, q, IndexOf(Get(k.sched, q), t));
  }

  /** What a post does to the thread. */
  lemma {:induction false} PostSteps(k: KState, t: Tid, mask: set<Event>)
    requires Sound(k.sched) && Wired(k) && t in k.sched.status && mask != {}
    ensures var k', now := PostEvent(k, t, mask), k.sched.status[t];
            var thrown := now.SemaphoreSleep? && EVENT_TIMER in mask;
            var woken := thrown || (now.EventSleep? && now.mask * mask != {});
            && k'.sched.status == (if woken then k.sched.status[t := Active] else k.sched.status)
            && k'.pending == k.pending[t := k.pending[t] + mask]
            && k'.ret == (if thrown then k.ret[t := 0] else k.ret) && k'.noSwitch == k.noSwitch
            && k'.sched.priority == k.sched.priority && k'.sched.current == k.sched.current
  {
    hide Listed, Placed, Get, AddActive, ForceWake;
    var k' := k.(pending := k.pending[t := k.pending[t] + mask]);
    if k.sched.status[t].SemaphoreSleep? {
      ForceWakeExact(k', t);
    } else if k.sched.status[t].EventSleep? {
      AddActiveEffect(k.sched, t);
    }
  }

  lemma {:induction false} PostExact(k: KState, t: Tid, mask: set<Event>)
    requires Inv(k) && Enabled(k, Post(t, mask))
    ensures Exact(k, Post(t, mask))
  {
    hide Sound, Shaped, SemaphoresOk, MutexesOk, RequestsOk, EventsOk, Get, PostEvent;
    InvShape(k);
    if mask == {} {
      assert k.pending[t] + mask == k.pending[t];
      PostNothing(k, t);
    } else {
      PostSteps(k, t, mask);
    }
  }

  lemma {:induction false} PostNothing(k: KState, t: Tid)
    requires Sound(k.sched) && Wired(k) && t in k.sched.status
    ensures PostEvent(k, t, {}) == k
  {
  }

  lemma {:induction false} WakeExact(k: KState, t: Tid)
    requires Inv(k) && Enabled(k, Op.Wake(t))
    ensures Exact(k, Op.Wake(t))
  {
    hide Sound, Shaped, SemaphoresOk, MutexesOk, RequestsOk, EventsOk, Get, Unblock, ForceWake;
    InvShape(k);
    if k.sched.status[t].Sleeping? {
      WaiterListed(k.sched, t);
      UnblockEffect(k.sched, Sleepers, IndexOf(Get(k.sched, Sleepers), t));
    } else if k.sched.status[t].SemaphoreSleep? {
      ForceWakeExact(k, t);
    }
  }

  /** Every operation but a signal, which `SemaphoreHistory` decides, changes just what is written out above. */
  lemma {:induction false} OpExact(k: KState, op: Op)
    requires Inv(k) && Enabled(k, op) && !op.Signal?
    ensures Exact(k, op)
  {
    hide Exact, Inv, Enabled;
    if op.Lock? {
      LockExact(k, op.mutex);
    } else if op.Wait? {
      WaitExact(k, op.sem, op.maxToTake);
    } else if op.Sleep? || op.GetWork? {
      LeaveExact(k, op);
    } else if op.Await? {
      AwaitExact(k, op.mask);
    } else if op.Take? {
      TakeExact(k, op.mask);
    } else if op.Unlock? || op.AddWork? {
      HandOverExact(k, op);
    } else if op.Post? {
      PostExact(k, op.t, op.mask);
    } else if op.Wake? {
      WakeExact(k, op.t);
    } else {
      SwitchExact(k, op);
    }
  }

  // ---------------------------------------------------------------- events stay until they are consumed

  lemma {:induction false} GrantPending(k: KState, s: nat)
    requires Sound(k.sched) && Wired(k) && s in k.value
    ensures GrantAll(k, s).pending == k.pending
    decreases |Waiters(k, s)|
  {
    hide Sound, Unblock;
    if k.value[s] == 0 || Waiters(k, s) == [] {
    } else {
      GrantFirstSound(k, s);
      GrantPending(GrantFirst(k, s), s);
    }
  }

  /** An event is pending after an operation if it was posted, or was pending and was not consumed. */
  ghost predicate PendingAfter(k: KState, op: Op, t: Tid, e: Event)
    requires t in k.pending
  {
    || (op.Post? && op.t == t && e in op.mask)
    || (e in k.pending[t] && !(t == k.sched.current && (op.Take? || op.Await?) && e in op.mask))
  }

  /** The events of every thread after every operation. */
  lemma {:induction false} EventsExact(k: KState, op: Op, t: Tid, e: Event)
    requires Inv(k) && Enabled(k, op) && t in k.pending
    ensures t in Apply(k, op).pending && (e in Apply(k, op).pending[t] <==> PendingAfter(k, op, t, e))
  {
    hide Inv, Enabled, Apply, FirstOr, StatusAfter, ResultAfter;
    if op.Signal? {
      SignalPending(k, op.sem, op.amount, t, e);
    } else {
      OpExact(k, op);
    }
  }

  lemma {:induction false} SignalPending(k: KState, s: nat, n: int, t: Tid, e: Event)
    requires Inv(k) && Enabled(k, Signal(s, n)) && t in k.pending
    ensures Apply(k, Signal(s, n)).pending == k.pending && (e in k.pending[t] <==> PendingAfter(k, Signal(s, n), t, e))
  {
    hide Sound, SemaphoresOk, MutexesOk, RequestsOk, EventsOk, GrantAll;
    GrantPending(k.(value := k.value[s := k.value[s] + n]), s);
  }

  /** The step consumes the event: its thread clears it or waits for it. */
  predicate Consumes(k: KState, op: Op, t: Tid, e: Event)
  {
    t == k.sched.current && (op.Take? || op.Await?) && e in op.mask
  }

  lemma {:induction false} EventStepAt(ks: seq<KState>, ops: seq<Op>, t: Tid, e: Event, n: nat)
    requires Run(ks, ops) && n < |ops| && t in ks[n].pending && e in ks[n].pending[t]
    ensures t in ks[n + 1].pending && (e in ks[n + 1].pending[t] || Consumes(ks[n], ops[n], t, e))
  {
    hide Inv, Enabled, Apply, Initial;
    assert StepAt(ks, ops, n);
    EventsExact(ks[n], ops[n], t, e);
  }

  /** Over every run, an event that is pending stays pending until its thread clears it or waits for it. */
  lemma {:induction false} EventStays(ks: seq<KState>, ops: seq<Op>, t: Tid, e: Event, m: nat, n: nat)
    requires Run(ks, ops) && m <= n <= |ops| && t in ks[m].pending && e in ks[m].pending[t]
    requires forall i | m <= i < n :: !Consumes(ks[i], ops[i], t, e)
    ensures t in ks[n].pending && e in ks[n].pending[t]
  {
    hide StepAt, Initial, Consumes;
    if m < n {
      EventStays(ks, ops, t, e, m, n - 1);
      EventStepAt(ks, ops, t, e, n - 1);
    }
  }

  /** And so it is from its post on. */
  lemma {:induction false} PostStays(ks: seq<KState>, ops: seq<Op>, t: Tid, e: Event, m: nat, n: nat)
    requires Run(ks, ops) && m < n <= |ops| && ops[m].Post? && ops[m].t == t && e in ops[m].mask
    requires forall i | m < i < n :: !Consumes(ks[i], ops[i], t, e)
    ensures t in ks[n].pending && e in ks[n].pending[t]
  {
    hide Inv, Apply, Initial, Consumes, PendingAfter;
    assert StepAt(ks, ops, m);
    assert t in ks[m].pending && PendingAfter(ks[m], ops[m], t, e) by { Posted(ks[m], ops[m], t, e); }
    EventsExact(ks[m], ops[m], t, e);
    EventStays(ks, ops, t, e, m + 1, n);
  }

  lemma {:induction false} Posted(k: KState, op: Op, t: Tid, e: Event)
    requires Inv(k) && Enabled(k, op) && op.Post? && op.t == t && e in op.mask
    ensures t in k.pending && PendingAfter(k, op, t, e)
  {
  }

  // ---------------------------------------------------------------- sleeping and waking

  /** A sleeping thread is on the run queue of its priority after it is woken, or goes on running. */
  lemma {:induction false} WakeRuns(k: KState, t: Tid)
    requires Inv(k) && t in k.sched.status && (k.sched.status[t].Sleeping? || k.sched.status[t].SemaphoreSleep?)
    ensures var c := Apply(k, Op.Wake(t)).sched;
            && t in c.status && c.status[t].Active? && t in c.priority
            && (t != c.current ==> t in Get(c, RunQueue(c.priority[t])))
  {
    hide Listed, SemaphoresOk, MutexesOk, RequestsOk, EventsOk, Unblock, ForceWake, KernelState.Wake;
    OpExact(k, Op.Wake(t));
    OpKeepsInv(k, Op.Wake(t));
    assert ThreadOk(Apply(k, Op.Wake(t)).sched, t);
  }

  /** The running thread goes to sleep, exactly if it has no message. */
  lemma {:induction false} SleepExact(k: KState, hasMessages: bool)
    requires Inv(k) && Enabled(k, Op.Sleep(hasMessages))
    ensures var c := Apply(k, Op.Sleep(hasMessages)).sched;
            && c.current == k.sched.current && c.current in c.status
            && (hasMessages ==> Apply(k, Op.Sleep(hasMessages)) == k && c.status[c.current].Active?)
            && (!hasMessages ==> c.status[c.current].Sleeping? && c.current in Get(c, Sleepers))
  {
    hide Listed, SemaphoresOk, MutexesOk, RequestsOk, EventsOk;
    OpExact(k, Op.Sleep(hasMessages));
    OpKeepsInv(k, Op.Sleep(hasMessages));
    assert ThreadOk(Apply(k, Op.Sleep(hasMessages)).sched, k.sched.current);
  }

  /** While switching is disabled the running thread stays. */
  lemma {:induction false} NoSwitchStays(k: KState)
    requires Inv(k) && k.noSwitch
    ensures Apply(k, Op.Reschedule) == k
  {
  }
}
