/** Whole runs of the kernel: any interleaving of operations of the running thread, of interrupts and of
    thread switches. */
module KernelRuns {
  import opened Scheduler
  import opened KernelState

  datatype Op =
    | Start(t: Tid)
    | Reschedule
    | Lock(mutex: nat)
    | Unlock(mutex: nat)
    | Wait(sem: nat, maxToTake: int)
    | Signal(sem: nat, amount: int)
    | Post(t: Tid, mask: set<Event>)
    | Await(mask: set<Event>)
    | Take(mask: set<Event>)
    | Sleep(hasMessages: bool)
    | Wake(t: Tid)
    | GetWork(queue: nat)
    | AddWork(queue: nat, item: nat)
    | SetSwitching(disabled: bool)

  /** Operations of the running thread need it to be awake; interrupts may also signal, post, wake and add
      work while it sleeps.  Only the owner releases a mutex, and no one signals a negative amount. */
  ghost predicate Enabled(k: KState, op: Op)
    requires Inv(k)
  {
    var running := k.sched.status[k.sched.current].Active?;
    match op
    case Start(t) => t in k.sched.status && k.sched.status[t].Preinit?
    case Reschedule => true
    case Lock(m) => m in k.owner && running
    case Unlock(m) => m in k.owner && running && k.owner[m] == k.sched.current
    case Wait(s, _) => s in k.value && running
    case Signal(s, n) => s in k.value && n >= 0
    case Post(t, _) => t in k.sched.status
    case Await(_) => running
    case Take(_) => running
    case Sleep(_) => running
    case Wake(t) => t in k.sched.status
    case GetWork(w) => w in k.work && running
    case AddWork(w, _) => w in k.work
    case SetSwitching(_) => true
  }

  ghost function Apply(k: KState, op: Op): KState
    requires Inv(k) && Enabled(k, op)
  {
    match op
    case Start(t) => KernelState.Start(k, t)
    case Reschedule => k.(sched := Scheduler.Reschedule(k.sched, k.noSwitch))
    case Lock(m) => MutexAcquire(k, m)
    case Unlock(m) => MutexRelease(k, m)
    case Wait(s, n) => SemaphoreWait(k, s, n)
    case Signal(s, n) => SemaphoreSignal(k, s, n)
    case Post(t, mask) => PostEvent(k, t, mask)
    case Await(mask) => WaitEvents(k, mask)
    case Take(mask) => TakeEvents(k, mask)
    case Sleep(hasMessages) => KernelState.Sleep(k, hasMessages)
    case Wake(t) => KernelState.Wake(k, t)
    case GetWork(w) => KernelState.GetWork(k, w)
    case AddWork(w, item) => KernelState.AddWork(k, w, item)
    case SetSwitching(disabled) => k.(noSwitch := disabled)
  }

  // ---------------------------------------------------------------- every operation keeps the invariant

  lemma {:induction false} SoundShaped(c: Sched)
    requires Sound(c)
    ensures Shaped(c) && c.current in c.status && c.priority.Keys == c.status.Keys
  {
  }

  lemma {:induction false} StartKeeps(k: KState, t: Tid)
    requires Inv(k) && t in k.sched.status && k.sched.status[t].Preinit?
    ensures Inv(KernelState.Start(k, t))
  {
    hide Sound, Shaped, AddActive;
    SoundShaped(k.sched);
    ActivateSound(k.sched, t);
    AddActiveEffect(k.sched, t);
    SemaphoresCarry(k, KernelState.Start(k, t));
  }

  lemma {:induction false} RescheduleKeeps(k: KState)
    requires Inv(k)
    ensures Inv(k.(sched := Scheduler.Reschedule(k.sched, k.noSwitch)))
  {
    hide Sound, Shaped, Scheduler.Reschedule;
    SoundShaped(k.sched);
    RescheduleSound(k.sched, k.noSwitch);
    RescheduleEffect(k.sched, k.noSwitch);
    SemaphoresCarry(k, k.(sched := Scheduler.Reschedule(k.sched, k.noSwitch)));
  }

  lemma {:induction false} LockKeeps(k: KState, m: nat)
    requires Inv(k) && m in k.owner && k.sched.current in k.sched.status && k.sched.status[k.sched.current].Active?
    ensures Inv(MutexAcquire(k, m))
  {
    hide Sound, Shaped, SleepOn;
    SoundShaped(k.sched);
    if k.owner[m] != NULL {
      SleepOnSound(k.sched, MutexSleep(m), MutexWaiters(m));
      SleepOnEffect(k.sched, MutexSleep(m), MutexWaiters(m));
    }
    SemaphoresCarry(k, MutexAcquire(k, m));
  }

  lemma {:induction false} UnlockKeeps(k: KState, m: nat)
    requires Inv(k) && m in k.owner
    ensures Inv(MutexRelease(k, m))
  {
    hide Sound, Shaped, Unblock;
    SoundShaped(k.sched);
    if Get(k.sched, MutexWaiters(m)) != [] {
      FirstAtHome(k.sched, MutexWaiters(m));
      UnblockSound(k.sched, MutexWaiters(m), 0);
      UnblockEffect(k.sched, MutexWaiters(m), 0);
    }
    SemaphoresCarry(k, MutexRelease(k, m));
  }

  /** Semaphores whose value and wait list do not change stay good. */
  lemma {:induction false} SemaphoresCarry(k: KState, k': KState)
    requires Wired(k) && Wired(k') && SemaphoresOk(k) && k'.value == k.value
    requires forall s | s in k.value :: Get(k'.sched, SemaphoreWaiters(s)) == Get(k.sched, SemaphoreWaiters(s))
    ensures SemaphoresOk(k')
  {
    forall s | s in k'.value
      ensures SemaphoreOk(k', s)
    {
      assert SemaphoreOk(k, s);
    }
  }

  lemma {:induction false} WaitKeeps(k: KState, s: nat, n: int)
    requires Inv(k) && s in k.value && k.sched.current in k.sched.status && k.sched.status[k.sched.current].Active?
    ensures Inv(SemaphoreWait(k, s, n))
  {
    hide Sound, Shaped, SleepOn, SemaphoreOk;
    SoundShaped(k.sched);
    if k.value[s] <= 0 {
      SleepOnSound(k.sched, SemaphoreSleep(s), SemaphoreWaiters(s));
      SleepOnEffect(k.sched, SemaphoreSleep(s), SemaphoreWaiters(s));
    }
    WaitSemaphores(k, s, n);
  }

  lemma {:induction false} WaitSemaphores(k: KState, s: nat, n: int)
    requires Shaped(k.sched) && Wired(k) && SemaphoresOk(k) && s in k.value
    requires Wired(SemaphoreWait(k, s, n))
    ensures SemaphoresOk(SemaphoreWait(k, s, n))
  {
    hide SleepOn;
    SleepOnEffect(k.sched, SemaphoreSleep(s), SemaphoreWaiters(s));
    var k' := SemaphoreWait(k, s, n);
    forall s' | s' in k'.value
      ensures SemaphoreOk(k', s')
    {
      assert SemaphoreOk(k, s') && SemaphoreOk(k, s);
    }
  }

  // Signalling a semaphore: while waiters are being served, their semaphore may hold items.

  ghost predicate InvBut(k: KState, s: nat)
  {
    && Sound(k.sched) && Wired(k) && MutexesOk(k) && RequestsOk(k) && EventsOk(k)
    && s in k.value && k.value[s] >= 0
    && forall r | r in k.value && r != s :: SemaphoreOk(k, r)
  }

  lemma {:induction false} GrantFirstKeeps(k: KState, s: nat)
    requires InvBut(k, s) && Get(k.sched, SemaphoreWaiters(s)) != []
    ensures InvBut(GrantFirst(k, s), s)
  {
    hide Sound, Shaped, Unblock, SemaphoreOk, Get;
    SoundShaped(k.sched);
    FirstAtHome(k.sched, SemaphoreWaiters(s));
    UnblockSound(k.sched, SemaphoreWaiters(s), 0);
    UnblockEffect(k.sched, SemaphoreWaiters(s), 0);
    OtherSemaphores(k, GrantFirst(k, s), s);
  }

  lemma {:induction false} OtherSemaphores(k: KState, k': KState, s: nat)
    requires Wired(k) && Wired(k') && k'.value.Keys == k.value.Keys
    requires forall r | r in k.value && r != s :: SemaphoreOk(k, r)
    requires forall r | r in k.value && r != s ::
               k'.value[r] == k.value[r] && Get(k'.sched, SemaphoreWaiters(r)) == Get(k.sched, SemaphoreWaiters(r))
    ensures forall r | r in k'.value && r != s :: SemaphoreOk(k', r)
  {
    forall r | r in k'.value && r != s
      ensures SemaphoreOk(k', r)
    {
      assert SemaphoreOk(k, r);
    }
  }

  lemma {:induction false} GrantAllKeeps(k: KState, s: nat)
    requires InvBut(k, s)
    ensures Inv(GrantAll(k, s))
    decreases |Get(k.sched, SemaphoreWaiters(s))|
  {
    hide Sound, Shaped, GrantFirst, MutexesOk, RequestsOk, EventsOk;
    if k.value[s] == 0 || Get(k.sched, SemaphoreWaiters(s)) == [] {
      assert SemaphoreOk(k, s);
    } else {
      GrantFirstSound(k, s);
      GrantFirstKeeps(k, s);
      GrantAllKeeps(GrantFirst(k, s), s);
    }
  }

  lemma {:induction false} SignalKeeps(k: KState, s: nat, n: int)
    requires Inv(k) && s in k.value && n >= 0
    ensures Inv(SemaphoreSignal(k, s, n))
  {
    hide Sound, GrantAll;
    var k' := k.(value := k.value[s := k.value[s] + n]);
    assert SemaphoreOk(k, s);
    OtherSemaphores(k, k', s);
    GrantAllKeeps(k', s);
  }

  // Events, sleeping and work

  lemma {:induction false} ForceWakeKeeps(k: KState, t: Tid)
    requires Sound(k.sched) && Wired(k) && MutexesOk(k) && SemaphoresOk(k) && RequestsOk(k) && EventsOk(k)
    requires t in k.sched.status && k.sched.status[t].SemaphoreSleep?
    ensures Inv(ForceWake(k, t))
  {
    hide Shaped, Listed, Placed, Unblock, SemaphoreOk;
    var s := k.sched.status[t].sem;
    var q := SemaphoreWaiters(s);
    WaiterListed(k.sched, t);
    var i := IndexOf(Get(k.sched, q), t);
    UnblockSound(k.sched, q, i);
    UnblockEffect(k.sched, q, i);
    WaiterRemoved(k, ForceWake(k, t), s);
  }

  /** A waiting thread is found on the list that its status names. */
  lemma {:induction false} WaiterListed(c: Sched, t: Tid)
    requires Sound(c) && t in c.status && WaitList(c.status[t]).On?
    ensures Shaped(c) && t in Get(c, WaitList(c.status[t]).list)
  {
    assert ThreadOk(c, t);
  }

  /** A semaphore with a waiter has no items, so it stays good when waiters leave. */
  lemma {:induction false} WaiterRemoved(k: KState, k': KState, s: nat)
    requires Wired(k) && Wired(k') && SemaphoresOk(k) && k'.value == k.value
    requires Get(k.sched, SemaphoreWaiters(s)) != []
    requires forall r: nat | r != s :: Get(k'.sched, SemaphoreWaiters(r)) == Get(k.sched, SemaphoreWaiters(r))
    ensures SemaphoresOk(k')
  {
    forall r | r in k'.value
      ensures SemaphoreOk(k', r)
    {
      assert SemaphoreOk(k, r);
    }
  }

  lemma {:induction false} PostKeeps(k: KState, t: Tid, mask: set<Event>)
    requires Inv(k) && t in k.sched.status
    ensures Inv(PostEvent(k, t, mask))
  {
    hide Shaped, Listed, Placed, AddActive, SemaphoreOk, ForceWake;
    if mask != {} {
      var k' := k.(pending := k.pending[t := k.pending[t] + mask]);
      SemaphoresCarry(k, k');
      match k.sched.status[t]
      case EventSleep(waitMask) =>
        if waitMask * mask != {} {
          PostWakes(k, t, mask);
        }
      case SemaphoreSleep(_) =>
        if EVENT_TIMER in mask {
          ForceWakeKeeps(k', t);
        }
      case _ =>
    }
  }

  /** A thread that sleeps on the event becomes active. */
  lemma {:induction false} PostWakes(k: KState, t: Tid, mask: set<Event>)
    requires Inv(k) && t in k.sched.status && k.sched.status[t].EventSleep?
    ensures Inv(k.(pending := k.pending[t := k.pending[t] + mask], sched := AddActive(k.sched, t)))
  {
    hide Sound, Shaped, AddActive, SemaphoreOk;
    SoundShaped(k.sched);
    ActivateSound(k.sched, t);
    AddActiveEffect(k.sched, t);
    SemaphoresCarry(k, k.(pending := k.pending[t := k.pending[t] + mask], sched := AddActive(k.sched, t)));
  }

  lemma {:induction false} AwaitKeeps(k: KState, mask: set<Event>)
    requires Inv(k) && k.sched.current in k.pending && k.sched.status[k.sched.current].Active?
    ensures Inv(WaitEvents(k, mask))
  {
    if mask == {} {
    } else if k.pending[k.sched.current] * mask == {} {
      AwaitSleeps(k, mask);
    } else {
      TakeKeeps(k, mask);
    }
  }

  lemma {:induction false} AwaitSleeps(k: KState, mask: set<Event>)
    requires Inv(k) && k.sched.current in k.pending && k.sched.status[k.sched.current].Active?
    requires k.pending[k.sched.current] * mask == {}
    ensures Inv(k.(sched := Doze(k.sched, EventSleep(mask))))
  {
    hide Sound, Shaped, SemaphoreOk;
    SoundShaped(k.sched);
    DozeSound(k.sched, EventSleep(mask));
    SemaphoresCarry(k, k.(sched := Doze(k.sched, EventSleep(mask))));
  }

  lemma {:induction false} TakeKeeps(k: KState, mask: set<Event>)
    requires Inv(k) && k.sched.current in k.pending
    ensures Inv(TakeEvents(k, mask))
  {
    hide Sound, SemaphoreOk;
    SemaphoresCarry(k, TakeEvents(k, mask));
  }

  lemma {:induction false} SleepKeeps(k: KState, hasMessages: bool)
    requires Inv(k) && k.sched.current in k.sched.status && k.sched.status[k.sched.current].Active?
    ensures Inv(KernelState.Sleep(k, hasMessages))
  {
    hide Sound, Shaped, SleepOn, SemaphoreOk;
    SoundShaped(k.sched);
    SleepOnSound(k.sched, Sleeping, Sleepers);
    SleepOnEffect(k.sched, Sleeping, Sleepers);
    SemaphoresCarry(k, KernelState.Sleep(k, hasMessages));
  }

  lemma {:induction false} WakeKeeps(k: KState, t: Tid)
    requires Inv(k) && t in k.sched.status
    ensures Inv(KernelState.Wake(k, t))
  {
    hide Shaped, Listed, Placed, Unblock, SemaphoreOk, ForceWake;
    match k.sched.status[t]
    case Sleeping =>
      WaiterListed(k.sched, t);
      var i := IndexOf(Get(k.sched, Sleepers), t);
      UnblockSound(k.sched, Sleepers, i);
      UnblockEffect(k.sched, Sleepers, i);
      SemaphoresCarry(k, KernelState.Wake(k, t));
    case SemaphoreSleep(_) => ForceWakeKeeps(k, t);
    case _ =>
  }

  lemma {:induction false} GetWorkKeeps(k: KState, w: nat)
    requires Inv(k) && w in k.work && k.sched.current in k.sched.status && k.sched.status[k.sched.current].Active?
    ensures Inv(KernelState.GetWork(k, w))
  {
    hide Sound, Shaped, SleepOn, SemaphoreOk, Get;
    SoundShaped(k.sched);
    if k.work[w] == [] {
      SleepOnSound(k.sched, QueueSleep(w), WorkSleepers(w));
      SleepOnEffect(k.sched, QueueSleep(w), WorkSleepers(w));
    }
    SemaphoresCarry(k, KernelState.GetWork(k, w));
  }

  lemma {:induction false} AddWorkKeeps(k: KState, w: nat, item: nat)
    requires Inv(k) && w in k.work
    ensures Inv(KernelState.AddWork(k, w, item))
  {
    hide Sound, Shaped, Unblock, SemaphoreOk;
    SoundShaped(k.sched);
    if Get(k.sched, WorkSleepers(w)) != [] {
      FirstAtHome(k.sched, WorkSleepers(w));
      UnblockSound(k.sched, WorkSleepers(w), 0);
      UnblockEffect(k.sched, WorkSleepers(w), 0);
    }
    SemaphoresCarry(k, KernelState.AddWork(k, w, item));
  }

  /** Every operation keeps the whole invariant. */
  lemma {:induction false} OpKeepsInv(k: KState, op: Op)
    requires Inv(k) && Enabled(k, op)
    ensures Inv(Apply(k, op))
  {
    hide Shaped, Listed, Placed, MutexesOk, SemaphoresOk, RequestsOk, EventsOk;
    SoundShaped(k.sched);
    match op
    case Start(t) => StartKeeps(k, t);
    case Reschedule => RescheduleKeeps(k);
    case Lock(m) => LockKeeps(k, m);
    case Unlock(m) => UnlockKeeps(k, m);
    case Wait(s, n) => WaitKeeps(k, s, n);
    case Signal(s, n) => SignalKeeps(k, s, n);
    case Post(t, mask) => PostKeeps(k, t, mask);
    case Await(mask) => AwaitKeeps(k, mask);
    case Take(mask) => TakeKeeps(k, mask);
    case Sleep(hasMessages) => SleepKeeps(k, hasMessages);
    case Wake(t) => WakeKeeps(k, t);
    case GetWork(w) => GetWorkKeeps(k, w);
    case AddWork(w, item) => AddWorkKeeps(k, w, item);
    case SetSwitching(disabled) => SwitchingKeeps(k, disabled);
  }

  lemma {:induction false} SwitchingKeeps(k: KState, disabled: bool)
    requires Inv(k)
    ensures Inv(k.(noSwitch := disabled))
  {
    hide Sound, SemaphoreOk;
    SemaphoresCarry(k, k.(noSwitch := disabled));
  }

  // ---------------------------------------------------------------- runs

  ghost predicate StepAt(ks: seq<KState>, ops: seq<Op>, n: nat)
    requires |ks| == |ops| + 1 && n < |ops|
  {
    Inv(ks[n]) && Enabled(ks[n], ops[n]) && ks[n + 1] == Apply(ks[n], ops[n])
  }

  ghost predicate Run(ks: seq<KState>, ops: seq<Op>)
  {
    |ks| == |ops| + 1 && Initial(ks[0]) && forall n | 0 <= n < |ops| :: StepAt(ks, ops, n)
  }

  /** Boot: the first thread runs, all others have yet to be started, and nothing is held or waited for. */
  ghost predicate Initial(k: KState)
  {
    && Shaped(k.sched) && Wired(k)
    && (forall t | t in k.sched.status :: k.sched.status[t] == if t == k.sched.current then Active else Preinit)
    && (forall q :: Get(k.sched, q) == [])
    && k.sched.numActive == 1
    && (forall m | m in k.owner :: k.owner[m] == NULL)
    && (forall s | s in k.value :: k.value[s] >= 0)
  }

  lemma {:induction false} InitialInv(k: KState)
    requires Initial(k)
    ensures Inv(k)
  {
    assert ActiveSet(k.sched.status) == {k.sched.current};
    assert forall s | s in k.value :: SemaphoreOk(k, s);
  }

  /** In every state of every run each thread is in exactly one place, the count of active threads is
      right, free mutexes have no waiters, semaphores with items have no waiters, and no thread sleeps on
      an event that is pending. */
  lemma {:induction false} RunInv(ks: seq<KState>, ops: seq<Op>, n: nat)
    requires Run(ks, ops) && n < |ks|
    ensures Inv(ks[n])
  {
    if n == 0 {
      InitialInv(ks[0]);
    } else {
      assert StepAt(ks, ops, n - 1);
      OpKeepsInv(ks[n - 1], ops[n - 1]);
    }
  }

  /** A run goes on with any operation that is enabled in its last state, so the runs are all sequences of
      enabled operations. */
  lemma {:induction false} RunExtends(ks: seq<KState>, ops: seq<Op>)
    requires Run(ks, ops)
    ensures Inv(ks[|ops|])
    ensures forall op | Enabled(ks[|ops|], op) :: Run(ks + [Apply(ks[|ops|], op)], ops + [op])
  {
    hide Inv, Enabled, Apply, Initial;
    RunInv(ks, ops, |ops|);
    forall op | Enabled(ks[|ops|], op)
      ensures Run(ks + [Apply(ks[|ops|], op)], ops + [op])
    {
      var ks', ops' := ks + [Apply(ks[|ops|], op)], ops + [op];
      forall n | 0 <= n < |ops'|
        ensures StepAt(ks', ops', n)
      {
        assert n < |ops| ==> StepAt(ks, ops, n);
      }
    }
  }

  /** What the invariant means for one thread: it is nowhere else than where its status says, and there
      just once. */
  lemma {:induction false} OnePlace(c: Sched, t: Tid, q: List)
    requires Sound(c) && t in c.status
    ensures t in Get(c, q) <==> Home(c, t) == On(q)
    ensures forall i, j | 0 <= i < |Get(c, q)| && 0 <= j < |Get(c, q)| ::
              Get(c, q)[i] == t && Get(c, q)[j] == t ==> i == j
  {
    assert ThreadOk(c, t) && ListOk(c, q);
    if t in Get(c, q) {
      OnlyAtHome(c, q, t);
    }
  }
}
