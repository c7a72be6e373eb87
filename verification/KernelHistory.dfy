/** What mutexes and semaphores do over whole runs of the kernel: who gets in, in which order, and where
    every item of a semaphore goes. */
module KernelHistory {
  import opened Scheduler
  import opened KernelState
  import opened KernelRuns

  // ---------------------------------------------------------------- which operation touches what

  /** The wait list that an operation may add threads to or remove them from. */
  function Target(k: KState, op: Op): Place
  {
    match op
    case Lock(m) => On(MutexWaiters(m))
    case Unlock(m) => On(MutexWaiters(m))
    case Wait(s, _) => On(SemaphoreWaiters(s))
    case Signal(s, _) => On(SemaphoreWaiters(s))
    case Sleep(_) => On(Sleepers)
    case GetWork(w) => On(WorkSleepers(w))
    case AddWork(w, _) => On(WorkSleepers(w))
    case Wake(t) => if t in k.sched.status then WaitList(k.sched.status[t]) else Nowhere
    case Post(t, mask) =>
      if t in k.sched.status && k.sched.status[t].SemaphoreSleep? && EVENT_TIMER in mask
      then WaitList(k.sched.status[t]) else Nowhere
    case _ => Nowhere
  }

  /** Serving waiters touches no wait list but their own, no mutex and no other semaphore. */
  lemma {:induction false} GrantAllEffect(k: KState, s: nat)
    requires Sound(k.sched) && Wired(k) && s in k.value
    ensures GrantAll(k, s).owner == k.owner && GrantAll(k, s).value.Keys == k.value.Keys
    ensures forall p: List | p != SemaphoreWaiters(s) && !p.RunQueue? :: Get(GrantAll(k, s).sched, p) == Get(k.sched, p)
    ensures forall r | r in k.value && r != s :: GrantAll(k, s).value[r] == k.value[r]
    decreases |Get(k.sched, SemaphoreWaiters(s))|
  {
    hide Sound, Shaped, Unblock;
    if k.value[s] == 0 || Get(k.sched, SemaphoreWaiters(s)) == [] {
    } else {
      SoundShaped(k.sched);
      FirstAtHome(k.sched, SemaphoreWaiters(s));
      UnblockEffect(k.sched, SemaphoreWaiters(s), 0);
      GrantFirstSound(k, s);
      GrantAllEffect(GrantFirst(k, s), s);
    }
  }

  lemma {:induction false} ForceWakeEffect(k: KState, t: Tid)
    requires Sound(k.sched) && Wired(k) && t in k.sched.status && k.sched.status[t].SemaphoreSleep?
    ensures var q := SemaphoreWaiters(k.sched.status[t].sem);
            && t in Get(k.sched, q)
            && ForceWake(k, t).owner == k.owner && ForceWake(k, t).value == k.value
            && Get(ForceWake(k, t).sched, q) == RemoveAt(Get(k.sched, q), IndexOf(Get(k.sched, q), t))
            && (forall p: List | p != q && !p.RunQueue? :: Get(ForceWake(k, t).sched, p) == Get(k.sched, p))
  {
    hide Listed, Placed, Unblock;
    WaiterListed(k.sched, t);
    var q := SemaphoreWaiters(k.sched.status[t].sem);
    UnblockEffect(k.sched, q, IndexOf(Get(k.sched, q), t));
  }

  lemma {:induction false} ReleaseEffect(k: KState, m: nat)
    requires Sound(k.sched) && Wired(k) && m in k.owner
    ensures var k', q := MutexRelease(k, m), Get(k.sched, MutexWaiters(m));
            && k'.owner == k.owner[m := if q == [] then NULL else q[0]]
            && k'.value == k.value
            && Get(k'.sched, MutexWaiters(m)) == (if q == [] then [] else q[1..])
            && (forall p: List | p != MutexWaiters(m) && !p.RunQueue? :: Get(k'.sched, p) == Get(k.sched, p))
  {
    hide Sound, Unblock;
    if Get(k.sched, MutexWaiters(m)) != [] {
      FirstAtHome(k.sched, MutexWaiters(m));
      UnblockEffect(k.sched, MutexWaiters(m), 0);
    }
  }

  lemma {:induction false} AddWorkEffect(k: KState, w: nat, item: nat)
    requires Sound(k.sched) && Wired(k) && w in k.work
    ensures var k' := KernelState.AddWork(k, w, item);
            && k'.owner == k.owner && k'.value == k.value
            && (forall p: List | p != WorkSleepers(w) && !p.RunQueue? :: Get(k'.sched, p) == Get(k.sched, p))
  {
    hide Sound, Unblock;
    if Get(k.sched, WorkSleepers(w)) != [] {
      FirstAtHome(k.sched, WorkSleepers(w));
      UnblockEffect(k.sched, WorkSleepers(w), 0);
    }
  }

  lemma {:induction false} PostEffect(k: KState, t: Tid, mask: set<Event>)
    requires Sound(k.sched) && Wired(k) && t in k.sched.status
    ensures var k' := PostEvent(k, t, mask);
            && k'.owner == k.owner && k'.value == k.value
            && (forall p: List | On(p) != Target(k, Post(t, mask)) && !p.RunQueue? ::
                  Get(k'.sched, p) == Get(k.sched, p))
  {
    hide Listed, Placed, Shaped, AddActive, ForceWake;
    SoundShaped(k.sched);
    var k' := k.(pending := k.pending[t := k.pending[t] + mask]);
    match k.sched.status[t]
    case EventSleep(_) => AddActiveEffect(k.sched, t);
    case SemaphoreSleep(_) => ForceWakeEffect(k', t);
    case _ =>
  }

  lemma {:induction false} WakeEffect(k: KState, t: Tid)
    requires Sound(k.sched) && Wired(k) && t in k.sched.status
    ensures var k' := KernelState.Wake(k, t);
            && k'.owner == k.owner && k'.value == k.value
            && (forall p: List | On(p) != WaitList(k.sched.status[t]) && !p.RunQueue? ::
                  Get(k'.sched, p) == Get(k.sched, p))
  {
    hide Listed, Placed, Shaped, Unblock, ForceWake;
    SoundShaped(k.sched);
    match k.sched.status[t]
    case Sleeping =>
      WaiterListed(k.sched, t);
      UnblockEffect(k.sched, Sleepers, IndexOf(Get(k.sched, Sleepers), t));
    case SemaphoreSleep(_) => ForceWakeEffect(k, t);
    case _ =>
  }

  lemma {:induction false} AcquireEffect(k: KState, m: nat)
    requires Sound(k.sched) && Wired(k) && m in k.owner
    ensures var k' := MutexAcquire(k, m);
            && k'.owner == (if k.owner[m] == NULL then k.owner[m := k.sched.current] else k.owner)
            && k'.value == k.value
            && Get(k'.sched, MutexWaiters(m))
               == Get(k.sched, MutexWaiters(m)) + (if k.owner[m] == NULL then [] else [k.sched.current])
            && (forall p: List | p != MutexWaiters(m) :: Get(k'.sched, p) == Get(k.sched, p))
  {
    hide Listed, Placed, SleepOn;
    SleepOnEffect(k.sched, MutexSleep(m), MutexWaiters(m));
  }

  lemma {:induction false} WaitEffect(k: KState, s: nat, n: int)
    requires Sound(k.sched) && Wired(k) && s in k.value
    ensures var k' := SemaphoreWait(k, s, n);
            && k'.owner == k.owner
            && (k.value[s] <= 0 ==> k'.value == k.value)
            && (k.value[s] > 0 ==>
                  k'.value == k.value[s := if 0 < n < k.value[s] then k.value[s] - n else 0])
            && Get(k'.sched, SemaphoreWaiters(s))
               == Get(k.sched, SemaphoreWaiters(s)) + (if k.value[s] > 0 then [] else [k.sched.current])
            && (forall p: List | p != SemaphoreWaiters(s) :: Get(k'.sched, p) == Get(k.sched, p))
  {
    hide Listed, Placed, SleepOn;
    SleepOnEffect(k.sched, SemaphoreSleep(s), SemaphoreWaiters(s));
  }

  lemma {:induction false} SwitchEffect(k: KState, op: Op)
    requires Inv(k) && Enabled(k, op) && (op.Start? || op.Reschedule? || op.Await? || op.Take? || op.SetSwitching?)
    ensures Apply(k, op).owner == k.owner && Apply(k, op).value == k.value
    ensures forall p: List | !p.RunQueue? :: Get(Apply(k, op).sched, p) == Get(k.sched, p)
  {
    hide Shaped, Listed, Placed, AddActive, Scheduler.Reschedule, SemaphoresOk, MutexesOk, RequestsOk, EventsOk;
    SoundShaped(k.sched);
    match op
    case Start(t) => AddActiveEffect(k.sched, t);
    case Reschedule => RescheduleEffect(k.sched, k.noSwitch);
    case _ =>
  }

  lemma {:induction false} SleepEffect(k: KState, op: Op)
    requires Inv(k) && Enabled(k, op) && (op.Sleep? || op.GetWork?)
    ensures Apply(k, op).owner == k.owner && Apply(k, op).value == k.value
    ensures forall p: List | On(p) != Target(k, op) && !p.RunQueue? :: Get(Apply(k, op).sched, p) == Get(k.sched, p)
  {
    hide Shaped, Listed, Placed, SleepOn, SemaphoresOk, MutexesOk, RequestsOk, EventsOk;
    SoundShaped(k.sched);
    match op
    case Sleep(_) => SleepOnEffect(k.sched, Sleeping, Sleepers);
    case GetWork(w) => SleepOnEffect(k.sched, QueueSleep(w), WorkSleepers(w));
  }

  /** An operation leaves every wait list alone but its target, every mutex but the one it locks or unlocks,
      and every semaphore but the one it waits on or signals. */
  lemma {:induction false} Untouched(k: KState, op: Op)
    requires Inv(k) && Enabled(k, op)
    ensures var k' := Apply(k, op);
            && k'.owner.Keys == k.owner.Keys && k'.value.Keys == k.value.Keys
            && (forall m | m in k.owner && op != Lock(m) && op != Unlock(m) :: k'.owner[m] == k.owner[m])
            && (forall s | s in k.value && On(SemaphoreWaiters(s)) != Target(k, op) :: k'.value[s] == k.value[s])
            && ((op.Post? || op.Wake?) ==> k'.value == k.value)
            && (forall p: List | On(p) != Target(k, op) && !p.RunQueue? :: Get(k'.sched, p) == Get(k.sched, p))
  {
    hide Sound, MutexAcquire, MutexRelease, SemaphoreWait, GrantAll, PostEvent, KernelState.Wake, KernelState.AddWork;
    hide SemaphoresOk, MutexesOk, RequestsOk, EventsOk, Get;
    match op
    case Lock(m) => AcquireEffect(k, m);
    case Unlock(m) => ReleaseEffect(k, m);
    case Wait(s, n) => WaitEffect(k, s, n);
    case Signal(s, n) => SignalEffect(k, s, n);
    case Post(t, mask) => PostEffect(k, t, mask);
    case Wake(t) => WakeEffect(k, t);
    case AddWork(w, item) => AddWorkEffect(k, w, item);
    case Sleep(_) => SleepEffect(k, op);
    case GetWork(_) => SleepEffect(k, op);
    case _ => SwitchEffect(k, op);
  }

  lemma {:induction false} SignalEffect(k: KState, s: nat, n: int)
    requires Sound(k.sched) && Wired(k) && s in k.value
    ensures var k' := SemaphoreSignal(k, s, n);
            && k'.owner == k.owner && k'.value.Keys == k.value.Keys
            && (forall r | r in k.value && r != s :: k'.value[r] == k.value[r])
            && (forall p: List | p != SemaphoreWaiters(s) && !p.RunQueue? :: Get(k'.sched, p) == Get(k.sched, p))
  {
    hide Sound, GrantAll;
    GrantAllEffect(k.(value := k.value[s := k.value[s] + n]), s);
  }

  // ---------------------------------------------------------------- mutexes

  /** The threads that asked for the mutex in the first `n` steps, in order. */
  ghost function Arrivals(ks: seq<KState>, ops: seq<Op>, m: nat, n: nat): seq<Tid>
    requires |ks| == |ops| + 1 && n <= |ops|
  {
    if n == 0 then [] else Arrivals(ks, ops, m, n - 1) + AskedAt(ks[n - 1], ops[n - 1], m)
  }

  /** The threads that became its owner, in order. */
  ghost function Grants(ks: seq<KState>, ops: seq<Op>, m: nat, n: nat): seq<Tid>
    requires |ks| == |ops| + 1 && n <= |ops|
  {
    if n == 0 then [] else Grants(ks, ops, m, n - 1) + GrantedAt(ks[n - 1], ops[n - 1], ks[n], m)
  }

  /** The threads that released it, in order. */
  ghost function Releases(ks: seq<KState>, ops: seq<Op>, m: nat, n: nat): (r: seq<Tid>)
    requires |ks| == |ops| + 1 && n <= |ops|
  {
    if n == 0 then [] else Releases(ks, ops, m, n - 1) + ReleasedAt(ks[n - 1], ops[n - 1], m)
  }

  function AskedAt(k: KState, op: Op, m: nat): seq<Tid>
  {
    if op == Lock(m) then [k.sched.current] else []
  }

  function ReleasedAt(k: KState, op: Op, m: nat): seq<Tid>
  {
    if op == Unlock(m) then [k.sched.current] else []
  }

  /** A thread becomes the owner by a step after which it is the owner, and was not or has just released. */
  function GrantedAt(k: KState, op: Op, k': KState, m: nat): seq<Tid>
  {
    if m in k.owner && m in k'.owner && (k'.owner[m] != k.owner[m] || op == Unlock(m)) then Held(k'.owner[m]) else []
  }

  function Held(owner: Tid): seq<Tid>
  {
    if owner == NULL then [] else [owner]
  }

  lemma {:induction false} LockStep(k: KState, m: nat)
    requires Sound(k.sched) && Wired(k) && MutexesOk(k) && m in k.owner
    ensures var k', w := MutexAcquire(k, m), Get(k.sched, MutexWaiters(m));
            && m in k'.owner
            && w + [k.sched.current] == GrantedAt(k, Lock(m), k', m) + Get(k'.sched, MutexWaiters(m))
            && Held(k.owner[m]) + GrantedAt(k, Lock(m), k', m) == Held(k'.owner[m])
  {
    hide Listed, Placed, MutexAcquire;
    AcquireEffect(k, m);
  }

  lemma {:induction false} UnlockStep(k: KState, m: nat)
    requires Sound(k.sched) && Wired(k) && m in k.owner && k.owner[m] == k.sched.current
    ensures var k', w := MutexRelease(k, m), Get(k.sched, MutexWaiters(m));
            && m in k'.owner
            && w == GrantedAt(k, Unlock(m), k', m) + Get(k'.sched, MutexWaiters(m))
            && GrantedAt(k, Unlock(m), k', m) == Held(k'.owner[m])
            && Held(k.owner[m]) == [k.sched.current]
  {
    hide Listed, Placed, MutexRelease;
    ReleaseEffect(k, m);
    if Get(k.sched, MutexWaiters(m)) != [] {
      FirstAtHome(k.sched, MutexWaiters(m));
    }
  }

  lemma {:induction false} MutexStep(k: KState, op: Op, m: nat)
    requires Inv(k) && Enabled(k, op) && m in k.owner
    ensures var k' := Apply(k, op);
            && m in k'.owner
            && Get(k.sched, MutexWaiters(m)) + AskedAt(k, op, m)
               == GrantedAt(k, op, k', m) + Get(k'.sched, MutexWaiters(m))
            && Held(k.owner[m]) + GrantedAt(k, op, k', m) == ReleasedAt(k, op, m) + Held(k'.owner[m])
  {
    hide Sound, MutexAcquire, MutexRelease, SemaphoresOk, MutexesOk, RequestsOk, EventsOk, Get;
    if op == Lock(m) {
      LockStep(k, m);
    } else if op == Unlock(m) {
      UnlockStep(k, m);
    } else {
      Untouched(k, op);
    }
  }

  lemma {:induction false} MutexStepAt(ks: seq<KState>, ops: seq<Op>, m: nat, n: nat)
    requires |ks| == |ops| + 1 && n < |ops| && StepAt(ks, ops, n) && m in ks[n].owner
    ensures m in ks[n + 1].owner
    ensures Get(ks[n].sched, MutexWaiters(m)) + AskedAt(ks[n], ops[n], m)
            == GrantedAt(ks[n], ops[n], ks[n + 1], m) + Get(ks[n + 1].sched, MutexWaiters(m))
    ensures Held(ks[n].owner[m]) + GrantedAt(ks[n], ops[n], ks[n + 1], m)
            == ReleasedAt(ks[n], ops[n], m) + Held(ks[n + 1].owner[m])
  {
    hide Inv, Apply, GrantedAt;
    MutexStep(ks[n], ops[n], m);
  }

  /** Moving the boundary between what is done and what is left. */
  lemma {:induction false} Shift<T>(all: seq<T>, done: seq<T>, rest: seq<T>, more: seq<T>, next: seq<T>, rest': seq<T>)
    requires all == done + rest && rest + more == next + rest'
    ensures all + more == (done + next) + rest'
  {
    assert all + more == done + (rest + more);
  }

  /** Ownership passes in exact arrival order, and whoever got in has either released or is the owner. */
  lemma {:induction false} MutexOrder(ks: seq<KState>, ops: seq<Op>, m: nat, n: nat)
    requires Run(ks, ops) && n <= |ops| && m in ks[0].owner
    ensures m in ks[n].owner
    ensures Arrivals(ks, ops, m, n) == Grants(ks, ops, m, n) + Get(ks[n].sched, MutexWaiters(m))
    ensures Grants(ks, ops, m, n) == Releases(ks, ops, m, n) + Held(ks[n].owner[m])
  {
    hide StepAt, AskedAt, GrantedAt, ReleasedAt;
    if n == 0 {
    } else {
      MutexOrder(ks, ops, m, n - 1);
      MutexStepAt(ks, ops, m, n - 1);
      var k, k', g := ks[n - 1], ks[n], GrantedAt(ks[n - 1], ops[n - 1], ks[n], m);
      Shift(Arrivals(ks, ops, m, n - 1), Grants(ks, ops, m, n - 1), Get(k.sched, MutexWaiters(m)),
            AskedAt(k, ops[n - 1], m), g, Get(k'.sched, MutexWaiters(m)));
      Shift(Grants(ks, ops, m, n - 1), Releases(ks, ops, m, n - 1), Held(k.owner[m]),
            g, ReleasedAt(k, ops[n - 1], m), Held(k'.owner[m]));
    }
  }

  /** At most one thread is past its acquire and not yet past its release: the owner. */
  lemma {:induction false} MutexExclusion(ks: seq<KState>, ops: seq<Op>, m: nat, n: nat, t: Tid)
    requires Run(ks, ops) && n <= |ops| && m in ks[0].owner
    ensures m in ks[n].owner
    ensures multiset(Grants(ks, ops, m, n))[t]
            == multiset(Releases(ks, ops, m, n))[t] + if t != NULL && t == ks[n].owner[m] then 1 else 0
  {
    MutexOrder(ks, ops, m, n);
    CountHeld(Releases(ks, ops, m, n), ks[n].owner[m], t);
  }

  lemma {:induction false} CountHeld(released: seq<Tid>, owner: Tid, t: Tid)
    ensures multiset(released + Held(owner))[t] == multiset(released)[t] + if t != NULL && t == owner then 1 else 0
  {
    assert multiset(released + Held(owner)) == multiset(released) + multiset(Held(owner));
  }

  lemma {:induction false} ArrivalsGrow(ks: seq<KState>, ops: seq<Op>, m: nat, n: nat, n': nat)
    requires |ks| == |ops| + 1 && n <= n' <= |ops|
    ensures Arrivals(ks, ops, m, n) <= Arrivals(ks, ops, m, n')
  {
    if n < n' {
      ArrivalsGrow(ks, ops, m, n, n' - 1);
    }
  }

  /** A thread with `i` waiters ahead of it owns the mutex after the next `i + 1` releases. */
  lemma {:induction false} MutexTurn(ks: seq<KState>, ops: seq<Op>, m: nat, n: nat, n': nat, i: nat)
    requires Run(ks, ops) && n <= n' <= |ops| && m in ks[0].owner
    requires i < |Get(ks[n].sched, MutexWaiters(m))|
    requires |Releases(ks, ops, m, n')| == |Releases(ks, ops, m, n)| + i + 1
    ensures m in ks[n'].owner && ks[n'].owner[m] == Get(ks[n].sched, MutexWaiters(m))[i]
  {
    MutexOrder(ks, ops, m, n);
    MutexOrder(ks, ops, m, n');
    ArrivalsGrow(ks, ops, m, n, n');
    FreeMutexIdle(ks, ops, m, n);
    FreeMutexIdle(ks, ops, m, n');
    hide Run;
    var at := |Grants(ks, ops, m, n)| + i;
    assert Arrivals(ks, ops, m, n')[at] == Arrivals(ks, ops, m, n)[at] == Get(ks[n].sched, MutexWaiters(m))[i];
  }

  /** In every run a mutex that nobody owns has nobody waiting. */
  lemma {:induction false} FreeMutexIdle(ks: seq<KState>, ops: seq<Op>, m: nat, n: nat)
    requires Run(ks, ops) && n <= |ops| && m in ks[n].owner
    ensures ks[n].owner[m] == NULL ==> Get(ks[n].sched, MutexWaiters(m)) == []
  {
    RunInv(ks, ops, n);
  }
}
