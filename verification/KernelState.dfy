/** The blocking primitives of the kernel on one CPU, as a state machine over the scheduler.

    Each operation is one region that the kernel runs under its spinlocks: mutexes with direct hand-over,
    semaphores without an upper limit, per-thread events, sleeping and waking, and work queues. */
module KernelState {
  import opened Scheduler

  /** Bit numbers of the events that the kernel itself raises. */
  const EVENT_IPCMSG: Event := 1
  const EVENT_TIMER: Event := 3

  datatype KState = KState(
    sched: Sched,
    noSwitch: bool,
    ret: map<Tid, int>,
    pending: map<Tid, set<Event>>,
    owner: map<nat, Tid>,
    value: map<nat, int>,
    work: map<nat, seq<nat>>)

  // ---------------------------------------------------------------- the invariant

  predicate Wired(k: KState)
  {
    k.ret.Keys == k.pending.Keys == k.sched.status.Keys
  }

  /** A free mutex has no waiters. */
  ghost predicate MutexesOk(k: KState)
    requires Wired(k)
  {
    forall m | m in k.owner :: k.owner[m] == NULL ==> Get(k.sched, MutexWaiters(m)) == []
  }

  /** A semaphore is never negative, and if it has items then nobody waits for them. */
  ghost predicate SemaphoreOk(k: KState, s: nat)
    requires Wired(k) && s in k.value
  {
    k.value[s] >= 0 && (k.value[s] > 0 ==> Get(k.sched, SemaphoreWaiters(s)) == [])
  }

  ghost predicate SemaphoresOk(k: KState)
    requires Wired(k)
  {
    forall s | s in k.value :: SemaphoreOk(k, s)
  }

  /** The amounts that semaphore waiters ask for are not negative. */
  ghost predicate RequestsOk(k: KState)
    requires Wired(k)
  {
    forall t | t in k.ret && k.sched.status[t].SemaphoreSleep? :: k.ret[t] >= 0
  }

  /** No thread sleeps on an event that is already pending. */
  ghost predicate EventsOk(k: KState)
    requires Wired(k)
  {
    forall t | t in k.pending && k.sched.status[t].EventSleep? :: k.pending[t] * k.sched.status[t].mask == {}
  }

  ghost predicate Inv(k: KState)
  {
    Sound(k.sched) && Wired(k) && MutexesOk(k) && SemaphoresOk(k) && RequestsOk(k) && EventsOk(k)
  }

  // ---------------------------------------------------------------- the operations

  /** A thread that has just been created becomes schedulable. */
  function Start(k: KState, t: Tid): KState
    requires Shaped(k.sched) && t in k.sched.status
  {
    k.(sched := AddActive(k.sched, t))
  }

  function MutexAcquire(k: KState, m: nat): KState
    requires Wired(k) && m in k.owner
  {
    if k.owner[m] != NULL then k.(sched := SleepOn(k.sched, MutexSleep(m), MutexWaiters(m)))
    else k.(owner := k.owner[m := k.sched.current])
  }

  /** Hand the mutex over to its first waiter, or free it. */
  function MutexRelease(k: KState, m: nat): KState
    requires Sound(k.sched) && Wired(k) && m in k.owner
  {
    var q := Get(k.sched, MutexWaiters(m));
    if q == [] then k.(owner := k.owner[m := NULL])
    else
      AtHome(k.sched, MutexWaiters(m), 0);
      k.(owner := k.owner[m := q[0]], sched := Unblock(k.sched, MutexWaiters(m), 0))
  }

  /** The items that a request gets out of a positive value; a request of zero takes all. */
  function Share(request: int, value: int): int
  {
    if request != 0 && value > request then request else value
  }

  function Clamp(maxToTake: int): int
  {
    if maxToTake < 0 then 0 else maxToTake
  }

  function SemaphoreWait(k: KState, s: nat, maxToTake: int): KState
    requires Wired(k) && s in k.value
  {
    if k.value[s] > 0 then
      k.(value := k.value[s := k.value[s] - Share(Clamp(maxToTake), k.value[s])])
    else
      k.(ret := k.ret[k.sched.current := Clamp(maxToTake)],
         sched := SleepOn(k.sched, SemaphoreSleep(s), SemaphoreWaiters(s)))
  }

  /** Give the first waiter its share and wake it. */
  function GrantFirst(k: KState, s: nat): KState
    requires Sound(k.sched) && Wired(k) && s in k.value && Get(k.sched, SemaphoreWaiters(s)) != []
  {
    AtHome(k.sched, SemaphoreWaiters(s), 0);
    var t := Get(k.sched, SemaphoreWaiters(s))[0];
    var given := Share(k.ret[t], k.value[s]);
    k.(value := k.value[s := k.value[s] - given],
       ret := k.ret[t := given],
       sched := Unblock(k.sched, SemaphoreWaiters(s), 0))
  }

  /** While there are items and waiters, serve the first waiter. */
  ghost function GrantAll(k: KState, s: nat): KState
    requires Sound(k.sched) && Wired(k) && s in k.value
    decreases |Get(k.sched, SemaphoreWaiters(s))|
  {
    if k.value[s] == 0 || Get(k.sched, SemaphoreWaiters(s)) == [] then k
    else
      GrantFirstSound(k, s);
      GrantAll(GrantFirst(k, s), s)
  }

  ghost function SemaphoreSignal(k: KState, s: nat, amount: int): KState
    requires Sound(k.sched) && Wired(k) && s in k.value
  {
    GrantAll(k.(value := k.value[s := k.value[s] + amount]), s)
  }

  /** Remove a waiter from its semaphore without giving it anything. */
  function ForceWake(k: KState, t: Tid): KState
    requires Sound(k.sched) && Wired(k) && t in k.sched.status && k.sched.status[t].SemaphoreSleep?
  {
    var q := SemaphoreWaiters(k.sched.status[t].sem);
    assert ThreadOk(k.sched, t);
    k.(ret := k.ret[t := 0], sched := Unblock(k.sched, q, IndexOf(Get(k.sched, q), t)))
  }

  function PostEvent(k: KState, t: Tid, mask: set<Event>): KState
    requires Sound(k.sched) && Wired(k) && t in k.sched.status
  {
    if mask == {} then k
    else
      var k' := k.(pending := k.pending[t := k.pending[t] + mask]);
      match k.sched.status[t]
      case EventSleep(waitMask) =>
        if waitMask * mask != {} then k'.(sched := AddActive(k'.sched, t)) else k'
      case SemaphoreSleep(_) =>
        if EVENT_TIMER in mask then ForceWake(k', t) else k'
      case _ => k'
  }

  /** Wait for an event: sleep if none of the mask is pending, otherwise consume those that are. */
  function WaitEvents(k: KState, mask: set<Event>): KState
    requires Wired(k) && k.sched.current in k.pending
  {
    if mask == {} then k
    else if k.pending[k.sched.current] * mask == {} then k.(sched := Doze(k.sched, EventSleep(mask)))
    else TakeEvents(k, mask)
  }

  /** Consume pending events, on waking up or to clear them without waiting. */
  function TakeEvents(k: KState, mask: set<Event>): KState
    requires k.sched.current in k.pending
  {
    k.(pending := k.pending[k.sched.current := k.pending[k.sched.current] - mask])
  }

  /** Take the current thread off the CPU unless it has a message. */
  function Sleep(k: KState, hasMessages: bool): KState
    requires Wired(k)
  {
    if hasMessages then k else k.(sched := SleepOn(k.sched, Sleeping, Sleepers))
  }

  function Wake(k: KState, t: Tid): KState
    requires Sound(k.sched) && Wired(k) && t in k.sched.status
  {
    match k.sched.status[t]
    case Sleeping =>
      assert ThreadOk(k.sched, t);
      k.(sched := Unblock(k.sched, Sleepers, IndexOf(Get(k.sched, Sleepers), t)))
    case SemaphoreSleep(_) => ForceWake(k, t)
    case _ => k
  }

  /** Take the first item of work, or go to sleep until there is some. */
  function GetWork(k: KState, w: nat): KState
    requires Wired(k) && w in k.work
  {
    if k.work[w] != [] then k.(work := k.work[w := k.work[w][1..]])
    else k.(sched := SleepOn(k.sched, QueueSleep(w), WorkSleepers(w)))
  }

  function AddWork(k: KState, w: nat, item: nat): KState
    requires Sound(k.sched) && Wired(k) && w in k.work
  {
    var k' := k.(work := k.work[w := k.work[w] + [item]]);
    if Get(k.sched, WorkSleepers(w)) == [] then k'
    else
      AtHome(k.sched, WorkSleepers(w), 0);
      k'.(sched := Unblock(k.sched, WorkSleepers(w), 0))
  }

  // ---------------------------------------------------------------- what waking and sleeping leave alone

  /** Waking a waiter removes it from its list, makes it active and changes no other wait list and no
      other thread. */
  lemma {:induction false} UnblockEffect(c: Sched, q: List, i: nat)
    requires Shaped(c) && i < |Get(c, q)| && Get(c, q)[i] in c.status && !q.RunQueue?
    ensures var c' := Unblock(c, q, i);
            && c'.status == c.status[Get(c, q)[i] := Active]
            && c'.current == c.current && c'.priority == c.priority
            && Get(c', q) == RemoveAt(Get(c, q), i)
            && (forall p: List | p != q && !p.RunQueue? :: Get(c', p) == Get(c, p))
  {
  }

  lemma {:induction false} AddActiveEffect(c: Sched, t: Tid)
    requires Shaped(c) && t in c.status
    ensures var c' := AddActive(c, t);
            && c'.status == c.status[t := Active]
            && c'.current == c.current && c'.priority == c.priority
            && (forall p: List | !p.RunQueue? :: Get(c', p) == Get(c, p))
  {
  }

  lemma {:induction false} SleepOnEffect(c: Sched, s: Status, q: List)
    requires Shaped(c)
    ensures var c' := SleepOn(c, s, q);
            && c'.status == c.status[c.current := s]
            && c'.current == c.current && c'.priority == c.priority
            && Get(c', q) == Get(c, q) + [c.current]
            && (forall p: List | p != q :: Get(c', p) == Get(c, p))
  {
  }

  lemma {:induction false} RescheduleEffect(c: Sched, noSwitch: bool)
    requires Shaped(c)
    ensures var c' := Reschedule(c, noSwitch);
            && c'.status == c.status && c'.priority == c.priority
            && (forall p: List | !p.RunQueue? :: Get(c', p) == Get(c, p))
  {
    hide Requeue;
    RequeueEffect(c);
  }

  lemma {:induction false} GrantFirstSound(k: KState, s: nat)
    requires Sound(k.sched) && Wired(k) && s in k.value && Get(k.sched, SemaphoreWaiters(s)) != []
    ensures Sound(GrantFirst(k, s).sched) && Wired(GrantFirst(k, s)) && GrantFirst(k, s).value.Keys == k.value.Keys
    ensures |Get(GrantFirst(k, s).sched, SemaphoreWaiters(s))| == |Get(k.sched, SemaphoreWaiters(s))| - 1
  {
    hide Sound;
    FirstAtHome(k.sched, SemaphoreWaiters(s));
    UnblockSound(k.sched, SemaphoreWaiters(s), 0);
    UnblockEffect(k.sched, SemaphoreWaiters(s), 0);
  }

  lemma {:induction false} FirstAtHome(c: Sched, q: List)
    requires Sound(c) && Get(c, q) != []
    ensures Shaped(c) && BelongsOn(c, Get(c, q)[0], q)
  {
    AtHome(c, q, 0);
  }
}
