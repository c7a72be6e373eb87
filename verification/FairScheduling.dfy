/** Round-robin within a priority: a queued thread is never overtaken by others of its own priority. */
module FairScheduling {
  import opened Scheduler
  import opened KernelState
  import opened KernelRuns

  // ---------------------------------------------------------------- run queues only grow between switches

  /** The run queue has lost nothing, and the same thread is running. */
  ghost predicate QueueKept(c: Sched, c': Sched, p: nat)
  {
    c'.current == c.current && Get(c, RunQueue(p)) <= Get(c', RunQueue(p))
  }

  lemma {:induction false} AddActiveQueues(c: Sched, t: Tid, p: nat)
    requires t in c.priority
    ensures QueueKept(c, AddActive(c, t), p)
  {
  }

  lemma {:induction false} UnblockQueues(c: Sched, q: List, i: nat, p: nat)
    requires i < |Get(c, q)| && Get(c, q)[i] in c.priority && !q.RunQueue?
    ensures QueueKept(c, Unblock(c, q, i), p)
  {
    AddActiveQueues(Detach(c, q, i), Get(c, q)[i], p);
  }

  lemma {:induction false} SleepQueues(c: Sched, s: Status, q: List, p: nat)
    requires !q.RunQueue?
    ensures QueueKept(c, SleepOn(c, s, q), p)
  {
  }

  lemma {:induction false} FirstQueues(c: Sched, q: List, p: nat)
    requires Sound(c) && Get(c, q) != [] && !q.RunQueue?
    ensures Get(c, q)[0] in c.priority && QueueKept(c, Unblock(c, q, 0), p)
  {
    hide Listed, Placed, QueueKept, Unblock;
    FirstAtHome(c, q);
    UnblockQueues(c, q, 0, p);
  }

  lemma {:induction false} GrantQueues(k: KState, s: nat, p: nat)
    requires Sound(k.sched) && Wired(k) && s in k.value
    ensures QueueKept(k.sched, GrantAll(k, s).sched, p)
    decreases |Get(k.sched, SemaphoreWaiters(s))|
  {
    hide Sound, Unblock;
    if k.value[s] == 0 || Get(k.sched, SemaphoreWaiters(s)) == [] {
    } else {
      FirstAtHome(k.sched, SemaphoreWaiters(s));
      FirstQueues(k.sched, SemaphoreWaiters(s), p);
      GrantFirstSound(k, s);
      GrantQueues(GrantFirst(k, s), s, p);
    }
  }

  lemma {:induction false} WakeQueues(k: KState, t: Tid, p: nat)
    requires Sound(k.sched) && Wired(k) && t in k.sched.status
    ensures QueueKept(k.sched, KernelState.Wake(k, t).sched, p)
  {
    hide Listed, Placed, Unblock;
    if k.sched.status[t].SemaphoreSleep? || k.sched.status[t].Sleeping? {
      WaiterListed(k.sched, t);
      var q := WaitList(k.sched.status[t]).list;
      UnblockQueues(k.sched, q, IndexOf(Get(k.sched, q), t), p);
    }
  }

  lemma {:induction false} PostQueues(k: KState, t: Tid, mask: set<Event>, p: nat)
    requires Sound(k.sched) && Wired(k) && t in k.sched.status
    ensures QueueKept(k.sched, PostEvent(k, t, mask).sched, p)
  {
    hide Listed, Placed, AddActive, ForceWake;
    if mask != {} {
      var k' := k.(pending := k.pending[t := k.pending[t] + mask]);
      match k.sched.status[t]
      case EventSleep(_) => AddActiveQueues(k.sched, t, p);
      case SemaphoreSleep(_) => WakeQueues(k', t, p);
      case _ =>
    }
  }

  lemma {:induction false} BlockQueues(k: KState, op: Op, p: nat)
    requires Inv(k) && Enabled(k, op) && (op.Lock? || op.Wait? || op.Sleep? || op.GetWork?)
    ensures QueueKept(k.sched, Apply(k, op).sched, p)
  {
    hide Sound, SemaphoresOk, MutexesOk, RequestsOk, EventsOk, SleepOn;
    match op
    case Lock(m) => SleepQueues(k.sched, MutexSleep(m), MutexWaiters(m), p);
    case Wait(s, _) => SleepQueues(k.sched, SemaphoreSleep(s), SemaphoreWaiters(s), p);
    case Sleep(_) => SleepQueues(k.sched, Sleeping, Sleepers, p);
    case GetWork(w) => SleepQueues(k.sched, QueueSleep(w), WorkSleepers(w), p);
  }

  lemma {:induction false} HandOverQueues(k: KState, op: Op, p: nat)
    requires Inv(k) && Enabled(k, op) && (op.Unlock? || op.AddWork?)
    ensures QueueKept(k.sched, Apply(k, op).sched, p)
  {
    hide Sound, SemaphoresOk, MutexesOk, RequestsOk, EventsOk, Unblock;
    match op
    case Unlock(m) => if Get(k.sched, MutexWaiters(m)) != [] { FirstQueues(k.sched, MutexWaiters(m), p); }
    case AddWork(w, _) => if Get(k.sched, WorkSleepers(w)) != [] { FirstQueues(k.sched, WorkSleepers(w), p); }
  }

  lemma {:induction false} PlainQueues(k: KState, op: Op, p: nat)
    requires Inv(k) && Enabled(k, op) && (op.Start? || op.Await? || op.Take? || op.SetSwitching?)
    ensures QueueKept(k.sched, Apply(k, op).sched, p)
  {
    hide Listed, Placed, SemaphoresOk, MutexesOk, RequestsOk, EventsOk, AddActive;
    if op.Start? {
      AddActiveQueues(k.sched, op.t, p);
    }
  }

  /** Between switches, threads only join the run queues, at their ends. */
  lemma {:induction false} QueuesGrow(k: KState, op: Op, p: nat)
    requires Inv(k) && Enabled(k, op) && op != Op.Reschedule
    ensures QueueKept(k.sched, Apply(k, op).sched, p)
  {
    hide Sound, SemaphoresOk, MutexesOk, RequestsOk, EventsOk, GrantAll, PostEvent, KernelState.Wake;
    match op
    case Signal(s, n) => GrantQueues(k.(value := k.value[s := k.value[s] + n]), s, p);
    case Post(t, mask) => PostQueues(k, t, mask, p);
    case Wake(t) => WakeQueues(k, t, p);
    case Start(_) => PlainQueues(k, op, p);
    case Await(_) => PlainQueues(k, op, p);
    case Take(_) => PlainQueues(k, op, p);
    case SetSwitching(_) => PlainQueues(k, op, p);
    case _ => if op.Unlock? || op.AddWork? { HandOverQueues(k, op, p); } else { BlockQueues(k, op, p); }
  }

  // ---------------------------------------------------------------- a switch moves the best queue on

  /** No active thread has a better priority. */
  ghost predicate NoneBetter(c: Sched, p: nat)
  {
    forall t | t in c.status && c.status[t].Active? && t in c.priority :: p <= c.priority[t]
  }

  lemma {:induction false} BestQueue(c: Sched, p: nat)
    requires Sound(c) && p <= MIN_PRIORITY && Get(c, RunQueue(p)) != [] && NoneBetter(c, p)
    ensures c.numActive != 0 && FirstQueued(Requeue(c), 0) == p
  {
    hide Listed, Placed, Requeue;
    FirstAtHome(c, RunQueue(p));
    NoneActive(c);
    HeadOfBest(c);
    SomeQueued(c, Get(c, RunQueue(p))[0]);
  }

  lemma {:induction false} SwitchTurn(c: Sched, p: nat, i: nat)
    requires Sound(c) && p <= MIN_PRIORITY && i < |Get(c, RunQueue(p))| && NoneBetter(c, p)
    ensures var c', t := Scheduler.Reschedule(c, false), Get(c, RunQueue(p))[i];
            if i == 0 then c'.current == t
            else i <= |Get(c', RunQueue(p))| && Get(c', RunQueue(p))[i - 1] == t
  {
    hide Listed, Placed, Scheduler.Reschedule;
    BestQueue(c, p);
    RescheduleUnfold(c);
    assert Get(c, RunQueue(p)) <= Get(Requeue(c), RunQueue(p));
  }

  // ---------------------------------------------------------------- runs

  function Switches(ops: seq<Op>, n: nat, n': nat): nat
    requires n <= n' <= |ops|
  {
    if n == n' then 0 else Switches(ops, n, n' - 1) + if ops[n' - 1] == Op.Reschedule then 1 else 0
  }

  /** Switching is allowed, and no thread better than `p` is active. */
  ghost predicate Undisturbed(k: KState, p: nat)
  {
    !k.noSwitch && NoneBetter(k.sched, p)
  }

  lemma {:induction false} TurnStep(k: KState, op: Op, p: nat, i: nat)
    requires Inv(k) && Enabled(k, op) && p <= MIN_PRIORITY && i < |Get(k.sched, RunQueue(p))|
    requires op == Op.Reschedule ==> Undisturbed(k, p)
    ensures var c', t := Apply(k, op).sched, Get(k.sched, RunQueue(p))[i];
            if op == Op.Reschedule && i == 0 then c'.current == t
            else var j := if op == Op.Reschedule then i - 1 else i;
                 j < |Get(c', RunQueue(p))| && Get(c', RunQueue(p))[j] == t
  {
    hide Listed, Placed, SemaphoresOk, MutexesOk, RequestsOk, EventsOk, Scheduler.Reschedule, Get;
    if op == Op.Reschedule {
      SwitchTurn(k.sched, p, i);
    } else {
      hide Enabled, Apply, Inv;
      QueuesGrow(k, op, p);
    }
  }

  /** As long as no better thread is active at a switch, a thread at position `i` of its run queue has run
      by the time of the next `i + 1` switches; until it runs, each switch takes it one place forward. */
  lemma {:induction false} RunsInTurn(ks: seq<KState>, ops: seq<Op>, n: nat, n': nat, p: nat, i: nat)
    requires Run(ks, ops) && n <= n' <= |ops| && p <= MIN_PRIORITY && i < |Get(ks[n].sched, RunQueue(p))|
    requires forall m | n <= m < n' :: ops[m] == Op.Reschedule ==> Undisturbed(ks[m], p)
    ensures var t := Get(ks[n].sched, RunQueue(p))[i];
            || (exists m | n < m <= n' :: ks[m].sched.current == t)
            || (&& Switches(ops, n, n') <= i
                && i - Switches(ops, n, n') < |Get(ks[n'].sched, RunQueue(p))|
                && Get(ks[n'].sched, RunQueue(p))[i - Switches(ops, n, n')] == t)
  {
    hide Inv, Initial, Enabled, Apply, Get, Undisturbed;
    var t := Get(ks[n].sched, RunQueue(p))[i];
    if n < n' {
      RunsInTurn(ks, ops, n, n' - 1, p, i);
      if !exists m | n < m < n' :: ks[m].sched.current == t {
        assert StepAt(ks, ops, n' - 1);
        TurnStep(ks[n' - 1], ops[n' - 1], p, i - Switches(ops, n, n' - 1));
      }
    }
  }
}
