/** What each wait on a semaphore receives over whole runs: never more than it asked for. */
module SemaphoreShares {
  import opened Scheduler
  import opened KernelState
  import opened KernelRuns
  import opened KernelHistory
  import opened SemaphoreHistory
  import opened KernelEffects

  /** A waiter keeps its request in its return status until it leaves the line. */
  lemma {:induction false} RequestKept(k: KState, op: Op, s: nat, t: Tid)
    requires Inv(k) && Enabled(k, op) && s in k.value && t in Waiters(k, s) && t in Waiters(Apply(k, op), s)
    ensures t in k.ret && t in Apply(k, op).ret && Apply(k, op).ret[t] == k.ret[t]
  {
    hide Inv, Enabled, Apply, Waiters;
    WaiterSleeps(k, s, t);
    OpKeepsInv(k, op);
    WaiterSleeps(Apply(k, op), s, t);
    if op.Signal? {
      SignalKeepsRequest(k, op.sem, op.amount, s, t);
    } else {
      OpExact(k, op);
      StillWaiting(k, op, s, t);
    }
  }

  lemma {:induction false} WaiterSleeps(k: KState, s: nat, t: Tid)
    requires Inv(k) && t in Waiters(k, s)
    ensures t in k.sched.status && k.sched.status[t] == SemaphoreSleep(s) && t in k.ret && t in k.pending
  {
    OnlyAtHome(k.sched, SemaphoreWaiters(s), t);
  }

  /** An operation that leaves the waiter asleep leaves its return status alone. */
  lemma {:induction false} StillWaiting(k: KState, op: Op, s: nat, t: Tid)
    requires Inv(k) && Enabled(k, op) && !op.Signal? && Exact(k, op)
    requires t in k.sched.status && k.sched.status[t] == SemaphoreSleep(s) && t in k.ret
    requires t in Apply(k, op).sched.status && Apply(k, op).sched.status[t] == SemaphoreSleep(s)
    ensures t in Apply(k, op).ret && Apply(k, op).ret[t] == k.ret[t]
  {
    hide Sound, SemaphoresOk, MutexesOk, RequestsOk, EventsOk, Get, Apply;
  }

  lemma {:induction false} SignalKeepsRequest(k: KState, s': nat, amount: int, s: nat, t: Tid)
    requires Inv(k) && Enabled(k, Signal(s', amount)) && t in k.ret && t in Waiters(k, s)
    requires t in Waiters(Apply(k, Signal(s', amount)), s)
    ensures t in Apply(k, Signal(s', amount)).ret && Apply(k, Signal(s', amount)).ret[t] == k.ret[t]
  {
    hide Sound, SemaphoresOk, MutexesOk, RequestsOk, EventsOk, GrantAll, Get;
    var k1 := k.(value := k.value[s' := k.value[s'] + amount]);
    if s == s' {
      UnservedKept(k1, s, t);
    } else {
      ElsewhereWaiting(k, s, s', t);
      OthersKept(k1, s', t);
    }
  }

  lemma {:induction false} ElsewhereWaiting(k: KState, s: nat, s': nat, t: Tid)
    requires Inv(k) && s != s' && t in Waiters(k, s)
    ensures t !in Waiters(k, s')
  {
    hide Inv, Waiters;
    if t in Waiters(k, s') {
      WaiterSleeps(k, s, t);
      WaiterSleeps(k, s', t);
    }
  }

  /** Serving the line changes nothing for those that are still in it. */
  lemma {:induction false} UnservedKept(k: KState, s: nat, t: Tid)
    requires Sound(k.sched) && Wired(k) && s in k.value && t in k.ret && t in Waiters(GrantAll(k, s), s)
    ensures t in GrantAll(k, s).ret && GrantAll(k, s).ret[t] == k.ret[t]
    decreases |Waiters(k, s)|
  {
    hide Sound, GrantFirst, Get;
    if k.value[s] == 0 || Waiters(k, s) == [] {
    } else {
      GrantOne(k, s);
      var k1 := GrantFirst(k, s);
      UnservedKept(k1, s, t);
      SignalServes(k1, s);
      assert t in Waiters(k1, s);
    }
  }

  // ---------------------------------------------------------------- over runs

  /** What a wait asked for; zero stands for everything. */
  function Asked(op: Op): int
    requires op.Wait?
  {
    if op.maxToTake < 0 then 0 else op.maxToTake
  }

  /** The waiter's return status is what it asked for when it blocked. */
  predicate Requested(ops: seq<Op>, k: KState, ticket: nat, t: Tid)
  {
    ticket < |ops| && ops[ticket].Wait? && t in k.ret && k.ret[t] == Asked(ops[ticket])
  }

  lemma {:induction false} RequestsHeld(ks: seq<KState>, ops: seq<Op>, s: nat, n: nat, i: nat)
    requires Run(ks, ops) && n <= |ops| && s in ks[0].value
    ensures s in ks[n].value && |Tickets(ks, ops, s, n)| == |Waiters(ks[n], s)|
    ensures i < |Waiters(ks[n], s)| ==> Requested(ops, ks[n], Tickets(ks, ops, s, n)[i], Waiters(ks[n], s)[i])
  {
    hide StepAt, SignalledTo, ThrownOut, Leave, Blocks, Requested, TicketOf, Waiters;
    TicketsRight(ks, ops, s, n);
    if n > 0 && i < |Waiters(ks[n], s)| {
      TicketsRight(ks, ops, s, n - 1);
      WaitersStepAt(ks, ops, s, n - 1);
      var k, op := ks[n - 1], ops[n - 1];
      var served, out := |SignalledTo(k, op, s)|, ThrownOut(k, op, s);
      var j := Source(|Waiters(k, s)|, served, out, i);
      LeaveSource(Waiters(k, s), served, out, i);
      LeaveSource(Tickets(ks, ops, s, n - 1), served, out, i);
      if i < |Leave(Waiters(k, s), served, out)| {
        RequestsHeld(ks, ops, s, n - 1, j);
        RequestStays(ks, ops, s, n - 1, Tickets(ks, ops, s, n - 1)[j], Waiters(k, s)[j]);
      } else {
        RequestMade(ks, ops, s, n - 1);
      }
    }
  }

  /** Where an element of the line stood before. */
  function Source(length: nat, served: nat, out: int, i: nat): nat
  {
    if 0 <= out < length then (if i < out then i else i + 1)
    else served + i
  }

  lemma {:induction false} LeaveSource(line: seq<nat>, served: nat, out: int, i: nat)
    requires served <= |line|
    ensures |Leave(line, served, out)| == if 0 <= out < |line| then |line| - 1 else |line| - served
    ensures i < |Leave(line, served, out)| ==>
              var j := Source(|line|, served, out, i); j < |line| && Leave(line, served, out)[i] == line[j]
  {
  }

  lemma {:induction false} RequestStays(ks: seq<KState>, ops: seq<Op>, s: nat, n: nat, ticket: nat, t: Tid)
    requires Run(ks, ops) && n < |ops| && s in ks[n].value && Requested(ops, ks[n], ticket, t)
    requires t in Waiters(ks[n], s) && t in Waiters(ks[n + 1], s)
    ensures Requested(ops, ks[n + 1], ticket, t)
  {
    hide Inv, Enabled, Apply, Initial, Waiters;
    assert StepAt(ks, ops, n);
    RequestKept(ks[n], ops[n], s, t);
  }

  lemma {:induction false} RequestMade(ks: seq<KState>, ops: seq<Op>, s: nat, n: nat)
    requires Run(ks, ops) && n < |ops| && Blocks(ks[n], ops[n], s)
    ensures Requested(ops, ks[n + 1], n, ks[n].sched.current)
  {
    hide Inv, Enabled, Apply, Initial, StatusAfter, EventsAfter, Get;
    assert StepAt(ks, ops, n);
    OpExact(ks[n], ops[n]);
  }

  /** Over every run, a wait that asked for some number of items and is served by a signal receives at least one and
      no more than it asked for. */
  lemma {:induction false} ServedShare(ks: seq<KState>, ops: seq<Op>, s: nat, n: nat, i: nat)
    requires Run(ks, ops) && n <= |ops| && s in ks[0].value && i < |SignalLog(ks, ops, s, n)|
    ensures |ServedTickets(ks, ops, s, n)| == |SignalLog(ks, ops, s, n)|
    ensures var ticket, amount := ServedTickets(ks, ops, s, n)[i], SignalLog(ks, ops, s, n)[i].1;
            && ticket < |ops| && ops[ticket].Wait? && amount > 0
            && (ops[ticket].maxToTake > 0 ==> amount <= ops[ticket].maxToTake)
  {
    hide StepAt, SignalledTo, Leave, Blocks, TicketOf, Waiters, Tickets;
    ServedRight(ks, ops, s, n, i);
    if n > 0 {
      ServedRight(ks, ops, s, n - 1, i);
      var before := |SignalLog(ks, ops, s, n - 1)|;
      if i < before {
        ServedShare(ks, ops, s, n - 1, i);
      } else {
        RequestsHeld(ks, ops, s, n - 1, i - before);
        WaitersStepAt(ks, ops, s, n - 1);
        ShareOfOne(ks, ops, s, n - 1, i - before);
      }
    }
  }

  lemma {:induction false} ShareOfOne(ks: seq<KState>, ops: seq<Op>, s: nat, n: nat, j: nat)
    requires Run(ks, ops) && n < |ops| && s in ks[n].value && Sound(ks[n].sched) && Wired(ks[n])
    requires j < |SignalledTo(ks[n], ops[n], s)| <= |Waiters(ks[n], s)| == |Tickets(ks, ops, s, n)|
    requires Requested(ops, ks[n], Tickets(ks, ops, s, n)[j], Waiters(ks[n], s)[j])
    ensures var ticket, amount := Tickets(ks, ops, s, n)[j], SignalledTo(ks[n], ops[n], s)[j].1;
            amount > 0 && (ops[ticket].maxToTake > 0 ==> amount <= ops[ticket].maxToTake)
  {
    hide Sound, Initial, Waiters, Tickets, Served, GrantAll;
    var k, op := ks[n], ops[n];
    assert StepAt(ks, ops, n);
    var k1 := k.(value := k.value[s := k.value[s] + op.amount]);
    SameWaiters(k, k1, s);
    SignalPays(k1, s, j);
    NotNegative(k, s);
    PositivePay(k1, s, j);
  }

  lemma {:induction false} NotNegative(k: KState, s: nat)
    requires Inv(k) && s in k.value
    ensures k.value[s] >= 0 && forall t | t in Waiters(k, s) && t in k.ret :: k.ret[t] >= 0
  {
    hide Waiters, Sound, MutexesOk, EventsOk;
    assert SemaphoreOk(k, s);
    forall t | t in Waiters(k, s) && t in k.ret
      ensures k.ret[t] >= 0
    {
      WaiterSleeps(k, s, t);
    }
  }

  lemma {:induction false} SameWaiters(k: KState, k1: KState, s: nat)
    requires k1.sched == k.sched
    ensures Waiters(k1, s) == Waiters(k, s)
  {
  }

  /** Requests are not negative, so nobody is served with nothing. */
  lemma {:induction false} PositivePay(k: KState, s: nat, j: nat)
    requires Sound(k.sched) && Wired(k) && s in k.value && k.value[s] >= 0 && j < |Served(k, s)|
    requires forall t | t in Waiters(k, s) && t in k.ret :: k.ret[t] >= 0
    ensures Served(k, s)[j].1 > 0
    decreases |Waiters(k, s)|
  {
    hide Sound, GrantFirst, Get;
    GrantOne(k, s);
    var k1 := GrantFirst(k, s);
    var t := Waiters(k, s)[0];
    assert t in Waiters(k, s) && k.ret[t] >= 0;
    if j > 0 {
      forall u | u in Waiters(k1, s) && u in k1.ret
        ensures k1.ret[u] >= 0
      {
        assert u in Waiters(k, s)[1..] && u != t;
      }
      PositivePay(k1, s, j - 1);
    }
  }

  /** And one that need not wait takes at least one and no more than it asked for, or everything. */
  lemma {:induction false} TakenShare(k: KState, s: nat, n: int)
    requires Inv(k) && s in k.value && k.value[s] > 0
    ensures var k' := SemaphoreWait(k, s, n);
            && s in k'.value && 0 <= k'.value[s] < k.value[s]
            && (n > 0 ==> k.value[s] - k'.value[s] <= n) && (n <= 0 ==> k'.value[s] == 0)
            && (0 < n <= k.value[s] ==> k'.value[s] == k.value[s] - n)
  {
    hide Sound, SemaphoresOk, MutexesOk, RequestsOk, EventsOk, SemaphoreWait;
    WaitEffect(k, s, n);
  }
}
