/** Semaphores without an upper limit over whole runs: no item is lost or made up, and signals serve threads
    in the order in which they blocked, whatever waiters are thrown out by a timer or a wake in between. */
module SemaphoreHistory {
  import opened Scheduler
  import opened KernelState
  import opened KernelRuns
  import opened KernelHistory

  // ---------------------------------------------------------------- one signal

  function Total(g: seq<(Tid, int)>): int
  {
    if g == [] then 0 else g[0].1 + Total(g[1..])
  }

  lemma {:induction false} TotalAppend(a: seq<(Tid, int)>, b: seq<(Tid, int)>)
    ensures Total(a + b) == Total(a) + Total(b)
  {
    if a == [] {
      assert a + b == b;
    } else {
      assert (a + b)[1..] == a[1..] + b;
      TotalAppend(a[1..], b);
    }
  }

  function Waiters(k: KState, s: nat): seq<Tid>
  {
    Get(k.sched, SemaphoreWaiters(s))
  }

  /** The waiters that a signal serves, each with what it gets. */
  ghost function Served(k: KState, s: nat): seq<(Tid, int)>
    requires Sound(k.sched) && Wired(k) && s in k.value
    decreases |Waiters(k, s)|
  {
    if k.value[s] == 0 || Waiters(k, s) == [] then []
    else
      GrantFirstSound(k, s);
      FirstAtHome(k.sched, SemaphoreWaiters(s));
      [(Waiters(k, s)[0], Share(k.ret[Waiters(k, s)[0]], k.value[s]))] + Served(GrantFirst(k, s), s)
  }

  /** Serving one waiter. */
  lemma {:induction false} GrantOne(k: KState, s: nat)
    requires Sound(k.sched) && Wired(k) && s in k.value && Waiters(k, s) != []
    ensures Waiters(k, s)[0] in k.ret
    ensures var k', t := GrantFirst(k, s), Waiters(k, s)[0];
            && Sound(k'.sched) && Wired(k') && k'.value.Keys == k.value.Keys
            && Waiters(k', s) == Waiters(k, s)[1..]
            && k'.value[s] == k.value[s] - Share(k.ret[t], k.value[s])
            && k'.ret == k.ret[t := Share(k.ret[t], k.value[s])]
            && t !in Waiters(k, s)[1..]
            && k'.sched.status == k.sched.status[t := Active]
  {
    hide Sound, Unblock;
    FirstAtHome(k.sched, SemaphoreWaiters(s));
    UnblockEffect(k.sched, SemaphoreWaiters(s), 0);
    GrantFirstSound(k, s);
    WaitersDistinct(k.sched, SemaphoreWaiters(s));
  }

  lemma {:induction false} WaitersDistinct(c: Sched, q: List)
    requires Sound(c)
    ensures Distinct(Get(c, q))
  {
    assert ListOk(c, q);
  }

  /** A signal serves a prefix of the waiters and leaves the others in order; it stops only when the items
      or the waiters are used up; and every item that it hands out is taken off the semaphore. */
  lemma {:induction false} SignalServes(k: KState, s: nat)
    requires Sound(k.sched) && Wired(k) && s in k.value
    ensures var k', g := GrantAll(k, s), Served(k, s);
            && s in k'.value && |g| <= |Waiters(k, s)|
            && Waiters(k', s) == Waiters(k, s)[|g|..]
            && (forall i | 0 <= i < |g| :: g[i].0 == Waiters(k, s)[i])
            && (|g| < |Waiters(k, s)| ==> k'.value[s] == 0)
            && k.value[s] == k'.value[s] + Total(g)
    decreases |Waiters(k, s)|
  {
    hide Sound, GrantFirst, Get;
    if k.value[s] == 0 || Waiters(k, s) == [] {
    } else {
      GrantOne(k, s);
      SignalServes(GrantFirst(k, s), s);
      var rest := Served(GrantFirst(k, s), s);
      assert Served(k, s)[1..] == rest;
    }
  }

  /** Each thread served is awake with its amount as its result: its share of what those before it left. */
  lemma {:induction false} SignalPays(k: KState, s: nat, i: nat)
    requires Sound(k.sched) && Wired(k) && s in k.value && i < |Served(k, s)|
    ensures var k', g := GrantAll(k, s), Served(k, s);
            && |g| <= |Waiters(k, s)| && Waiters(k, s)[i] in k.ret && Waiters(k, s)[i] in k'.ret
            && Waiters(k, s)[i] in k'.sched.status && k'.sched.status[Waiters(k, s)[i]].Active?
            && k'.ret[Waiters(k, s)[i]] == g[i].1
            && var asked, left := k.ret[Waiters(k, s)[i]], k.value[s] - Total(g[..i]);
               g[i].1 == if asked == 0 || left <= asked then left else asked
    decreases |Waiters(k, s)|
  {
    hide Sound, GrantFirst, Get;
    GrantOne(k, s);
    var k1 := GrantFirst(k, s);
    var rest := Served(k1, s);
    SignalServes(k, s);
    SignalServes(k1, s);
    assert Served(k, s) == [Served(k, s)[0]] + rest;
    if i == 0 {
      OthersKept(k1, s, Waiters(k, s)[0]);
    } else {
      SignalPays(k1, s, i - 1);
      assert Served(k, s)[..i][1..] == rest[..i - 1];
    }
  }

  /** A thread that does not wait on the semaphore is not affected by serving those that do. */
  lemma {:induction false} OthersKept(k: KState, s: nat, t: Tid)
    requires Sound(k.sched) && Wired(k) && s in k.value && t !in Waiters(k, s) && t in k.ret
    ensures var k' := GrantAll(k, s);
            && t in k'.ret && k'.ret[t] == k.ret[t]
            && t in k'.sched.status && k'.sched.status[t] == k.sched.status[t]
    decreases |Waiters(k, s)|
  {
    hide Sound, GrantFirst, Get;
    if k.value[s] == 0 || Waiters(k, s) == [] {
    } else {
      GrantOne(k, s);
      OthersKept(GrantFirst(k, s), s, t);
    }
  }

  /** A signal of any amount, even a negative one, leaves the semaphore non-negative exactly if the amount
      fits into its value or there is a waiter to absorb it. */
  lemma {:induction false} SignalNonNegative(k: KState, s: nat, amount: int)
    requires Inv(k) && s in k.value
    ensures s in SemaphoreSignal(k, s, amount).value
    ensures SemaphoreSignal(k, s, amount).value[s] >= 0 <==> k.value[s] + amount >= 0 || Waiters(k, s) != []
  {
    hide Sound, GrantFirst, Get;
    var k1 := k.(value := k.value[s := k.value[s] + amount]);
    SignalServes(k1, s);
    if Waiters(k, s) != [] && k1.value[s] != 0 {
      assert SemaphoreOk(k, s);
      GrantOne(k1, s);
      SharesLeft(GrantFirst(k1, s), s);
    }
  }

  /** Serving waiters never turns a non-negative value negative. */
  lemma {:induction false} SharesLeft(k: KState, s: nat)
    requires Sound(k.sched) && Wired(k) && s in k.value && k.value[s] >= 0
    ensures s in GrantAll(k, s).value && GrantAll(k, s).value[s] >= 0
    decreases |Waiters(k, s)|
  {
    hide Sound, GrantFirst, Get;
    if k.value[s] == 0 || Waiters(k, s) == [] {
    } else {
      GrantOne(k, s);
      SharesLeft(GrantFirst(k, s), s);
    }
  }

  // ---------------------------------------------------------------- one operation

  /** Items handed out by an operation: to a thread that need not wait, or to waiters. */
  ghost function GrantedBy(k: KState, op: Op, s: nat): seq<(Tid, int)>
    requires Sound(k.sched) && Wired(k)
  {
    if op.Wait? && op.sem == s && s in k.value && k.value[s] > 0 then
      [(k.sched.current, Share(Clamp(op.maxToTake), k.value[s]))]
    else SignalledTo(k, op, s)
  }

  /** Items handed out to waiters. */
  ghost function SignalledTo(k: KState, op: Op, s: nat): seq<(Tid, int)>
    requires Sound(k.sched) && Wired(k)
  {
    if op.Signal? && op.sem == s && s in k.value then
      Served(k.(value := k.value[s := k.value[s] + op.amount]), s)
    else []
  }

  function AmountOf(op: Op, s: nat): int
  {
    if op.Signal? && op.sem == s then op.amount else 0
  }

  /** The operation makes its thread wait on the semaphore. */
  predicate Blocks(k: KState, op: Op, s: nat)
  {
    op.Wait? && op.sem == s && s in k.value && k.value[s] <= 0
  }

  /** The position of the waiter that an operation throws out, or -1. */
  function ThrownOut(k: KState, op: Op, s: nat): int
  {
    if (op.Post? || op.Wake?) && Target(k, op) == On(SemaphoreWaiters(s)) && op.t in Waiters(k, s)
    then IndexOf(Waiters(k, s), op.t) else -1
  }

  /** Whatever is lined up with the waiters, after the first ones have been served or one is thrown out. */
  function Leave(line: seq<nat>, served: nat, out: int): seq<nat>
  {
    if 0 <= out < |line| then RemoveAt(line, out)
    else if served <= |line| then line[served..]
    else []
  }

  /** An operation moves the line of waiters on, and may put its own thread at the end. */
  lemma {:induction false} WaitersStep(k: KState, op: Op, s: nat)
    requires Inv(k) && Enabled(k, op) && s in k.value
    ensures s in Apply(k, op).value
    ensures |SignalledTo(k, op, s)| <= |Waiters(k, s)|
    ensures forall i | 0 <= i < |SignalledTo(k, op, s)| :: SignalledTo(k, op, s)[i].0 == Waiters(k, s)[i]
    ensures Waiters(Apply(k, op), s)
            == Leave(Waiters(k, s), |SignalledTo(k, op, s)|, ThrownOut(k, op, s))
               + (if Blocks(k, op, s) then [k.sched.current] else [])
  {
    hide Sound, SemaphoreWait, SemaphoreSignal, ForceWake, SemaphoresOk, MutexesOk, RequestsOk, EventsOk, Get, Served;
    if op.Wait? && op.sem == s {
      WaitEffect(k, s, op.maxToTake);
    } else if op.Signal? && op.sem == s {
      SignalStep(k, s, op.amount);
    } else if (op.Post? || op.Wake?) && Target(k, op) == On(SemaphoreWaiters(s)) {
      ThrowOutStep(k, op, s);
    } else {
      Untouched(k, op);
    }
  }

  lemma {:induction false} SignalStep(k: KState, s: nat, amount: int)
    requires Sound(k.sched) && Wired(k) && s in k.value
    ensures var g := Served(k.(value := k.value[s := k.value[s] + amount]), s);
            && s in SemaphoreSignal(k, s, amount).value && |g| <= |Waiters(k, s)|
            && (forall i | 0 <= i < |g| :: g[i].0 == Waiters(k, s)[i])
            && Waiters(SemaphoreSignal(k, s, amount), s) == Waiters(k, s)[|g|..]
  {
    hide Sound, GrantAll, Served, Get;
    SignalServes(k.(value := k.value[s := k.value[s] + amount]), s);
  }

  lemma {:induction false} ThrowOutStep(k: KState, op: Op, s: nat)
    requires Inv(k) && Enabled(k, op) && s in k.value
    requires (op.Post? || op.Wake?) && Target(k, op) == On(SemaphoreWaiters(s))
    ensures Apply(k, op).value == k.value
    ensures 0 <= ThrownOut(k, op, s) < |Waiters(k, s)|
    ensures Waiters(Apply(k, op), s) == RemoveAt(Waiters(k, s), ThrownOut(k, op, s))
  {
    hide Sound, ForceWake, SemaphoresOk, MutexesOk, RequestsOk, EventsOk, Get;
    SoundShaped(k.sched);
    assert k.sched.status[op.t] == SemaphoreSleep(s);
    if op.Post? {
      ForceWakeEffect(k.(pending := k.pending[op.t := k.pending[op.t] + op.mask]), op.t);
    } else {
      ForceWakeEffect(k, op.t);
    }
  }

  /** What an operation adds to a semaphore, less what it hands out, is the change of its value. */
  lemma {:induction false} ValueStep(k: KState, op: Op, s: nat)
    requires Inv(k) && Enabled(k, op) && s in k.value
    ensures s in Apply(k, op).value
    ensures k.value[s] + AmountOf(op, s) == Apply(k, op).value[s] + Total(GrantedBy(k, op, s))
  {
    hide Sound, SemaphoreWait, GrantAll, ForceWake, SemaphoresOk, MutexesOk, RequestsOk, EventsOk, Get;
    if op.Wait? && op.sem == s {
      WaitEffect(k, s, op.maxToTake);
    } else if op.Signal? && op.sem == s {
      SignalServes(k.(value := k.value[s := k.value[s] + op.amount]), s);
    } else {
      Untouched(k, op);
    }
  }

  // ---------------------------------------------------------------- runs

  /** Everything that the semaphore handed out in the first `n` steps. */
  ghost function GrantLog(ks: seq<KState>, ops: seq<Op>, s: nat, n: nat): seq<(Tid, int)>
    requires Run(ks, ops) && n <= |ops|
  {
    if n == 0 then []
    else
      assert StepAt(ks, ops, n - 1);
      GrantLog(ks, ops, s, n - 1) + GrantedBy(ks[n - 1], ops[n - 1], s)
  }

  /** What signals handed out to waiters in the first `n` steps. */
  ghost function SignalLog(ks: seq<KState>, ops: seq<Op>, s: nat, n: nat): seq<(Tid, int)>
    requires Run(ks, ops) && n <= |ops|
  {
    if n == 0 then []
    else
      assert StepAt(ks, ops, n - 1);
      SignalLog(ks, ops, s, n - 1) + SignalledTo(ks[n - 1], ops[n - 1], s)
  }

  function Signalled(ops: seq<Op>, s: nat, n: nat): int
    requires n <= |ops|
  {
    if n == 0 then 0 else Signalled(ops, s, n - 1) + AmountOf(ops[n - 1], s)
  }

  lemma {:induction false} ValueStepAt(ks: seq<KState>, ops: seq<Op>, s: nat, n: nat)
    requires Run(ks, ops) && n < |ops| && s in ks[n].value
    ensures Inv(ks[n]) && s in ks[n + 1].value
    ensures ks[n].value[s] + AmountOf(ops[n], s) == ks[n + 1].value[s] + Total(GrantedBy(ks[n], ops[n], s))
  {
    hide Inv, Enabled, Apply, Initial, AmountOf, GrantedBy;
    assert StepAt(ks, ops, n);
    ValueStep(ks[n], ops[n], s);
  }

  /** Over every run, what a semaphore started with and was signalled is what it holds and has handed out;
      it is never negative, and holds items only while nobody waits. */
  lemma {:induction false} SemaphoreConserves(ks: seq<KState>, ops: seq<Op>, s: nat, n: nat)
    requires Run(ks, ops) && n <= |ops| && s in ks[0].value
    ensures s in ks[n].value
    ensures ks[0].value[s] + Signalled(ops, s, n) == ks[n].value[s] + Total(GrantLog(ks, ops, s, n))
    ensures ks[n].value[s] >= 0
    ensures ks[n].value[s] > 0 ==> Waiters(ks[n], s) == []
  {
    hide StepAt, AmountOf, GrantedBy, Initial;
    if n > 0 {
      SemaphoreConserves(ks, ops, s, n - 1);
      ValueStepAt(ks, ops, s, n - 1);
      TotalAppend(GrantLog(ks, ops, s, n - 1), GrantedBy(ks[n - 1], ops[n - 1], s));
    }
    SemaphoreAt(ks, ops, s, n);
  }

  lemma {:induction false} SemaphoreAt(ks: seq<KState>, ops: seq<Op>, s: nat, n: nat)
    requires Run(ks, ops) && n <= |ops| && s in ks[n].value
    ensures Inv(ks[n]) && SemaphoreOk(ks[n], s)
  {
    RunInv(ks, ops, n);
  }

  /** The steps at which the present waiters blocked, in the order of the wait list. */
  ghost function Tickets(ks: seq<KState>, ops: seq<Op>, s: nat, n: nat): seq<nat>
    requires Run(ks, ops) && n <= |ops|
  {
    if n == 0 then []
    else
      var k, op := ks[n - 1], ops[n - 1];
      assert StepAt(ks, ops, n - 1);
      Leave(Tickets(ks, ops, s, n - 1), |SignalledTo(k, op, s)|, ThrownOut(k, op, s))
      + (if Blocks(k, op, s) then [n - 1] else [])
  }

  /** The steps at which the threads that signals served had blocked, in the order of service. */
  ghost function ServedTickets(ks: seq<KState>, ops: seq<Op>, s: nat, n: nat): seq<nat>
    requires Run(ks, ops) && n <= |ops|
  {
    if n == 0 then []
    else
      var line := Tickets(ks, ops, s, n - 1);
      assert StepAt(ks, ops, n - 1);
      var served := |SignalledTo(ks[n - 1], ops[n - 1], s)|;
      ServedTickets(ks, ops, s, n - 1) + line[..if served <= |line| then served else |line|]
  }

  /** Each ticket is the step at which that thread started to wait on the semaphore. */
  ghost predicate TicketOf(ks: seq<KState>, ops: seq<Op>, s: nat, ticket: nat, t: Tid)
    requires |ks| == |ops| + 1
  {
    ticket < |ops| && Blocks(ks[ticket], ops[ticket], s) && ks[ticket].sched.current == t
  }

  ghost predicate Ascending(a: seq<nat>)
  {
    forall i, j | 0 <= i < j < |a| :: a[i] < a[j]
  }

  ghost predicate Below(a: seq<nat>, n: nat)
  {
    forall i | 0 <= i < |a| :: a[i] < n
  }

  ghost predicate TicketsOf(ks: seq<KState>, ops: seq<Op>, s: nat, tickets: seq<nat>, threads: seq<Tid>)
    requires |ks| == |ops| + 1
  {
    |tickets| == |threads| && forall i | 0 <= i < |tickets| :: TicketOf(ks, ops, s, tickets[i], threads[i])
  }

  lemma {:induction false} LeaveTickets(ks: seq<KState>, ops: seq<Op>, s: nat, tickets: seq<nat>, threads: seq<Tid>,
                                        served: nat, out: int)
    requires |ks| == |ops| + 1 && TicketsOf(ks, ops, s, tickets, threads)
    ensures TicketsOf(ks, ops, s, Leave(tickets, served, out), Leave(threads, served, out))
  {
    hide TicketOf;
  }

  lemma {:induction false} MoreTickets(ks: seq<KState>, ops: seq<Op>, s: nat, n: nat, tickets: seq<nat>,
                                       threads: seq<Tid>)
    requires |ks| == |ops| + 1 && n < |ops| && TicketsOf(ks, ops, s, tickets, threads)
    ensures var blocks := Blocks(ks[n], ops[n], s);
            TicketsOf(ks, ops, s, tickets + (if blocks then [n] else []),
                      threads + (if blocks then [ks[n].sched.current] else []))
  {
  }

  lemma {:induction false} WaitersStepAt(ks: seq<KState>, ops: seq<Op>, s: nat, n: nat)
    requires Run(ks, ops) && n < |ops| && s in ks[n].value
    ensures Inv(ks[n]) && s in ks[n + 1].value
    ensures var k, op := ks[n], ops[n];
            && |SignalledTo(k, op, s)| <= |Waiters(k, s)|
            && (forall i | 0 <= i < |SignalledTo(k, op, s)| :: SignalledTo(k, op, s)[i].0 == Waiters(k, s)[i])
            && (SignalledTo(k, op, s) != [] ==> ThrownOut(k, op, s) == -1)
            && Waiters(ks[n + 1], s)
               == Leave(Waiters(k, s), |SignalledTo(k, op, s)|, ThrownOut(k, op, s))
                  + (if Blocks(k, op, s) then [k.sched.current] else [])
  {
    hide Inv, Enabled, Apply, Initial, Waiters, Leave, Blocks, Served;
    assert StepAt(ks, ops, n);
    WaitersStep(ks[n], ops[n], s);
  }

  /** The tickets are those of the waiters. */
  lemma {:induction false} TicketsRight(ks: seq<KState>, ops: seq<Op>, s: nat, n: nat)
    requires Run(ks, ops) && n <= |ops| && s in ks[0].value
    ensures s in ks[n].value && TicketsOf(ks, ops, s, Tickets(ks, ops, s, n), Waiters(ks[n], s))
  {
    hide StepAt, SignalledTo, ThrownOut, Leave, Blocks, TicketOf;
    if n == 0 {
    } else {
      TicketsRight(ks, ops, s, n - 1);
      WaitersStepAt(ks, ops, s, n - 1);
      var k, op := ks[n - 1], ops[n - 1];
      var served, out := |SignalledTo(k, op, s)|, ThrownOut(k, op, s);
      LeaveTickets(ks, ops, s, Tickets(ks, ops, s, n - 1), Waiters(k, s), served, out);
      MoreTickets(ks, ops, s, n - 1, Leave(Tickets(ks, ops, s, n - 1), served, out), Leave(Waiters(k, s), served, out));
    }
  }

  /** Signals serve waiters in the order in which they blocked, and serve none before one that blocked
      earlier and is still waiting. */
  lemma {:induction false} SignalsFifo(ks: seq<KState>, ops: seq<Op>, s: nat, n: nat)
    requires Run(ks, ops) && n <= |ops| && s in ks[0].value
    ensures Ascending(ServedTickets(ks, ops, s, n) + Tickets(ks, ops, s, n))
    ensures Below(ServedTickets(ks, ops, s, n) + Tickets(ks, ops, s, n), n)
  {
    hide StepAt, SignalledTo, ThrownOut, Leave, Blocks, Initial, Ascending, Below, TicketOf;
    if n == 0 {
      assert ServedTickets(ks, ops, s, n) + Tickets(ks, ops, s, n) == [];
      NoTickets();
    } else {
      SignalsFifo(ks, ops, s, n - 1);
      TicketsRight(ks, ops, s, n - 1);
      WaitersStepAt(ks, ops, s, n - 1);
      var k, op := ks[n - 1], ops[n - 1];
      AdvanceAscending(ServedTickets(ks, ops, s, n - 1), Tickets(ks, ops, s, n - 1), |SignalledTo(k, op, s)|,
                       ThrownOut(k, op, s), n - 1, if Blocks(k, op, s) then [n - 1] else []);
    }
  }

  lemma {:induction false} NoTickets()
    ensures Ascending([]) && Below([], 0)
  {
  }

  lemma {:induction false} AdvanceAscending(done: seq<nat>, line: seq<nat>, served: nat, out: int, now: nat,
                                            more: seq<nat>)
    requires Ascending(done + line) && Below(done + line, now)
    requires served <= |line| && (served > 0 ==> out == -1) && (more == [] || more == [now])
    ensures Ascending((done + line[..served]) + (Leave(line, served, out) + more))
    ensures Below((done + line[..served]) + (Leave(line, served, out) + more), now + 1)
  {
    hide Ascending, Below;
    var left := (done + line[..served]) + Leave(line, served, out);
    Regroup(done + line[..served], Leave(line, served, out), more);
    LeaveLine(done, line, served, out);
    if 0 <= out < |line| {
      RemoveAscending(done + line, |done| + out, now);
    }
    AppendAscending(left, now, more);
  }

  lemma {:induction false} Regroup(a: seq<nat>, b: seq<nat>, c: seq<nat>)
    ensures a + (b + c) == (a + b) + c
  {
  }

  lemma {:induction false} LeaveLine(done: seq<nat>, line: seq<nat>, served: nat, out: int)
    requires served <= |line| && (served > 0 ==> out == -1)
    ensures (done + line[..served]) + Leave(line, served, out)
            == if 0 <= out < |line| then RemoveAt(done + line, |done| + out) else done + line
  {
    var all := done + line;
    if 0 <= out < |line| {
      assert all[..|done| + out] == done + line[..out] && all[|done| + out + 1..] == line[out + 1..];
      assert (done + line[..served]) == done;
    } else {
      assert line[..served] + line[served..] == line;
      assert (done + line[..served]) + line[served..] == done + (line[..served] + line[served..]);
    }
  }

  lemma {:induction false} RemoveAscending(a: seq<nat>, i: nat, now: nat)
    requires i < |a| && Ascending(a) && Below(a, now)
    ensures Ascending(RemoveAt(a, i)) && Below(RemoveAt(a, i), now)
  {
  }

  lemma {:induction false} AppendAscending(a: seq<nat>, now: nat, more: seq<nat>)
    requires Ascending(a) && Below(a, now) && (more == [] || more == [now])
    ensures Ascending(a + more) && Below(a + more, now + 1)
  {
  }

  /** The threads on the log of signals are those whose tickets were served. */
  lemma {:induction false} ServedRight(ks: seq<KState>, ops: seq<Op>, s: nat, n: nat, i: nat)
    requires Run(ks, ops) && n <= |ops| && s in ks[0].value
    ensures |ServedTickets(ks, ops, s, n)| == |SignalLog(ks, ops, s, n)|
    ensures i < |SignalLog(ks, ops, s, n)| ==>
              TicketOf(ks, ops, s, ServedTickets(ks, ops, s, n)[i], SignalLog(ks, ops, s, n)[i].0)
  {
    hide StepAt, SignalledTo, ThrownOut, Leave, Blocks, Initial, Waiters, TicketOf, Tickets;
    if n == 0 {
    } else {
      ServedRight(ks, ops, s, n - 1, i);
      TicketsRight(ks, ops, s, n - 1);
      WaitersStepAt(ks, ops, s, n - 1);
      var before := |SignalLog(ks, ops, s, n - 1)|;
      if before <= i < |SignalLog(ks, ops, s, n)| {
        assert TicketOf(ks, ops, s, Tickets(ks, ops, s, n - 1)[i - before], Waiters(ks[n - 1], s)[i - before]);
      }
    }
  }
}
