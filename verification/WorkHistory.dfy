/** Work queues over whole runs: items come out in the order in which they went in, and a queue with one
    consumer never leaves it asleep while there is work. */
module WorkHistory {
  import opened Scheduler
  import opened KernelState
  import opened KernelRuns
  import opened KernelHistory

  function Idlers(k: KState, w: nat): seq<Tid>
  {
    Get(k.sched, WorkSleepers(w))
  }

  // ---------------------------------------------------------------- one operation

  /** Serving a semaphore's waiters leaves all work alone. */
  lemma {:induction false} GrantAllWork(k: KState, s: nat)
    requires Sound(k.sched) && Wired(k) && s in k.value
    ensures GrantAll(k, s).work == k.work
    decreases |Get(k.sched, SemaphoreWaiters(s))|
  {
    hide Sound, Unblock;
    if k.value[s] == 0 || Get(k.sched, SemaphoreWaiters(s)) == [] {
    } else {
      GrantFirstSound(k, s);
      GrantAllWork(GrantFirst(k, s), s);
    }
  }

  /** Only taking and adding work changes a queue. */
  lemma {:induction false} OtherWork(k: KState, op: Op)
    requires Inv(k) && Enabled(k, op) && !op.GetWork? && !op.AddWork?
    ensures Apply(k, op).work == k.work
  {
    hide Sound, SemaphoresOk, MutexesOk, RequestsOk, EventsOk, GrantAll, Unblock, AddActive, SleepOn;
    hide Scheduler.Reschedule;
    if op.Signal? {
      GrantAllWork(k.(value := k.value[op.sem := k.value[op.sem] + op.amount]), op.sem);
    }
  }

  /** And only these change who sleeps on it. */
  lemma {:induction false} OtherSleepers(k: KState, op: Op, w: nat)
    requires Inv(k) && Enabled(k, op) && !(op.GetWork? && op.queue == w) && !(op.AddWork? && op.queue == w)
    ensures Idlers(Apply(k, op), w) == Idlers(k, w)
  {
    hide Inv, Enabled, Apply, Get;
    if op.Wake? && Target(k, op) == On(WorkSleepers(w)) {
      WakeIgnores(k, op.t, w);
    } else {
      Untouched(k, op);
    }
  }

  /** Waking a thread that waits for work has no effect. */
  lemma {:induction false} WakeIgnores(k: KState, t: Tid, w: nat)
    requires Inv(k) && Enabled(k, Op.Wake(t)) && Target(k, Op.Wake(t)) == On(WorkSleepers(w))
    ensures Apply(k, Op.Wake(t)) == k
  {
    hide Sound, SemaphoresOk, MutexesOk, RequestsOk, EventsOk, ForceWake, Unblock;
  }

  lemma {:induction false} GetWorkStep(k: KState, w: nat)
    requires Inv(k) && Enabled(k, Op.GetWork(w))
    ensures var k' := Apply(k, Op.GetWork(w));
            && k'.work == (if k.work[w] == [] then k.work else k.work[w := k.work[w][1..]])
            && Idlers(k', w) == Idlers(k, w) + if k.work[w] == [] then [k.sched.current] else []
  {
    hide Listed, Placed, SemaphoresOk, MutexesOk, RequestsOk, EventsOk, SleepOn;
    SleepOnEffect(k.sched, QueueSleep(w), WorkSleepers(w));
  }

  lemma {:induction false} AddWorkStep(k: KState, w: nat, item: nat)
    requires Inv(k) && Enabled(k, Op.AddWork(w, item))
    ensures var k' := Apply(k, Op.AddWork(w, item));
            && k'.work == k.work[w := k.work[w] + [item]]
            && Idlers(k', w) == if Idlers(k, w) == [] then [] else Idlers(k, w)[1..]
  {
    hide Sound, SemaphoresOk, MutexesOk, RequestsOk, EventsOk, Unblock;
    if Idlers(k, w) != [] {
      FirstAtHome(k.sched, WorkSleepers(w));
      UnblockEffect(k.sched, WorkSleepers(w), 0);
    }
  }

  // ---------------------------------------------------------------- order

  /** The items added in the first `n` steps. */
  function Added(ops: seq<Op>, w: nat, n: nat): seq<nat>
    requires n <= |ops|
  {
    if n == 0 then [] else Added(ops, w, n - 1) + AddedBy(ops[n - 1], w)
  }

  function AddedBy(op: Op, w: nat): seq<nat>
  {
    if op.AddWork? && op.queue == w then [op.item] else []
  }

  /** The items taken in the first `n` steps. */
  ghost function Taken(ks: seq<KState>, ops: seq<Op>, w: nat, n: nat): seq<nat>
    requires |ks| == |ops| + 1 && n <= |ops|
  {
    if n == 0 then [] else Taken(ks, ops, w, n - 1) + TakenBy(ks[n - 1], ops[n - 1], w)
  }

  function TakenBy(k: KState, op: Op, w: nat): seq<nat>
  {
    if op == Op.GetWork(w) && w in k.work && k.work[w] != [] then [k.work[w][0]] else []
  }

  lemma {:induction false} QueueStep(k: KState, op: Op, w: nat)
    requires Inv(k) && Enabled(k, op) && w in k.work
    ensures w in Apply(k, op).work
    ensures k.work[w] + AddedBy(op, w) == TakenBy(k, op, w) + Apply(k, op).work[w]
  {
    hide Inv, Enabled, Apply, Idlers;
    if op.GetWork? {
      GetWorkStep(k, op.queue);
    } else if op.AddWork? {
      AddWorkStep(k, op.queue, op.item);
    } else {
      OtherWork(k, op);
    }
  }

  /** Over every run and with any number of consumers, items come out in the order in which they went in. */
  lemma {:induction false} WorkOrder(ks: seq<KState>, ops: seq<Op>, w: nat, n: nat)
    requires Run(ks, ops) && n <= |ops| && w in ks[0].work
    ensures w in ks[n].work && ks[0].work[w] + Added(ops, w, n) == Taken(ks, ops, w, n) + ks[n].work[w]
  {
    hide Inv, Enabled, Apply, AddedBy, TakenBy;
    if n == 0 {
    } else {
      WorkOrder(ks, ops, w, n - 1);
      assert StepAt(ks, ops, n - 1);
      QueueStep(ks[n - 1], ops[n - 1], w);
      Shift(ks[0].work[w] + Added(ops, w, n - 1), Taken(ks, ops, w, n - 1), ks[n - 1].work[w],
            AddedBy(ops[n - 1], w), TakenBy(ks[n - 1], ops[n - 1], w), ks[n].work[w]);
      assert ks[0].work[w] + Added(ops, w, n) == (ks[0].work[w] + Added(ops, w, n - 1)) + AddedBy(ops[n - 1], w);
    }
  }

  // ---------------------------------------------------------------- no missed work

  /** Nobody but one thread takes work from the queue. */
  ghost predicate OneConsumer(ks: seq<KState>, ops: seq<Op>, w: nat, c: Tid)
    requires |ks| == |ops| + 1
  {
    forall n | 0 <= n < |ops| :: ops[n] == Op.GetWork(w) ==> ks[n].sched.current == c
  }

  /** At most the consumer sleeps on the queue, and only while it is empty. */
  predicate Attended(k: KState, w: nat, c: Tid)
  {
    w in k.work && (Idlers(k, w) == [] || (Idlers(k, w) == [c] && k.work[w] == []))
  }

  /** The running thread is not asleep on the queue. */
  lemma {:induction false} RunnerNotAsleep(k: KState, w: nat)
    requires Inv(k) && Enabled(k, Op.GetWork(w))
    ensures k.sched.current !in Idlers(k, w)
  {
    if k.sched.current in Idlers(k, w) {
      OnlyAtHome(k.sched, WorkSleepers(w), k.sched.current);
    }
  }

  lemma {:induction false} AttendedStep(k: KState, op: Op, w: nat, c: Tid)
    requires Inv(k) && Enabled(k, op) && Attended(k, w, c) && (op == Op.GetWork(w) ==> k.sched.current == c)
    ensures Attended(Apply(k, op), w, c)
  {
    hide Inv, Enabled, Apply, Idlers;
    QueueStep(k, op, w);
    if op == Op.GetWork(w) {
      RunnerNotAsleep(k, w);
      GetWorkStep(k, w);
    } else if op.AddWork? && op.queue == w {
      AddWorkStep(k, w, op.item);
    } else {
      OtherSleepers(k, op, w);
    }
  }

  /** No missed work: in every run in which one thread consumes, it never sleeps while there is work. */
  lemma {:induction false} NoMissedWork(ks: seq<KState>, ops: seq<Op>, w: nat, c: Tid, n: nat)
    requires Run(ks, ops) && n <= |ops| && w in ks[0].work && OneConsumer(ks, ops, w, c)
    ensures Attended(ks[n], w, c)
  {
    hide Inv, Enabled, Apply, Attended;
    if n == 0 {
      NobodyAsleep(ks[0], w, c);
    } else {
      NoMissedWork(ks, ops, w, c, n - 1);
      assert StepAt(ks, ops, n - 1);
      AttendedStep(ks[n - 1], ops[n - 1], w, c);
    }
  }

  lemma {:induction false} NobodyAsleep(k: KState, w: nat, c: Tid)
    requires Initial(k) && w in k.work
    ensures Attended(k, w, c)
  {
  }

  /** Nobody sleeps on the queue while there is work. */
  predicate Unmissed(k: KState, w: nat)
    requires w in k.work
  {
    k.work[w] == [] || Idlers(k, w) == []
  }

  /** Adding an item wakes one sleeper only: it leaves nobody asleep on work just if at most one sleeps. */
  lemma {:induction false} SecondConsumerSleeps(k: KState, w: nat, item: nat)
    requires Inv(k) && w in k.work
    ensures var k' := Apply(k, Op.AddWork(w, item));
            w in k'.work && (Unmissed(k', w) <==> |Idlers(k, w)| <= 1)
  {
    hide Inv, Idlers;
    AddWorkStep(k, w, item);
  }

  /** Three threads of the best priority, and one queue of work. */
  function Boot(): KState
  {
    KState(Sched(map[1 := Active, 2 := Preinit, 3 := Preinit], map[1 := 0, 2 := 0, 3 := 0], map[], 1, 1), false,
           map[1 := 0, 2 := 0, 3 := 0], map[1 := {}, 2 := {}, 3 := {}], map[], map[], map[0 := []])
  }

  lemma {:induction false} BootInitial()
    ensures Initial(Boot())
  {
  }

  /** One more step of a run. */
  lemma {:induction false} More(ks: seq<KState>, ops: seq<Op>, op: Op) returns (ks': seq<KState>, ops': seq<Op>)
    requires Run(ks, ops)
    requires Inv(ks[|ops|]) ==> Enabled(ks[|ops|], op)
    ensures Inv(ks[|ops|]) && Enabled(ks[|ops|], op)
    ensures Run(ks', ops') && |ks'| == |ops'| + 1 == |ops| + 2 && ks'[|ops'|] == Apply(ks[|ops|], op)
  {
    hide Inv, Enabled, Apply, Run;
    RunShape(ks, ops);
    RunExtends(ks, ops);
    ks', ops' := ks + [Apply(ks[|ops|], op)], ops + [op];
  }

  lemma {:induction false} RunShape(ks: seq<KState>, ops: seq<Op>)
    requires Run(ks, ops)
    ensures |ks| == |ops| + 1
  {
  }

  /** Two threads go to sleep on the queue. */
  lemma {:induction false} TwoAsleep() returns (ks: seq<KState>, ops: seq<Op>)
    ensures Run(ks, ops) && |ks| == |ops| + 1 && 0 in ks[|ops|].work && |Idlers(ks[|ops|], 0)| == 2
  {
    hide Inv, Initial, Run;
    BootInitial();
    ks, ops := [Boot()], [];
    OneState(Boot());
    ks, ops := More(ks, ops, Op.Start(2));
    ks, ops := More(ks, ops, Op.Start(3));
    ks, ops := More(ks, ops, Op.GetWork(0));
    ks, ops := More(ks, ops, Op.Reschedule);
    ks, ops := More(ks, ops, Op.GetWork(0));
  }

  /** It does happen: then the third runs and adds an item, and one of them sleeps on. */
  lemma {:induction false} MissedWork() returns (ks: seq<KState>, ops: seq<Op>)
    ensures Run(ks, ops) && 0 in ks[|ops|].work && !Unmissed(ks[|ops|], 0)
  {
    hide Inv, Run, Idlers;
    ks, ops := TwoAsleep();
    var k := ks[|ops|];
    ks, ops := More(ks, ops, Op.Reschedule);
    OtherSleepers(k, Op.Reschedule, 0);
    OtherWork(k, Op.Reschedule);
    k := ks[|ops|];
    ks, ops := More(ks, ops, Op.AddWork(0, 7));
    SecondConsumerSleeps(k, 0, 7);
  }

  lemma {:induction false} OneState(k: KState)
    requires Initial(k)
    ensures Run([k], [])
  {
  }
}
