/** Messages to a thread that loops waiting for the message event and then taking one message, while
    everything else in the kernel goes on.

    A send is two regions: the message is linked into the inbox under the thread's lock, and the event is
    posted later.  So is the receiver's loop: the event is consumed before the inbox is looked at. */
module Mailbox {
  import opened Scheduler
  import opened KernelState
  import opened KernelRuns

  type Message = nat

  /** Where the receiver is in its loop. */
  datatype Place = AtWait | Waiting | AtGet

  datatype Mail = Mail(
    kernel: KState,
    inbox: seq<Message>,
    unposted: nat,
    place: Place,
    sent: seq<Message>,
    received: seq<Message>)

  datatype Step =
    | Link(message: Message)
    | PostSent
    | BeginWait
    | Resume
    | TakeMessage
    | Look
    | Other(op: Op)

  const IPC: set<Event> := {EVENT_IPCMSG}

  /** Operations of the running thread, as opposed to those that an interrupt or any thread may do. */
  predicate OwnOp(op: Op)
  {
    op.Lock? || op.Unlock? || op.Wait? || op.Await? || op.Take? || op.Sleep? || op.GetWork?
  }

  ghost predicate Enabled(s: Mail, r: Tid, step: Step)
    requires Inv(s.kernel) && r in s.kernel.sched.status
  {
    var c := s.kernel.sched;
    var running := c.current == r && c.status[r].Active?;
    match step
    case Link(_) => true
    case PostSent => s.unposted > 0
    case BeginWait => running && s.place.AtWait?
    case Resume => running && s.place.Waiting?
    case TakeMessage => running && s.place.AtGet?
    case Look => running && s.place.AtGet?
    case Other(op) => KernelRuns.Enabled(s.kernel, op) && (c.current == r ==> !OwnOp(op))
  }

  ghost function Next(s: Mail, r: Tid, step: Step): Mail
    requires Inv(s.kernel) && r in s.kernel.sched.status && Enabled(s, r, step)
  {
    match step
    case Link(m) => s.(inbox := s.inbox + [m], sent := s.sent + [m], unposted := s.unposted + 1)
    case PostSent => s.(kernel := PostEvent(s.kernel, r, IPC), unposted := s.unposted - 1)
    case BeginWait =>
      s.(kernel := WaitEvents(s.kernel, IPC),
         place := if s.kernel.pending[r] * IPC == {} then Waiting else AtGet)
    case Resume => s.(kernel := TakeEvents(s.kernel, IPC), place := AtGet)
    case TakeMessage => Pop(s, r).(place := AtWait)
    // Asking for the length of the first message only, or offering an invalid buffer, takes nothing and does not
    // mark the event again.
    case Look => s.(place := AtWait)
    case Other(op) => s.(kernel := Apply(s.kernel, op))
  }

  /** Take the first message, if any, and mark the event again if more are left. */
  function Pop(s: Mail, r: Tid): Mail
    requires r in s.kernel.pending
  {
    if s.inbox == [] then s
    else
      var taken := s.(inbox := s.inbox[1..], received := s.received + [s.inbox[0]]);
      if taken.inbox == [] then taken
      else taken.(kernel := s.kernel.(pending := s.kernel.pending[r := s.kernel.pending[r] + IPC]))
  }

  // ---------------------------------------------------------------- the invariant

  /** What holds however the receiver goes about its messages. */
  ghost predicate MailSound(s: Mail, r: Tid)
  {
    && Inv(s.kernel) && r in s.kernel.sched.status
    && Asleep(s, r)
    && s.sent == s.received + s.inbox
  }

  ghost predicate MailOk(s: Mail, r: Tid)
  {
    MailSound(s, r) && Tracked(s, r)
  }

  /** A message in the inbox is announced, about to be announced, or about to be taken. */
  predicate Tracked(s: Mail, r: Tid)
    requires r in s.kernel.pending
  {
    s.inbox != [] ==> EVENT_IPCMSG in s.kernel.pending[r] || s.unposted > 0 || s.place.AtGet?
  }

  /** The receiver sleeps on an event only in its wait for messages. */
  predicate Asleep(s: Mail, r: Tid)
    requires r in s.kernel.sched.status
  {
    s.kernel.sched.status[r].EventSleep? ==> s.place.Waiting? && s.kernel.sched.status[r].mask == IPC
  }

  // ---------------------------------------------------------------- what the rest of the kernel does to the receiver

  /** Events of the thread are not lost, and it has not gone to sleep on an event. */
  ghost predicate Spared(k: KState, k': KState, r: Tid)
  {
    && r in k.pending && r in k'.pending && k.pending[r] <= k'.pending[r]
    && r in k.sched.status && r in k'.sched.status
    && (k'.sched.status[r].EventSleep? ==> k'.sched.status[r] == k.sched.status[r])
  }

  lemma {:induction false} GrantSpares(k: KState, s: nat, r: Tid)
    requires Sound(k.sched) && Wired(k) && s in k.value && r in k.sched.status
    ensures Spared(k, GrantAll(k, s), r)
    decreases |Get(k.sched, SemaphoreWaiters(s))|
  {
    hide Sound, Unblock;
    if k.value[s] == 0 || Get(k.sched, SemaphoreWaiters(s)) == [] {
    } else {
      FirstAtHome(k.sched, SemaphoreWaiters(s));
      UnblockEffect(k.sched, SemaphoreWaiters(s), 0);
      GrantFirstSound(k, s);
      GrantSpares(GrantFirst(k, s), s, r);
    }
  }

  lemma {:induction false} ForceWakeSpares(k: KState, t: Tid, r: Tid)
    requires Sound(k.sched) && Wired(k) && r in k.sched.status
    requires t in k.sched.status && k.sched.status[t].SemaphoreSleep?
    ensures Spared(k, ForceWake(k, t), r)
  {
    hide Listed, Placed, Unblock;
    WaiterListed(k.sched, t);
    var q := SemaphoreWaiters(k.sched.status[t].sem);
    UnblockEffect(k.sched, q, IndexOf(Get(k.sched, q), t));
  }

  lemma {:induction false} PostSpares(k: KState, t: Tid, mask: set<Event>, r: Tid)
    requires Sound(k.sched) && Wired(k) && t in k.sched.status && r in k.sched.status
    ensures Spared(k, PostEvent(k, t, mask), r)
  {
    hide Listed, Placed, ForceWake, AddActive;
    if mask != {} {
      var k' := k.(pending := k.pending[t := k.pending[t] + mask]);
      match k.sched.status[t]
      case EventSleep(_) => AddActiveEffect(k.sched, t);
      case SemaphoreSleep(_) => ForceWakeSpares(k', t, r);
      case _ =>
    }
  }

  lemma {:induction false} WakeSpares(k: KState, t: Tid, r: Tid)
    requires Sound(k.sched) && Wired(k) && t in k.sched.status && r in k.sched.status
    ensures Spared(k, KernelState.Wake(k, t), r)
  {
    hide Listed, Placed, ForceWake, Unblock;
    match k.sched.status[t]
    case Sleeping =>
      WaiterListed(k.sched, t);
      UnblockEffect(k.sched, Sleepers, IndexOf(Get(k.sched, Sleepers), t));
    case SemaphoreSleep(_) => ForceWakeSpares(k, t, r);
    case _ =>
  }

  /** Operations with which another running thread may go to sleep. */
  lemma {:induction false} BlockSpares(k: KState, op: Op, r: Tid)
    requires Inv(k) && KernelRuns.Enabled(k, op) && k.sched.current != r && r in k.sched.status
    requires op.Lock? || op.Wait? || op.Sleep? || op.GetWork?
    ensures Spared(k, Apply(k, op), r)
  {
    hide Sound, SemaphoresOk, MutexesOk, RequestsOk, EventsOk, Get;
  }

  /** Operations that wake the first of a line. */
  lemma {:induction false} HandOverSpares(k: KState, op: Op, r: Tid)
    requires Inv(k) && KernelRuns.Enabled(k, op) && r in k.sched.status && (op.Unlock? || op.AddWork?)
    ensures Spared(k, Apply(k, op), r)
  {
    hide Sound, SemaphoresOk, MutexesOk, RequestsOk, EventsOk, Unblock, Get;
    var q := if op.Unlock? then MutexWaiters(op.mutex) else WorkSleepers(op.queue);
    if Get(k.sched, q) != [] {
      FirstAtHome(k.sched, q);
      UnblockEffect(k.sched, q, 0);
    }
  }

  /** Operations on the events of another thread. */
  lemma {:induction false} EventSpares(k: KState, op: Op, r: Tid)
    requires Inv(k) && KernelRuns.Enabled(k, op) && k.sched.current != r && r in k.sched.status
    requires op.Await? || op.Take?
    ensures Spared(k, Apply(k, op), r)
  {
    hide Sound, SemaphoresOk, MutexesOk, RequestsOk, EventsOk, Get;
  }

  lemma {:induction false} SwitchSpares(k: KState, op: Op, r: Tid)
    requires Inv(k) && KernelRuns.Enabled(k, op) && r in k.sched.status
    requires op.Start? || op.Reschedule? || op.SetSwitching?
    ensures Spared(k, Apply(k, op), r)
  {
    hide Listed, Placed, SemaphoresOk, MutexesOk, RequestsOk, EventsOk, AddActive, Scheduler.Reschedule;
    match op
    case Start(t) => AddActiveEffect(k.sched, t);
    case Reschedule => RescheduleEffect(k.sched, k.noSwitch);
    case _ =>
  }

  /** Whatever else goes on, the receiver's events are not lost and nobody puts it to sleep. */
  lemma {:induction false} OthersSpare(k: KState, op: Op, r: Tid)
    requires Inv(k) && KernelRuns.Enabled(k, op) && r in k.sched.status && (k.sched.current == r ==> !OwnOp(op))
    ensures Spared(k, Apply(k, op), r)
  {
    hide Sound, SemaphoresOk, MutexesOk, RequestsOk, EventsOk, GrantAll, PostEvent, KernelState.Wake, Spared;
    if op.Lock? || op.Wait? || op.Sleep? || op.GetWork? {
      BlockSpares(k, op, r);
    } else if op.Await? || op.Take? {
      EventSpares(k, op, r);
    } else if op.Unlock? || op.AddWork? {
      HandOverSpares(k, op, r);
    } else if op.Signal? {
      SignalSpares(k, op.sem, op.amount, r);
    } else if op.Post? {
      PostSpares(k, op.t, op.mask, r);
    } else if op.Wake? {
      WakeSpares(k, op.t, r);
    } else {
      SwitchSpares(k, op, r);
    }
  }

  lemma {:induction false} SignalSpares(k: KState, s: nat, n: int, r: Tid)
    requires Sound(k.sched) && Wired(k) && s in k.value && r in k.sched.status
    ensures Spared(k, SemaphoreSignal(k, s, n), r)
  {
    hide Sound, GrantAll;
    GrantSpares(k.(value := k.value[s := k.value[s] + n]), s, r);
  }

  // ---------------------------------------------------------------- every step keeps the invariant

  lemma {:induction false} OtherKeeps(s: Mail, r: Tid, op: Op)
    requires MailSound(s, r) && Enabled(s, r, Other(op))
    ensures MailSound(Next(s, r, Other(op)), r) && (MailOk(s, r) ==> MailOk(Next(s, r, Other(op)), r))
  {
    hide Inv, KernelRuns.Enabled, Apply;
    OthersSpare(s.kernel, op, r);
    OpKeepsInv(s.kernel, op);
  }

  lemma {:induction false} LinkKeeps(s: Mail, r: Tid, m: Message)
    requires MailSound(s, r)
    ensures MailSound(Next(s, r, Link(m)), r) && (MailOk(s, r) ==> MailOk(Next(s, r, Link(m)), r))
  {
    hide Inv;
    InvPending(s.kernel, r);
    assert s.received + (s.inbox + [m]) == (s.received + s.inbox) + [m];
  }

  lemma {:induction false} InvPending(k: KState, r: Tid)
    requires Inv(k)
    ensures Sound(k.sched) && Wired(k)
    ensures r in k.sched.status ==> r in k.pending
  {
  }

  /** After the event is posted it is pending, so the receiver is not asleep waiting for it. */
  lemma {:induction false} PostSentKeeps(s: Mail, r: Tid)
    requires MailSound(s, r) && s.unposted > 0
    ensures MailSound(Next(s, r, PostSent), r) && (MailOk(s, r) ==> MailOk(Next(s, r, PostSent), r))
  {
    hide Inv, PostEvent;
    InvPending(s.kernel, r);
    PostSpares(s.kernel, r, IPC, r);
    PostKeeps(s.kernel, r, IPC);
    PostPends(s.kernel, r);
  }

  lemma {:induction false} PostPends(k: KState, r: Tid)
    requires Sound(k.sched) && Wired(k) && r in k.sched.status
    ensures r in PostEvent(k, r, IPC).pending && EVENT_IPCMSG in PostEvent(k, r, IPC).pending[r]
  {
    hide Sound, ForceWake, AddActive;
  }

  lemma {:induction false} BeginWaitKeeps(s: Mail, r: Tid)
    requires MailSound(s, r) && Enabled(s, r, BeginWait)
    ensures MailSound(Next(s, r, BeginWait), r) && (MailOk(s, r) ==> MailOk(Next(s, r, BeginWait), r))
  {
    hide Inv, Sound;
    InvPending(s.kernel, r);
    AwaitKeeps(s.kernel, IPC);
  }

  lemma {:induction false} ResumeKeeps(s: Mail, r: Tid)
    requires MailSound(s, r) && Enabled(s, r, Resume)
    ensures MailSound(Next(s, r, Resume), r) && (MailOk(s, r) ==> MailOk(Next(s, r, Resume), r))
  {
    hide Inv, Sound;
    InvPending(s.kernel, r);
    TakeKeeps(s.kernel, IPC);
  }

  lemma {:induction false} RemarkKeeps(k: KState, r: Tid)
    requires Inv(k) && r in k.pending && k.sched.status[r].Active?
    ensures Inv(k.(pending := k.pending[r := k.pending[r] + IPC]))
  {
    hide Sound, SemaphoreOk;
    SemaphoresCarry(k, k.(pending := k.pending[r := k.pending[r] + IPC]));
  }

  lemma {:induction false} TakeMessageKeeps(s: Mail, r: Tid)
    requires MailSound(s, r) && Enabled(s, r, TakeMessage)
    ensures MailSound(Next(s, r, TakeMessage), r) && (MailOk(s, r) ==> MailOk(Next(s, r, TakeMessage), r))
  {
    hide Inv, Sound;
    InvPending(s.kernel, r);
    RemarkKeeps(s.kernel, r);
    if s.inbox != [] {
      assert s.received + s.inbox == (s.received + [s.inbox[0]]) + s.inbox[1..];
    }
  }

  lemma {:induction false} LookKeeps(s: Mail, r: Tid)
    requires MailSound(s, r) && Enabled(s, r, Look)
    ensures MailSound(Next(s, r, Look), r) && (MailOk(s, r) && !Missed(s, r) ==> MailOk(Next(s, r, Look), r))
  {
    hide Inv, Sound;
    InvPending(s.kernel, r);
  }

  /** There are messages that nothing announces any more. */
  predicate Missed(s: Mail, r: Tid)
  {
    s.inbox != [] && s.unposted == 0 && r in s.kernel.pending && EVENT_IPCMSG !in s.kernel.pending[r]
  }

  /** Every step keeps the invariant, if the receiver does not go back to waiting when it would miss messages. */
  lemma {:induction false} StepKeeps(s: Mail, r: Tid, step: Step)
    requires MailSound(s, r) && Enabled(s, r, step)
    ensures MailSound(Next(s, r, step), r)
    ensures MailOk(s, r) && !(step.Look? && Missed(s, r)) ==> MailOk(Next(s, r, step), r)
  {
    hide Next, MailOk, MailSound, Inv, Missed;
    MailKernel(s, r);
    match step
    case Link(m) => LinkKeeps(s, r, m);
    case PostSent => PostSentKeeps(s, r);
    case BeginWait => BeginWaitKeeps(s, r);
    case Resume => ResumeKeeps(s, r);
    case TakeMessage => TakeMessageKeeps(s, r);
    case Look => LookKeeps(s, r);
    case Other(op) => OtherKeeps(s, r, op);
  }

  lemma {:induction false} MailKernel(s: Mail, r: Tid)
    requires MailSound(s, r)
    ensures Inv(s.kernel) && r in s.kernel.sched.status
  {
  }

  // ---------------------------------------------------------------- runs

  ghost predicate StepAt(ss: seq<Mail>, r: Tid, steps: seq<Step>, n: nat)
    requires |ss| == |steps| + 1 && n < |steps|
  {
    && Inv(ss[n].kernel) && r in ss[n].kernel.sched.status
    && Enabled(ss[n], r, steps[n]) && ss[n + 1] == Next(ss[n], r, steps[n])
  }

  ghost predicate Run(ss: seq<Mail>, r: Tid, steps: seq<Step>)
  {
    |ss| == |steps| + 1 && Start(ss[0], r) && forall n | 0 <= n < |steps| :: StepAt(ss, r, steps, n)
  }

  /** No message has been sent yet, and the receiver is not asleep on an event. */
  ghost predicate Start(s: Mail, r: Tid)
  {
    && Inv(s.kernel) && r in s.kernel.sched.status && !s.kernel.sched.status[r].EventSleep?
    && s.inbox == s.sent == s.received == [] && s.unposted == 0 && s.place == AtWait
  }

  lemma {:induction false} RunSound(ss: seq<Mail>, r: Tid, steps: seq<Step>, n: nat)
    requires Run(ss, r, steps) && n < |ss|
    ensures MailSound(ss[n], r)
  {
    hide Inv, Next;
    if n > 0 {
      RunSound(ss, r, steps, n - 1);
      assert StepAt(ss, r, steps, n - 1);
      StepKeeps(ss[n - 1], r, steps[n - 1]);
    }
  }

  /** In the first `n` steps the receiver does not go back to waiting after a mere look that misses messages. */
  ghost predicate LooksWell(ss: seq<Mail>, r: Tid, steps: seq<Step>, n: nat)
    requires |ss| == |steps| + 1 && n <= |steps|
  {
    forall i | 0 <= i < n && steps[i].Look? :: !Missed(ss[i], r)
  }

  lemma {:induction false} RunMailOk(ss: seq<Mail>, r: Tid, steps: seq<Step>, n: nat)
    requires Run(ss, r, steps) && n <= |steps| && LooksWell(ss, r, steps, n)
    ensures MailOk(ss[n], r)
  {
    hide Inv, Next, Missed, MailSound;
    RunSound(ss, r, steps, n);
    if n == 0 {
      InvPending(ss[0].kernel, r);
    } else {
      RunMailOk(ss, r, steps, n - 1);
      assert StepAt(ss, r, steps, n - 1);
      StepKeeps(ss[n - 1], r, steps[n - 1]);
    }
  }

  /** A run goes on with any step that is enabled in its last state. */
  lemma {:induction false} RunExtends(ss: seq<Mail>, r: Tid, steps: seq<Step>)
    requires Run(ss, r, steps)
    ensures Inv(ss[|steps|].kernel) && r in ss[|steps|].kernel.sched.status
    ensures forall step | Enabled(ss[|steps|], r, step) ::
              Run(ss + [Next(ss[|steps|], r, step)], r, steps + [step])
  {
    hide Inv, Enabled, Next, Start, MailSound;
    RunSound(ss, r, steps, |steps|);
    MailKernel(ss[|steps|], r);
    forall step | Enabled(ss[|steps|], r, step)
      ensures Run(ss + [Next(ss[|steps|], r, step)], r, steps + [step])
    {
      var ss', steps' := ss + [Next(ss[|steps|], r, step)], steps + [step];
      forall n | 0 <= n < |steps'|
        ensures StepAt(ss', r, steps', n)
      {
        assert n < |steps| ==> StepAt(ss, r, steps, n);
      }
    }
  }

  /** The receiver sleeps in its wait although every send has posted its event and there is a message. */
  predicate Lost(s: Mail, r: Tid)
  {
    r in s.kernel.sched.status && s.kernel.sched.status[r].EventSleep? && s.unposted == 0 && s.inbox != []
  }

  /** No lost message: in every run, mere looks that do not miss messages included, once every send has posted
      its event a receiver asleep in its wait has an empty inbox.  And whatever the looks, messages are received in
      the order in which they were linked in. */
  lemma {:induction false} NoLostMessage(ss: seq<Mail>, r: Tid, steps: seq<Step>, n: nat)
    requires Run(ss, r, steps) && n <= |steps|
    ensures LooksWell(ss, r, steps, n) ==> !Lost(ss[n], r)
    ensures ss[n].sent == ss[n].received + ss[n].inbox
  {
    hide StepAt, Start, LooksWell, Inv;
    RunSound(ss, r, steps, n);
    if LooksWell(ss, r, steps, n) {
      RunMailOk(ss, r, steps, n);
      Unannounced(ss[n].kernel, r);
    }
  }

  lemma {:induction false} Unannounced(k: KState, r: Tid)
    requires Inv(k) && r in k.sched.status
    ensures r in k.pending
    ensures k.sched.status[r] == EventSleep(IPC) ==> EVENT_IPCMSG !in k.pending[r]
  {
    assert EVENT_IPCMSG in k.pending[r] ==> EVENT_IPCMSG in k.pending[r] * IPC;
  }

  // ---------------------------------------------------------------- mere looks

  /** Exactly those looks are harmful: waiting again at once, the receiver goes to sleep on a non-empty inbox that
      nothing announces just if the look missed messages. */
  lemma {:induction false} LookLoses(s: Mail, r: Tid)
    requires MailSound(s, r) && Enabled(s, r, Look)
    ensures var looked := Next(s, r, Look);
            Enabled(looked, r, BeginWait) && (Lost(Next(looked, r, BeginWait), r) <==> Missed(s, r))
  {
    hide Inv, Sound;
    InvPending(s.kernel, r);
  }

  /** One more step of a run. */
  lemma {:induction false} More(ss: seq<Mail>, r: Tid, steps: seq<Step>, step: Step)
      returns (ss': seq<Mail>, steps': seq<Step>)
    requires Run(ss, r, steps)
    requires Inv(ss[|steps|].kernel) && r in ss[|steps|].kernel.sched.status ==> Enabled(ss[|steps|], r, step)
    ensures Inv(ss[|steps|].kernel) && r in ss[|steps|].kernel.sched.status && Enabled(ss[|steps|], r, step)
    ensures Run(ss', r, steps') && |ss'| == |steps'| + 1 == |steps| + 2
    ensures ss'[|steps'|] == Next(ss[|steps|], r, step) && |ss| > 0 && ss'[0] == ss[0]
  {
    hide Inv, Enabled, Next, StepAt, Start;
    RunExtends(ss, r, steps);
    ss', steps' := ss + [Next(ss[|steps|], r, step)], steps + [step];
  }

  /** It does happen: a message is sent, the receiver's wait consumes the event, it asks for the length only and
      waits again. */
  lemma {:induction false} LostMessage(k: KState, r: Tid) returns (ss: seq<Mail>, steps: seq<Step>)
    requires Initial(k) && r == k.sched.current
    ensures Run(ss, r, steps) && ss[0].kernel == k && Lost(ss[|steps|], r)
  {
    hide Inv, Run;
    InitialInv(k);
    InvPending(k, r);
    var s := Mail(k, [], 0, AtWait, [], []);
    ss, steps := [s], [];
    assert Run(ss, r, steps) by { OneState(s, r); }
    ss, steps := More(ss, r, steps, Link(7));
    ss, steps := More(ss, r, steps, PostSent);
    ss, steps := More(ss, r, steps, BeginWait);
    ss, steps := More(ss, r, steps, Look);
    ss, steps := More(ss, r, steps, BeginWait);
  }

  lemma {:induction false} OneState(s: Mail, r: Tid)
    requires Start(s, r)
    ensures Run([s], r, [])
  {
  }
}
