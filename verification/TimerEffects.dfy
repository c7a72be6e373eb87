/** What each step does to the timers, and that a timer which is removed does not fire. */
module TimerEffects {
  import S = Scheduler
  import opened Timers

  // ---------------------------------------------------------------- what each step does

  /** Scheduling an inactive timer puts it on the list with the deadline asked for, and moves no other; scheduling an
      active one does nothing. */
  lemma {:induction false} ScheduleExact(s: State, t: Id, delta: int)
    requires Valid(s) && t in s.active
    ensures var r := Schedule(s, t, delta);
            && (s.active[t] ==> r == s)
            && (!s.active[t] ==>
                  && t in r.list && Without(r.list, t) == s.list
                  && r.active == s.active[t := true] && r.deadline == s.deadline[t := s.now + delta]
                  && r.ticket == s.ticket[t := |s.holder|] && r.holder == s.holder + [t]
                  && r.queue == s.queue && r.inHand == s.inHand && r.removing == s.removing && r.log == s.log)
  {
    hide Sorted, NotEarly, Held, Accounted, Without, InsertAt;
    if !s.active[t] {
      OnePlace(s, t);
      InsertedOut(s.list, Position(s.deadline, s.list, s.now + delta), t);
    }
  }

  lemma {:induction false} InsertedOut(list: seq<Id>, p: nat, t: Id)
    requires p <= |list| && t !in list
    ensures t in InsertAt(list, p, t) && Without(InsertAt(list, p, t), t) == list
  {
    var r := InsertAt(list, p, t);
    assert r[p] == t;
    assert forall k | 0 <= k < p :: r[k] == list[k];
    assert S.IndexOf(r, t) == p;
  }

  /** Removing a timer that is on the list takes it off, cancels its scheduling and leaves the others in order;
      removing any other does nothing. */
  lemma {:induction false} UnlinkExact(s: State, t: Id)
    requires Valid(s) && t in s.active
    ensures var r := Unlink(s, t);
            && (t !in s.list ==> r == s)
            && (t in s.list ==>
                  && t !in r.list && t in r.removing
                  && (exists i | 0 <= i < |s.list| :: s.list[i] == t && r.list == s.list[..i] + s.list[i + 1..])
                  && r.log == s.log + [Cancelled(s.ticket[t])]
                  && r.deadline == s.deadline && r.active == s.active && r.ticket == s.ticket && r.holder == s.holder
                  && r.queue == s.queue && r.inHand == s.inHand && r.now == s.now)
  {
    hide Sorted, NotEarly, Held, Accounted;
    if t in s.list {
      UnlinkKnown(s, t);
      UnlinkPlaced(s, t);
      OnePlace(Unlink(s, t), t);
      var r := Unlink(s, t);
      assert r.removing[|s.removing|] == t;
      var i := S.IndexOf(s.list, t);
      assert s.list[i] == t && r.list == s.list[..i] + s.list[i + 1..];
    }
  }

  /** The second half of the removal makes the timer inactive, so that it can be scheduled again. */
  lemma {:induction false} UnmarkExact(s: State, t: Id)
    requires Valid(s) && t in s.removing
    ensures var r := Unmark(s, t);
            && t in r.active && !r.active[t] && t !in r.removing && t !in r.list && t !in r.queue && t !in r.inHand
            && r.list == s.list && r.queue == s.queue && r.log == s.log && r.deadline == s.deadline
            && (forall u | u in s.active && u != t :: u in r.active && r.active[u] == s.active[u])
  {
    hide Sorted, NotEarly, Held, Accounted, Without;
    KnownRemoving(s, t);
    UnmarkKnown(s, t);
    UnmarkPlaced(s, t);
    OnePlace(Unmark(s, t), t);
  }

  /** A timer with a callback goes to the end of the callback queue and stays active; one without is an event that
      has fired, and becomes inactive. */
  lemma {:induction false} ExpireExact(s: State)
    requires Valid(s) && Due(s)
    ensures var r, t := Expire(s), s.list[0];
            && r.list == s.list[1..] && r.now == s.now && r.deadline == s.deadline && r.ticket == s.ticket
            && (s.hasCallback[t] ==> r.queue == s.queue + [t] && r.active == s.active && r.log == s.log)
            && (!s.hasCallback[t] ==> r.queue == s.queue && t in r.active && !r.active[t]
                                      && r.log == s.log + [Fired(s.ticket[t], s.deadline[t], s.now)])
  {
    hide Placed, Sorted, NotEarly, Held, Accounted;
  }

  /** A tick only adds to the callback queue and to the log, and does not change who has a callback. */
  lemma {:induction false} TickGrows(s: State, passed: seq<nat>)
    requires Valid(s)
    ensures var r := CallTimers(s, passed);
            && s.queue <= r.queue && s.log <= r.log && r.hasCallback == s.hasCallback && r.ticket == s.ticket
            && r.deadline == s.deadline
    decreases |s.list|
  {
    hide Placed, Sorted, NotEarly, Held, Accounted;
    if s.list != [] {
      var s' := Later(s, First(passed));
      ClockKeeps(s, First(passed));
      if Due(s') {
        ExpireKeeps(s');
        ExpireExact(s');
        TickGrows(Expire(s'), Rest(passed));
      }
    }
  }

  /** Every timer that a tick takes off the list is queued for its callback, or has fired if it has none. */
  lemma {:induction false} TickWhere(s: State, passed: seq<nat>, i: nat)
    requires Valid(s) && i < |s.list| && s.list[i] !in CallTimers(s, passed).list
    ensures var r, t := CallTimers(s, passed), s.list[i];
            && (s.hasCallback[t] ==> t in r.queue)
            && (!s.hasCallback[t] ==>
                  exists j | |s.log| <= j < |r.log| :: r.log[j].Fired? && r.log[j].ticket == s.ticket[t])
    decreases |s.list|
  {
    hide Placed, Sorted, NotEarly, Held, Accounted;
    var s' := Later(s, First(passed));
    ClockKeeps(s, First(passed));
    if Due(s') {
      var e := Expire(s');
      ExpireKeeps(s');
      ExpireExact(s');
      TickGrows(e, Rest(passed));
      if i == 0 {
        TookFirst(s', e, CallTimers(e, Rest(passed)));
      } else {
        assert e.list[i - 1] == s.list[i];
        TickWhere(e, Rest(passed), i - 1);
      }
    }
  }

  lemma {:induction false} TookFirst(s: State, e: State, r: State)
    requires Known(s) && Due(s) && e == Expire(s) && e.queue <= r.queue && e.log <= r.log
    ensures s.hasCallback[s.list[0]] ==> s.list[0] in r.queue
    ensures !s.hasCallback[s.list[0]] ==>
              exists j | |s.log| <= j < |r.log| :: r.log[j].Fired? && r.log[j].ticket == s.ticket[s.list[0]]
  {
    var t := s.list[0];
    if s.hasCallback[t] {
      assert r.queue[|s.queue|] == t;
    } else {
      assert r.log[|s.log|] == Fired(s.ticket[t], s.deadline[t], s.now);
    }
  }

  /** The callback thread takes the timer that was queued first, and then marks and calls just that one. */
  lemma {:induction false} CallExact(s: State)
    requires Valid(s)
    ensures s.queue != [] && s.inHand == [] ==>
              Dequeue(s).inHand == [s.queue[0]] && Dequeue(s).queue == s.queue[1..] && Dequeue(s).log == s.log
    ensures s.inHand != [] ==>
              var r, t := Call(s), s.inHand[0];
              && r.inHand == [] && t in r.active && !r.active[t] && r.queue == s.queue && r.list == s.list
              && r.log == s.log + [Fired(s.ticket[t], s.deadline[t], s.now)]
              && forall u | u in s.active && u != t :: u in r.active && r.active[u] == s.active[u]
  {
    hide Placed, Sorted, NotEarly, Held, Accounted;
  }

  // ---------------------------------------------------------------- a removed timer does not fire

  lemma {:induction false} LogStep(s: State, step: Step)
    requires Valid(s) && Enabled(s, step)
    ensures s.log <= Next(s, step).log
  {
    hide Placed, Sorted, NotEarly, Held, Accounted, CallTimers, Without;
    if step.Tick? {
      TickGrows(s, step.spans);
    }
  }

  lemma {:induction false} LogGrows(ss: seq<State>, steps: seq<Step>, m: nat, n: nat)
    requires Run(ss, steps) && m <= n <= |steps|
    ensures ss[m].log <= ss[n].log
  {
    hide Valid, Known, Enabled, Next;
    if m < n {
      LogGrows(ss, steps, m, n - 1);
      assert StepAt(ss, steps, n - 1);
      RunValid(ss, steps, n - 1);
      LogStep(ss[n - 1], steps[n - 1]);
    }
  }

  /** Over every run, a scheduling whose timer is removed while it is on the list never fires. */
  lemma {:induction false} RemovedNeverFires(ss: seq<State>, steps: seq<Step>, m: nat, n: nat, i: nat)
    requires Run(ss, steps) && m < |steps| && n <= |steps| && i < |ss[n].log|
    requires steps[m].UnlinkTimer? && steps[m].t in ss[m].list
    ensures steps[m].t in ss[m].ticket
    ensures ss[n].log[i].Fired? ==> ss[n].log[i].ticket != ss[m].ticket[steps[m].t]
  {
    hide StepAt, Start;
    var t := steps[m].t;
    RunValid(ss, steps, m);
    assert StepAt(ss, steps, m);
    CancelLogged(ss, steps, m);
    var last := |ss[m].log|;
    var top := if n <= m then m + 1 else n;
    LogGrows(ss, steps, m + 1, top);
    LogGrows(ss, steps, n, top);
    RunValid(ss, steps, top);
    if ss[n].log[i].Fired? {
      assert ss[top].log[i] == ss[n].log[i] && ss[top].log[last] == Cancelled(ss[m].ticket[t]);
      LoggedOnce(ss[top], i, last);
    }
  }

  lemma {:induction false} CancelLogged(ss: seq<State>, steps: seq<Step>, m: nat)
    requires Run(ss, steps) && m < |steps| && steps[m].UnlinkTimer? && steps[m].t in ss[m].list
    ensures steps[m].t in ss[m].ticket && |ss[m + 1].log| == |ss[m].log| + 1
    ensures ss[m + 1].log[|ss[m].log|] == Cancelled(ss[m].ticket[steps[m].t])
  {
    hide Sorted, NotEarly, Held, Accounted, Placed, Start;
    RunValid(ss, steps, m);
    assert StepAt(ss, steps, m);
    UnlinkExact(ss[m], steps[m].t);
  }

  lemma {:induction false} LoggedOnce(s: State, i: nat, j: nat)
    requires Valid(s) && i < |s.log| && j < |s.log| && s.log[i] != s.log[j]
    ensures s.log[i].ticket != s.log[j].ticket
  {
    assert i < j || j < i;
  }
}
