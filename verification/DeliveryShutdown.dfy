/**
 Stop comes to an end: from every state of the service, whatever is queued, under way or parked, steps of workers,
 timers and Stop itself lead to a closed channel with all workers gone.  What was accepted has ended by then, except for
 what a consumer still holds.
 */
module DeliveryShutdown {
  import opened Prelude
  import opened CallbackLog
  import opened Delivery
  import opened DeliveryDrain
  import Gate = DeliveryGate
  import Account = DeliveryAccount
  import Outcomes = DeliveryOutcome
  import Service = DeliveryService

  /** Nothing is queued, under way or parked. */
  ghost predicate Quiet(s: State) {
    && s.ch == [] && (forall w: nat | w < |s.phases| :: !Gate.Busy(s.phases[w]))
    && (forall t: nat | t < |s.timers| :: s.timers[t].Gone?)
  }

  /** Under shutdown a failed attempt is dropped where it would have been parked. */
  lemma FlagShrinks(c: Config, s: State, v: nat)
    requires v < |s.phases| && s.phases[v].Retrying? && s.stop >= 1
    ensures Shrinks(c, s, LoadFlag(v))
  {
    hide Mass;
    assert OnlyPhase(s, Step(c, s, LoadFlag(v)), v);
    PhaseDrains(s, Step(c, s, LoadFlag(v)), v);
  }

  /** ... and a parked one when its timer fires. */
  lemma FireShrinks(c: Config, s: State, t: nat)
    requires t < |s.timers| && s.timers[t].Armed? && s.stop >= 1
    ensures Shrinks(c, s, Fire(t))
  {
    hide Total;
    TimerSet(s.timers, t, Ending);
  }

  lemma SomethingShrinks(c: Config, s: State) returns (a: Action)
    requires All(c, s) && s.stop >= 1 && c.cap >= 1 && |s.phases| >= 1 && !Quiet(s)
    ensures Shrinks(c, s, a)
  {
    hide Shrinks, Step;
    if w: nat :| w < |s.phases| && Gate.Busy(s.phases[w]) {
      Gate.NeverStuck(c, s, w);
      hide Gate.Inv, Outcomes.Inv, Service.Sound, Gate.Waiting;
      var v: nat :| v < |s.phases| && Gate.Busy(s.phases[v]) && !Gate.Waiting(s, v);
      if s.phases[v].Retrying? {
        FlagShrinks(c, s, v);
        a := LoadFlag(v);
      } else {
        BusyDrains(c, s, v);
        a := Forward(s, v);
      }
    } else if s.ch != [] {
      TakeOne(c, s);
      a := Take(0);
    } else {
      var t: nat :| t < |s.timers| && !s.timers[t].Gone?;
      a := TimerShrinks(c, s, t);
    }
  }

  /** No worker leaves while something is queued. */
  lemma TakeOne(c: Config, s: State)
    requires All(c, s) && s.ch != [] && |s.phases| >= 1 && forall w: nat | w < |s.phases| :: !Gate.Busy(s.phases[w])
    ensures Shrinks(c, s, Take(0))
  {
    assert s.phases[0].Idle?;
    hide Gate.Inv, Outcomes.Inv, Service.Sound, Shrinks, Step;
    TakeDrains(c, s, 0);
  }

  lemma TimerShrinks(c: Config, s: State, t: nat) returns (a: Action)
    requires All(c, s) && s.stop >= 1 && c.cap >= 1 && s.ch == [] && t < |s.timers| && !s.timers[t].Gone?
    ensures Shrinks(c, s, a)
  {
    NoneSendsLate(c, s);
    hide Gate.Inv, Outcomes.Inv, Service.Sound, Shrinks, Step;
    match s.timers[t] {
      case Armed(_) =>
        FireShrinks(c, s, t);
        a := Fire(t);
      case Sending(_) =>
        TimerSendDrains(c, s, t);
        a := TimerSend(t);
      case Ending =>
        TimerDrains(c, s, t);
        a := TimerEnd(t);
    }
  }

  lemma NoneSendsLate(c: Config, s: State)
    requires Outcomes.Inv(c, s)
    ensures s.stop <= 3 && !s.panicked && forall t: nat | t < |s.timers| && s.timers[t].Sending? :: s.stop < 2
  {
    hide Account.Places, Account.Jobs, Outcomes.DedupOk;
  }

  lemma {:induction false} Quieten(c: Config, s: State) returns (more: seq<Action>)
    requires All(c, s) && s.stop >= 1 && c.cap >= 1 && |s.phases| >= 1
    ensures forall a | a in more :: !a.Publish?
    ensures var s' := RunFrom(c, s, more);
            All(c, s') && Quiet(s') && s'.stop == s.stop && s'.log == s.log && |s'.phases| == |s.phases|
    decreases Mass(s)
  {
    hide All, Step, Mass, Quiet;
    if Quiet(s) {
      more := [];
    } else {
      var a := SomethingShrinks(c, s);
      AllKept(c, s, a);
      var rest := Quieten(c, Step(c, s, a));
      more := [a] + rest;
      assert more[1..] == rest;
    }
  }

  // ---------------------------------------------------------------- Stop

  lemma {:induction false} NoneLive(timers: seq<Timer>)
    requires forall t: nat | t < |timers| :: timers[t].Gone?
    ensures Outcomes.Live(timers) == 0
  {
    if timers == [] {
    } else {
      NoneLive(timers[..|timers| - 1]);
    }
  }

  /** With nothing left to wait for, Stop waits and closes. */
  lemma StopGoesOn(c: Config, s: State)
    requires All(c, s) && Quiet(s) && s.stop >= 1
    ensures var s' := Step(c, Step(c, s, StopWait), StopClose);
            All(c, s') && Quiet(s') && s'.stop == 3 && s'.log == s.log && |s'.phases| == |s.phases|
  {
    hide All, Step, Quiet;
    AllKept(c, s, StopWait);
    AllKept(c, Step(c, s, StopWait), StopClose);
    WaitGroup(c, s);
    StopOnly(c, s, StopWait);
    StopOnly(c, Step(c, s, StopWait), StopClose);
  }

  /** A step of Stop moves Stop on. */
  lemma StopOnly(c: Config, s: State, a: Action)
    requires a.StopFlag? || a.StopWait? || a.StopClose?
    ensures var s' := Step(c, s, a);
            && (Quiet(s) ==> Quiet(s')) && s'.log == s.log && s'.phases == s.phases && s'.timerWg == s.timerWg
            && s'.stop == match a
                          case StopFlag => if s.stop == 0 then 1 else s.stop
                          case StopWait => if s.stop == 1 && s.timerWg == 0 then 2 else s.stop
                          case _ => if s.stop == 2 then 3 else s.stop
  {
  }

  lemma WaitGroup(c: Config, s: State)
    requires All(c, s) && Quiet(s)
    ensures s.timerWg == 0 && s.stop <= 3
  {
    hide Account.Places, Account.Jobs, Outcomes.DedupOk, Gate.Inv, Service.Sound;
    NoneLive(s.timers);
  }

  /** Then the workers leave, one after the other. */
  lemma {:induction false} AllLeave(c: Config, s: State, n: nat) returns (more: seq<Action>)
    requires All(c, s) && Quiet(s) && s.stop == 3 && n <= |s.phases|
    requires forall w: nat | w < n :: s.phases[w].Exited?
    ensures forall a | a in more :: !a.Publish?
    ensures var s' := RunFrom(c, s, more);
            && All(c, s') && Quiet(s') && s'.stop == 3 && s'.log == s.log
            && |s'.phases| == |s.phases| && forall w: nat | w < |s'.phases| :: s'.phases[w].Exited?
    decreases |s.phases| - n
  {
    hide All;
    if n == |s.phases| {
      more := [];
    } else {
      AllKept(c, s, Exit(n));
      OneLeaves(c, s, n);
      hide Step, Quiet;
      var rest := AllLeave(c, Step(c, s, Exit(n)), n + 1);
      more := [Exit(n)] + rest;
      assert more[1..] == rest;
    }
  }

  lemma OneLeaves(c: Config, s: State, n: nat)
    requires Quiet(s) && s.stop == 3 && n < |s.phases|
    ensures var s' := Step(c, s, Exit(n));
            && Quiet(s') && s'.stop == 3 && s'.log == s.log && |s'.phases| == |s.phases| && s'.phases[n].Exited?
            && forall w: nat | w < |s.phases| && w != n :: s'.phases[w] == s.phases[w]
  {
  }

  lemma {:induction false} RunFromAppend(c: Config, s: State, a: seq<Action>, b: seq<Action>)
    ensures RunFrom(c, s, a + b) == RunFrom(c, RunFrom(c, s, a), b)
    decreases |a|
  {
    hide Step;
    if a == [] {
      assert a + b == b;
    } else {
      assert (a + b)[1..] == a[1..] + b;
      RunFromAppend(c, Step(c, s, a[0]), a[1..], b);
    }
  }

  lemma TwoSteps(c: Config, s: State, a: Action, b: Action)
    ensures RunFrom(c, s, [a]) == Step(c, s, a) && RunFrom(c, s, [a, b]) == Step(c, Step(c, s, a), b)
  {
    hide Step;
    assert [a][1..] == [] && [b][1..] == [] && [a, b][1..] == [b];
    assert RunFrom(c, Step(c, s, a), [b]) == RunFrom(c, Step(c, Step(c, s, a), b), []);
  }

  /** The whole of Stop, from wherever the service is. */
  lemma StopEnds(c: Config, s: State) returns (more: seq<Action>)
    requires All(c, s) && c.cap >= 1 && |s.phases| >= 1
    ensures forall a | a in more :: !a.Publish?
    ensures var s' := RunFrom(c, s, more);
            && All(c, s') && Quiet(s') && s'.stop == 3 && s'.log == s.log
            && |s'.phases| == |s.phases| && forall w: nat | w < |s'.phases| :: s'.phases[w].Exited?
  {
    hide All, Step, Quiet, RunFrom;
    AllKept(c, s, StopFlag);
    StopOnly(c, s, StopFlag);
    var s1 := Step(c, s, StopFlag);
    var m1 := Quieten(c, s1);
    var s2 := RunFrom(c, s1, m1);
    StopGoesOn(c, s2);
    TwoSteps(c, s2, StopWait, StopClose);
    var s3 := RunFrom(c, s2, [StopWait, StopClose]);
    var m2 := AllLeave(c, s3, 0);
    TwoSteps(c, s, StopFlag, StopFlag);
    more := [StopFlag] + (m1 + ([StopWait, StopClose] + m2));
    RunFromAppend(c, s, [StopFlag], m1 + ([StopWait, StopClose] + m2));
    RunFromAppend(c, s1, m1, [StopWait, StopClose] + m2);
    RunFromAppend(c, s2, [StopWait, StopClose], m2);
  }

  /** When nothing is left under way, what was accepted is with a consumer or has ended. */
  lemma QuietMeansEnded(c: Config, s: State, id: Id)
    requires Outcomes.Inv(c, s) && Quiet(s) && Outcomes.AcceptedId(s, id)
    ensures (exists i: nat :: i < |s.finished| && s.finished[i].id == id)
            || (exists p: nat :: p < |s.pending| && s.pending[p] == Some(id))
  {
    hide Account.Jobs, Outcomes.Tallied, Outcomes.DedupOk;
    assert id in s.place;
    match s.place[id] {
      case Final(o) =>
        assert End(id, o) in s.finished;
      case Pending(p) =>
        assert p < |s.pending| && s.pending[p] == Some(id);
      case _ => assert false;
    }
  }
}
