/**
 What the delivery service gets done: from every state of a running service all messages of the topic can be brought to
 their end, by steps of consumers, workers and timers alone, and none of them is given up on the way.
 */
module DeliveryDrain {
  import opened Prelude
  import opened CallbackLog
  import opened Delivery
  import Gate = DeliveryGate
  import Account = DeliveryAccount
  import Outcomes = DeliveryOutcome
  import Service = DeliveryService

  // ---------------------------------------------------------------- the work that is left

  function Total(ws: seq<nat>): nat {
    if ws == [] then 0 else Total(ws[..|ws| - 1]) + ws[|ws| - 1]
  }

  lemma {:induction false} TotalSet(ws: seq<nat>, i: nat, v: nat)
    requires i < |ws|
    ensures Total(ws[i := v]) + ws[i] == Total(ws) + v
  {
    var n := |ws| - 1;
    if i == n {
      assert ws[i := v][..n] == ws[..n];
    } else {
      TotalSet(ws[..n], i, v);
      assert ws[i := v][..n] == ws[..n][i := v];
    }
  }

  lemma TotalSnoc(ws: seq<nat>, v: nat)
    ensures Total(ws + [v]) == Total(ws) + v
  {
    assert (ws + [v])[..|ws|] == ws;
  }

  lemma {:induction false} TotalZero(ws: seq<nat>)
    requires forall i | 0 <= i < |ws| :: ws[i] == 0
    ensures Total(ws) == 0
  {
    if ws == [] {
    } else {
      TotalZero(ws[..|ws| - 1]);
    }
  }

  /** How far a worker is from being idle, in steps of the message it holds. */
  function PhaseWeight(p: Phase): nat {
    match p
    case Idle => 0
    case Exited => 0
    case Returning => 1
    case InFlight(_) => 14
    case Posting(_) => 15
    case Checking(_) => 16
    case Deleting(_) => 17
    case AtGate(_) => 18
    case Arming(_) => 24
    case Retrying(_) => 25
  }

  function TimerWeight(t: Timer): nat {
    match t
    case Gone => 0
    case Ending => 1
    case Sending(_) => 21
    case Armed(_) => 22
  }

  function PhaseWeights(phases: seq<Phase>): seq<nat> {
    seq(|phases|, i requires 0 <= i < |phases| => PhaseWeight(phases[i]))
  }

  function TimerWeights(timers: seq<Timer>): seq<nat> {
    seq(|timers|, i requires 0 <= i < |timers| => TimerWeight(timers[i]))
  }

  function PendingWeights(pending: seq<Option<Id>>): seq<nat> {
    seq(|pending|, i requires 0 <= i < |pending| => if pending[i].Some? then 20 else 0)
  }

  function Backlog(log: Log, pos: seq<nat>): seq<nat> {
    seq(|pos|, p requires 0 <= p < |pos| => if p < |log| && pos[p] <= |log[p]| then 21 * (|log[p]| - pos[p]) else 0)
  }

  function Mass(s: State): nat {
    Total(Backlog(s.log, s.pos)) + Total(PendingWeights(s.pending)) + 19 * |s.ch| + Total(PhaseWeights(s.phases))
    + Total(TimerWeights(s.timers))
  }

  lemma PhaseSet(phases: seq<Phase>, w: nat, p: Phase)
    requires w < |phases|
    ensures Total(PhaseWeights(phases[w := p])) + PhaseWeight(phases[w]) == Total(PhaseWeights(phases)) + PhaseWeight(p)
  {
    TotalSet(PhaseWeights(phases), w, PhaseWeight(p));
    assert PhaseWeights(phases[w := p]) == PhaseWeights(phases)[w := PhaseWeight(p)];
  }

  lemma TimerSet(timers: seq<Timer>, t: nat, to: Timer)
    requires t < |timers|
    ensures Total(TimerWeights(timers[t := to])) + TimerWeight(timers[t]) ==
            Total(TimerWeights(timers)) + TimerWeight(to)
  {
    TotalSet(TimerWeights(timers), t, TimerWeight(to));
    assert TimerWeights(timers[t := to]) == TimerWeights(timers)[t := TimerWeight(to)];
  }

  lemma TimerSnoc(timers: seq<Timer>, to: Timer)
    ensures Total(TimerWeights(timers + [to])) == Total(TimerWeights(timers)) + TimerWeight(to)
  {
    TotalSnoc(TimerWeights(timers), TimerWeight(to));
    assert TimerWeights(timers + [to]) == TimerWeights(timers) + [TimerWeight(to)];
  }

  lemma PendingSet(pending: seq<Option<Id>>, p: nat, to: Option<Id>)
    requires p < |pending|
    ensures Total(PendingWeights(pending[p := to])) + (if pending[p].Some? then 20 else 0)
         == Total(PendingWeights(pending)) + if to.Some? then 20 else 0
  {
    var v := if to.Some? then 20 else 0;
    TotalSet(PendingWeights(pending), p, v);
    assert PendingWeights(pending[p := to]) == PendingWeights(pending)[p := v];
  }

  lemma BacklogNext(log: Log, pos: seq<nat>, p: nat)
    requires p < |pos| && p < |log| && pos[p] < |log[p]|
    ensures Total(Backlog(log, pos[p := pos[p] + 1])) + 21 == Total(Backlog(log, pos))
  {
    var v := 21 * (|log[p]| - pos[p] - 1);
    TotalSet(Backlog(log, pos), p, v);
    assert Backlog(log, pos[p := pos[p] + 1]) == Backlog(log, pos)[p := v];
  }

  // ---------------------------------------------------------------- every step takes some away

  /** A step that only moves a worker on. */
  ghost predicate OnlyPhase(s: State, s': State, v: nat) {
    && s'.log == s.log && s'.pos == s.pos && s'.pending == s.pending && s'.ch == s.ch && s'.timers == s.timers
    && s'.stop == s.stop
    && v < |s.phases| && s'.phases == s.phases[v := if v < |s'.phases| then s'.phases[v] else Idle]
    && PhaseWeight(s'.phases[v]) < PhaseWeight(s.phases[v])
  }

  /** Nothing ends, or one message is delivered or found to have been. */
  ghost predicate EndsWell(s: State, s': State) {
    || s'.finished == s.finished
    || (s'.finished != [] && s'.finished == s.finished + [s'.finished[|s'.finished| - 1]]
        && (s'.finished[|s'.finished| - 1].outcome == Delivered || s'.finished[|s'.finished| - 1].outcome == Deduped))
  }

  lemma PhaseDrains(s: State, s': State, v: nat)
    requires OnlyPhase(s, s', v)
    ensures Mass(s') < Mass(s)
  {
    hide Total;
    PhaseSet(s.phases, v, s'.phases[v]);
  }

  /** The next step of a busy worker, with the network and the stores working. */
  function Forward(s: State, v: nat): Action
    requires v < |s.phases|
  {
    if s.phases[v].InFlight? then PostSucceeds(v, true) else Gate.NextAction(s, v)
  }

  lemma PassDrains(c: Config, s: State, v: nat)
    requires v < |s.phases| && (s.phases[v].AtGate? || s.phases[v].Deleting?) && !Gate.Waiting(s, v)
    ensures OnlyPhase(s, Step(c, s, Forward(s, v)), v) && EndsWell(s, Step(c, s, Forward(s, v)))
  {
    hide MsgAt;
  }

  lemma CheckDrains(c: Config, s: State, v: nat)
    requires v < |s.phases| && s.phases[v].Checking?
    ensures OnlyPhase(s, Step(c, s, Forward(s, v)), v) && EndsWell(s, Step(c, s, Forward(s, v)))
  {
    hide MsgAt, DedupKeyOf;
  }

  lemma PostDrains(c: Config, s: State, v: nat)
    requires v < |s.phases| && (s.phases[v].Posting? || s.phases[v].InFlight?) && s.phases[v].id in s.jobs
    ensures OnlyPhase(s, Step(c, s, Forward(s, v)), v) && EndsWell(s, Step(c, s, Forward(s, v)))
  {
    hide MsgAt, DedupKeyOf;
  }

  lemma FlagDrains(c: Config, s: State, v: nat)
    requires v < |s.phases| && s.phases[v].Retrying? && s.stop == 0
    ensures OnlyPhase(s, Step(c, s, Forward(s, v)), v) && EndsWell(s, Step(c, s, Forward(s, v)))
  {
  }

  lemma ReturnDrains(c: Config, s: State, v: nat)
    requires v < |s.phases| && v < |s.owes| && s.phases[v].Returning?
    ensures OnlyPhase(s, Step(c, s, Forward(s, v)), v) && EndsWell(s, Step(c, s, Forward(s, v)))
  {
    hide MsgAt;
  }

  lemma ArmDrains(c: Config, s: State, v: nat)
    requires v < |s.phases| && s.phases[v].Arming?
    ensures var s' := Step(c, s, Forward(s, v)); Mass(s') < Mass(s) && s'.stop == s.stop && EndsWell(s, s')
  {
    hide Total;
    var id := s.phases[v].id;
    PhaseSet(s.phases, v, Returning);
    TimerSnoc(s.timers, Armed(id));
  }

  ghost predicate All(c: Config, s: State) {
    Gate.Inv(c, s) && Outcomes.Inv(c, s) && Service.Sound(c, s)
  }

  /** A step that is no publication keeps everything. */
  lemma AllKept(c: Config, s: State, a: Action)
    requires All(c, s) && !a.Publish?
    ensures All(c, Step(c, s, a)) && |Step(c, s, a).phases| == |s.phases|
  {
    hide Gate.Inv, Outcomes.Inv, Service.Sound, Step;
    Gate.StepKeepsInv(c, s, a);
    Outcomes.StepKeepsInv(c, s, a);
    Service.StepSound(c, s, a);
  }

  /** Some work is done and nothing is published. */
  ghost predicate Shrinks(c: Config, s: State, a: Action) {
    var s' := Step(c, s, a);
    !a.Publish? && Mass(s') < Mass(s) && s'.stop == s.stop && s'.log == s.log
  }

  /** ... and no message is given up. */
  ghost predicate Drains(c: Config, s: State, a: Action) {
    Shrinks(c, s, a) && EndsWell(s, Step(c, s, a))
  }

  lemma BusyDrains(c: Config, s: State, v: nat)
    requires Gate.Inv(c, s) && v < |s.phases| && Gate.Busy(s.phases[v]) && !Gate.Waiting(s, v)
    requires s.phases[v].Retrying? ==> s.stop == 0
    ensures Drains(c, s, Forward(s, v))
  {
    GateFacts(c, s, v);
    hide Gate.Inv, Step, Mass, Gate.Waiting, EndsWell;
    var s' := Step(c, s, Forward(s, v));
    match s.phases[v] {
      case Returning => ReturnDrains(c, s, v); PhaseDrains(s, s', v);
      case Checking(_) => CheckDrains(c, s, v); PhaseDrains(s, s', v);
      case Posting(_) => PostDrains(c, s, v); PhaseDrains(s, s', v);
      case InFlight(_) => PostDrains(c, s, v); PhaseDrains(s, s', v);
      case Retrying(_) => FlagDrains(c, s, v); PhaseDrains(s, s', v);
      case Arming(_) => ArmDrains(c, s, v); ArmKeepsLog(c, s, v);
      case _ => PassDrains(c, s, v); PhaseDrains(s, s', v);
    }
  }

  lemma ArmKeepsLog(c: Config, s: State, v: nat)
    requires v < |s.phases| && s.phases[v].Arming?
    ensures Step(c, s, Forward(s, v)).log == s.log
  {
  }

  lemma GateFacts(c: Config, s: State, v: nat)
    requires Gate.Inv(c, s) && v < |s.phases|
    ensures v < |s.owes| && (Holds(s.phases[v]).Some? ==> Holds(s.phases[v]).value in s.jobs)
  {
    hide Gate.LogOk, Gate.FifoOk, Gate.RetryOk, Gate.GateOk, Gate.OwedOk, Gate.EventsOk, Gate.PassedOk, Gate.PosOk,
      Gate.BeyondOk;
    if Holds(s.phases[v]).Some? {
      assert Gate.TakenJob(s.jobs, s.taken, Holds(s.phases[v]).value);
    }
  }

  /** An idle worker takes from the channel. */
  lemma TakeDrains(c: Config, s: State, w: nat)
    requires Gate.Inv(c, s) && w < |s.phases| && s.phases[w].Idle? && s.ch != []
    ensures Drains(c, s, Take(w))
  {
    hide Gate.Inv, Total, MsgAt, PhaseWeights, TimerWeights, PendingWeights, Backlog;
    GateFacts(c, s, w);
    HeadFacts(c, s);
    PhaseSet(s.phases, w, AtGate(s.ch[0]));
  }

  lemma HeadFacts(c: Config, s: State)
    requires Gate.Inv(c, s) && s.ch != []
    ensures s.ch[0] in s.jobs && s.ch[0].part < |s.taken|
  {
    hide Gate.LogOk, Gate.FifoOk, Gate.GateOk, Gate.OwedOk, Gate.EventsOk, Gate.PassedOk, Gate.PosOk, Gate.HeldOk,
      Gate.BeyondOk, Gate.TieOk;
    assert s.ch[0] in s.ch;
  }

  lemma TimerDrains(c: Config, s: State, t: nat)
    requires t < |s.timers| && ((s.timers[t].Armed? && s.stop == 0) || s.timers[t].Ending?)
    ensures Drains(c, s, if s.timers[t].Armed? then Fire(t) else TimerEnd(t))
  {
    hide Total;
    TimerSet(s.timers, t, if s.timers[t].Armed? then Sending(s.timers[t].id) else Gone);
  }

  lemma TimerSendDrains(c: Config, s: State, t: nat)
    requires t < |s.timers| && s.stop < 3 && s.timers[t].Sending? && |s.ch| < c.cap
    ensures Drains(c, s, TimerSend(t))
  {
    hide Total;
    TimerSet(s.timers, t, Ending);
  }

  lemma SendDrains(c: Config, s: State, p: nat)
    requires p < |s.pending| && s.stop == 0 && s.pending[p].Some? && |s.ch| < c.cap
    ensures Drains(c, s, Send(p))
  {
    hide Total;
    PendingSet(s.pending, p, None);
  }

  lemma AcceptDrains(c: Config, s: State, p: nat)
    requires p < |s.pos| && p < |s.pending| && p < |s.log| && s.pos[p] < |s.log[p]| && s.pending[p].None?
    ensures Drains(c, s, Accept(p))
  {
    hide Total;
    BacklogNext(s.log, s.pos, p);
    PendingSet(s.pending, p, Some(Id(p, s.pos[p])));
  }

  // ---------------------------------------------------------------- until nothing is left

  /** Everything is accepted, nothing is under way. */
  ghost predicate Drained(s: State) {
    && |s.pos| == |s.log| && (forall p: nat | p < |s.pos| :: s.pos[p] >= |s.log[p]|)
    && (forall p: nat | p < |s.pending| :: s.pending[p].None?)
    && s.ch == []
    && (forall w: nat | w < |s.phases| :: s.phases[w].Idle?)
    && (forall t: nat | t < |s.timers| :: s.timers[t].Gone?)
  }

  /** As long as something is left, some step takes some of it away. */
  lemma SomethingDrains(c: Config, s: State) returns (a: Action)
    requires All(c, s) && s.stop == 0 && c.cap >= 1 && |s.phases| >= 1 && !Drained(s)
    ensures Drains(c, s, a)
  {
    hide Drains;
    if w: nat :| w < |s.phases| && Gate.Busy(s.phases[w]) {
      Gate.NeverStuck(c, s, w);
      hide Gate.Inv, Outcomes.Inv, Service.Sound, Gate.Waiting;
      var v: nat :| v < |s.phases| && Gate.Busy(s.phases[v]) && !Gate.Waiting(s, v);
      BusyDrains(c, s, v);
      a := Forward(s, v);
    } else {
      a := RestDrains(c, s);
    }
  }

  /** The same when no worker is busy: they are all idle, since the service runs. */
  lemma RestDrains(c: Config, s: State) returns (a: Action)
    requires All(c, s) && s.stop == 0 && c.cap >= 1 && |s.phases| >= 1 && !Drained(s)
    requires forall w: nat | w < |s.phases| :: !Gate.Busy(s.phases[w])
    ensures Drains(c, s, a)
  {
    assert forall w: nat | w < |s.phases| :: s.phases[w].Idle?;
    PosFacts(c, s);
    hide Gate.Inv, Outcomes.Inv, Service.Sound, Drains;
    if s.ch != [] {
      TakeDrains(c, s, 0);
      a := Take(0);
    } else if t: nat :| t < |s.timers| && !s.timers[t].Gone? {
      if s.timers[t].Sending? {
        TimerSendDrains(c, s, t);
        a := TimerSend(t);
      } else {
        TimerDrains(c, s, t);
        a := if s.timers[t].Armed? then Fire(t) else TimerEnd(t);
      }
    } else if p: nat :| p < |s.pending| && s.pending[p].Some? {
      SendDrains(c, s, p);
      a := Send(p);
    } else {
      var p: nat :| p < |s.pos| && s.pos[p] < |s.log[p]|;
      AcceptDrains(c, s, p);
      a := Accept(p);
    }
  }

  lemma PosFacts(c: Config, s: State)
    requires Gate.Inv(c, s)
    ensures |s.pos| == |s.log| == |s.pending|
  {
    hide Gate.LogOk, Gate.FifoOk, Gate.RetryOk, Gate.GateOk, Gate.OwedOk, Gate.EventsOk, Gate.PassedOk, Gate.HeldOk,
      Gate.BeyondOk, Gate.TieOk;
  }

  /** The messages that end from `s` to `s'` are delivered or found to have been. */
  ghost predicate NoneGivenUp(s: State, s': State) {
    && |s.finished| <= |s'.finished| && s'.finished[..|s.finished|] == s.finished
    && forall i | |s.finished| <= i < |s'.finished| ::
         s'.finished[i].outcome == Delivered || s'.finished[i].outcome == Deduped
  }

  lemma NothingGivenUp(s: State)
    ensures NoneGivenUp(s, s)
  {
  }

  lemma NoneGivenUpStep(s: State, s1: State, s': State)
    requires EndsWell(s, s1) && NoneGivenUp(s1, s')
    ensures NoneGivenUp(s, s')
  {
    if s1.finished != s.finished {
      var n := |s.finished|;
      assert s1.finished[..n] == s.finished;
      assert s'.finished[..n] == s'.finished[..n + 1][..n];
      assert s'.finished[n] == s'.finished[..n + 1][n];
    }
  }

  lemma {:induction false} Drain(c: Config, s: State) returns (more: seq<Action>)
    requires All(c, s) && s.stop == 0 && c.cap >= 1 && |s.phases| >= 1
    ensures forall a | a in more :: !a.Publish?
    ensures var s' := RunFrom(c, s, more);
            All(c, s') && Drained(s') && s'.stop == 0 && s'.log == s.log && NoneGivenUp(s, s')
    decreases Mass(s)
  {
    hide All, Step, Mass, Drained, EndsWell, NoneGivenUp;
    if Drained(s) {
      more := [];
      NothingGivenUp(s);
    } else {
      var a := SomethingDrains(c, s);
      AllKept(c, s, a);
      var s1 := Step(c, s, a);
      var rest := Drain(c, s1);
      more := [a] + rest;
      assert more[1..] == rest;
      NoneGivenUpStep(s, s1, RunFrom(c, s1, rest));
    }
  }

  /** When nothing is left, every message of the topic has ended. */
  lemma DrainedMeansEnded(c: Config, s: State, id: Id)
    requires Outcomes.Inv(c, s) && Drained(s) && InLog(s.log, id)
    ensures exists i: nat :: i < |s.finished| && s.finished[i].id == id
  {
    hide Account.Jobs, Outcomes.Tallied, Outcomes.DedupOk;
    assert id in s.place;
    match s.place[id] {
      case Final(o) =>
        assert End(id, o) in s.finished;
      case _ => assert false;
    }
  }

  // ---------------------------------------------------------------- a failed attempt is tried again

  /**
   A failed attempt with retries left goes back into the channel: the worker schedules it, its timer fires and sends,
   and the message stands at the end of the channel with RetryCount one higher.
   */
  lemma RetryReturns(c: Config, s: State, w: nat)
    requires w < |s.phases| && s.phases[w].InFlight? && s.phases[w].id in s.jobs && s.stop == 0 && |s.ch| < c.cap
    requires s.jobs[s.phases[w].id].retry < c.maxRetries
    ensures var id, t := s.phases[w].id, |s.timers|;
            var s' := RunFrom(c, s, [PostFails(w), LoadFlag(w), Arm(w), Fire(t), TimerSend(t)]);
            && s'.ch == s.ch + [id] && id in s'.jobs && s'.jobs[id].retry == s.jobs[id].retry + 1
            && s'.finished == s.finished && s'.stop == 0
  {
    hide Step;
    var id, t := s.phases[w].id, |s.timers|;
    var s1 := Step(c, s, PostFails(w));
    var s2 := Step(c, s1, LoadFlag(w));
    var s3 := Step(c, s2, Arm(w));
    FailedIsRetrying(c, s, w);
    RetryingIsArmed(c, s1, w);
    ArmedIsSent(c, s3, t);
    FiveSteps(c, s, PostFails(w), LoadFlag(w), Arm(w), Fire(t), TimerSend(t));
  }

  /** So does a message whose dedup check fails, however often it was retried: it is not posted unchecked. */
  lemma UncheckedReturns(c: Config, s: State, w: nat)
    requires w < |s.phases| && s.phases[w].Checking? && s.phases[w].id in s.jobs && s.stop == 0 && |s.ch| < c.cap
    requires DedupKeyOf(c, MsgAt(s.log, s.phases[w].id)).Some?
    ensures var id, t := s.phases[w].id, |s.timers|;
            var s' := RunFrom(c, s, [CheckFails(w), LoadFlag(w), Arm(w), Fire(t), TimerSend(t)]);
            && s'.ch == s.ch + [id] && id in s'.jobs && s'.jobs[id].retry == s.jobs[id].retry + 1
            && s'.jobs[id].attempts == s.jobs[id].attempts && s'.finished == s.finished && s'.stop == 0
  {
    hide Step, DedupKeyOf, MsgAt;
    var t := |s.timers|;
    var s1 := Step(c, s, CheckFails(w));
    UncheckedIsRetrying(c, s, w);
    RetryingIsArmed(c, s1, w);
    ArmedIsSent(c, Step(c, Step(c, s1, LoadFlag(w)), Arm(w)), t);
    FiveSteps(c, s, CheckFails(w), LoadFlag(w), Arm(w), Fire(t), TimerSend(t));
  }

  lemma UncheckedIsRetrying(c: Config, s: State, w: nat)
    requires w < |s.phases| && s.phases[w].Checking? && s.phases[w].id in s.jobs
    requires DedupKeyOf(c, MsgAt(s.log, s.phases[w].id)).Some?
    ensures var id, s' := s.phases[w].id, Step(c, s, CheckFails(w));
            && w < |s'.phases| && s'.phases[w] == Retrying(id) && s'.ch == s.ch && s'.stop == s.stop
            && s'.timers == s.timers && s'.finished == s.finished
            && id in s'.jobs && s'.jobs[id].retry == s.jobs[id].retry + 1
            && s'.jobs[id].attempts == s.jobs[id].attempts
  {
    hide DedupKeyOf, MsgAt;
  }

  lemma FailedIsRetrying(c: Config, s: State, w: nat)
    requires w < |s.phases| && s.phases[w].InFlight? && s.phases[w].id in s.jobs
    requires s.jobs[s.phases[w].id].retry < c.maxRetries
    ensures var id, s' := s.phases[w].id, Step(c, s, PostFails(w));
            && w < |s'.phases| && s'.phases[w] == Retrying(id) && s'.ch == s.ch && s'.stop == s.stop
            && s'.timers == s.timers && s'.finished == s.finished
            && id in s'.jobs && s'.jobs[id].retry == s.jobs[id].retry + 1
  {
  }

  lemma RetryingIsArmed(c: Config, s: State, w: nat)
    requires w < |s.phases| && s.phases[w].Retrying? && s.stop == 0
    ensures var s' := Step(c, Step(c, s, LoadFlag(w)), Arm(w));
            && s'.timers == s.timers + [Armed(s.phases[w].id)] && s'.ch == s.ch && s'.stop == 0
            && s'.jobs == s.jobs && s'.finished == s.finished
  {
  }

  lemma ArmedIsSent(c: Config, s: State, t: nat)
    requires t < |s.timers| && s.timers[t].Armed? && s.stop == 0 && |s.ch| < c.cap
    ensures var s' := Step(c, Step(c, s, Fire(t)), TimerSend(t));
            && s'.ch == s.ch + [s.timers[t].id] && s'.jobs == s.jobs && s'.finished == s.finished && s'.stop == 0
  {
  }

  lemma FiveSteps(c: Config, s: State, a1: Action, a2: Action, a3: Action, a4: Action, a5: Action)
    ensures RunFrom(c, s, [a1, a2, a3, a4, a5]) == Step(c, Step(c, Step(c, Step(c, Step(c, s, a1), a2), a3), a4), a5)
  {
    hide Step;
    var s1 := Step(c, s, a1);
    var s2 := Step(c, s1, a2);
    var s3 := Step(c, s2, a3);
    var s4 := Step(c, s3, a4);
    assert [a1, a2, a3, a4, a5][1..] == [a2, a3, a4, a5] && [a2, a3, a4, a5][1..] == [a3, a4, a5];
    assert [a3, a4, a5][1..] == [a4, a5] && [a4, a5][1..] == [a5] && [a5][1..] == [];
    assert RunFrom(c, s4, [a5]) == RunFrom(c, Step(c, s4, a5), []);
    assert RunFrom(c, s3, [a4, a5]) == RunFrom(c, s4, [a5]);
    assert RunFrom(c, s2, [a3, a4, a5]) == RunFrom(c, s3, [a4, a5]);
    assert RunFrom(c, s1, [a2, a3, a4, a5]) == RunFrom(c, s2, [a3, a4, a5]);
  }
}
