/**
 What it means that a first attempt is done: the message has ended, or it has been scheduled for a retry. So when a
 BLOCK_PROCESSED is posted, no STUMP of its block and URL is still in its first attempt.
 */
module DeliveryFirst {
  import opened Prelude
  import opened CallbackLog
  import opened Delivery
  import opened DeliveryAccount
  import Gate = DeliveryGate

  /** The first attempt of a message is over. */
  ghost predicate Over(jobs: map<Id, Job>, place: map<Id, Place>, id: Id) {
    id in jobs && id in place && (jobs[id].retry > 0 || place[id].Final?)
  }

  /** What is marked done is over, and so is what a worker on its way out still owes. */
  ghost predicate OverOk(s: State) {
    && (forall id | id in s.done :: Over(s.jobs, s.place, id))
    && (forall w: nat | w < |s.phases| && w < |s.owes| && s.phases[w].Returning? && s.owes[w].Some? ::
          Over(s.jobs, s.place, s.owes[w].value))
  }

  /** No job's RetryCount goes back, and what has ended stays ended. */
  ghost predicate Forth(s: State, s': State) {
    forall id | id in s.jobs && id in s.place ::
      && id in s'.jobs && id in s'.place && s'.jobs[id].retry >= s.jobs[id].retry
      && (s.place[id].Final? ==> s'.place[id].Final?)
  }

  /** Which first attempts a step ends: at most what worker `w` owed when it was on its way out. */
  ghost predicate Closes(s: State, s': State, w: nat) {
    && |s'.phases| == |s.phases| && |s'.owes| == |s.owes|
    && (forall v: nat | v < |s.phases| && v < |s.owes| && v != w ::
          s'.phases[v] == s.phases[v] && s'.owes[v] == s.owes[v])
    && (s'.done == s.done
        || (w < |s.phases| && w < |s.owes| && s.phases[w].Returning? && s.owes[w].Some?
            && s'.done == s.done + {s.owes[w].value}))
    && (w < |s.phases| && w < |s.owes| && s'.phases[w].Returning? && s'.owes[w].Some? ==>
          (s.phases[w].Returning? && s.owes[w] == s'.owes[w]) || Over(s'.jobs, s'.place, s'.owes[w].value))
  }

  lemma OverAfter(s: State, s': State, w: nat)
    requires OverOk(s) && Forth(s, s') && Closes(s, s', w)
    ensures OverOk(s')
  {
  }

  /** A worker that holds a message owes for that message or not at all; it has a job and a place. */
  lemma WorkerFacts(c: Config, s: State, w: nat)
    requires Gate.Inv(c, s) && Places(s) && w < |s.phases|
    ensures |s.owes| == |s.phases|
    ensures s.owes[w].Some? ==> s.phases[w].Returning? || Holds(s.phases[w]) == s.owes[w]
    ensures Holds(s.phases[w]).Some? ==>
              var id := Holds(s.phases[w]).value;
              id in s.jobs && id in s.place && s.place[id] == Held(w)
    ensures s.phases[w].Arming? ==> s.jobs[s.phases[w].id].retry > 0
  {
    hide Gate.LogOk, Gate.FifoOk, Gate.RetryOk, Gate.GateOk, Gate.OwedOk, Gate.EventsOk, Gate.PassedOk, Gate.PosOk,
      Gate.BeyondOk, PendOk, ChOk, TimerOk, EndOk;
    assert s.phases[w].Arming? ==> Holds(s.phases[w]) == Some(s.phases[w].id);
  }

  lemma TakeOver(c: Config, s: State, w: nat)
    requires Gate.Inv(c, s) && Places(s)
    ensures var s' := Step(c, s, Take(w)); Forth(s, s') && Closes(s, s', w)
  {
    hide Gate.Inv, MsgAt, PendOk, WorkOk, TimerOk, EndOk, PosBound;
  }

  lemma PassOver(c: Config, s: State, w: nat)
    ensures var s' := Step(c, s, PassGate(w)); Forth(s, s') && Closes(s, s', w)
  {
    hide MsgAt;
  }

  lemma DeleteOver(c: Config, s: State, w: nat)
    ensures var s' := Step(c, s, DeleteGate(w)); Forth(s, s') && Closes(s, s', w)
  {
    hide MsgAt;
  }

  lemma CheckFailsOver(c: Config, s: State, w: nat)
    ensures var s' := Step(c, s, CheckFails(w)); Forth(s, s') && Closes(s, s', w)
  {
    hide MsgAt, DedupKeyOf;
  }

  lemma CheckOver(c: Config, s: State, w: nat)
    requires Gate.Inv(c, s) && Places(s)
    ensures var s' := Step(c, s, Check(w)); Forth(s, s') && Closes(s, s', w)
  {
    hide MsgAt, DedupKeyOf, Gate.Inv, Places;
    if w < |s.phases| {
      WorkerFacts(c, s, w);
    }
  }

  lemma BeginPostOver(c: Config, s: State, w: nat)
    ensures var s' := Step(c, s, BeginPost(w)); Forth(s, s') && Closes(s, s', w)
  {
  }

  lemma FailForGoodOver(c: Config, s: State, w: nat)
    requires Gate.Inv(c, s) && Places(s)
    ensures var s' := Step(c, s, FailForGood(w)); Forth(s, s') && Closes(s, s', w)
  {
    hide MsgAt, Gate.Inv, Places;
    if w < |s.phases| {
      WorkerFacts(c, s, w);
    }
  }

  lemma PostSucceedsOver(c: Config, s: State, w: nat, recorded: bool)
    requires Gate.Inv(c, s) && Places(s)
    ensures var s' := Step(c, s, PostSucceeds(w, recorded)); Forth(s, s') && Closes(s, s', w)
  {
    hide MsgAt, DedupKeyOf, Gate.Inv, Places;
    if w < |s.phases| {
      WorkerFacts(c, s, w);
    }
  }

  lemma PostFailsOver(c: Config, s: State, w: nat)
    requires Gate.Inv(c, s) && Places(s)
    ensures var s' := Step(c, s, PostFails(w)); Forth(s, s') && Closes(s, s', w)
  {
    hide Gate.Inv, Places;
    if w < |s.phases| {
      WorkerFacts(c, s, w);
    }
  }

  lemma LoadFlagOver(c: Config, s: State, w: nat)
    requires Gate.Inv(c, s) && Places(s)
    ensures var s' := Step(c, s, LoadFlag(w)); Forth(s, s') && Closes(s, s', w)
  {
    hide Gate.Inv, Places;
    if w < |s.phases| {
      WorkerFacts(c, s, w);
    }
  }

  lemma ArmOver(c: Config, s: State, w: nat)
    requires Gate.Inv(c, s) && Places(s)
    ensures var s' := Step(c, s, Arm(w)); Forth(s, s') && Closes(s, s', w)
  {
    hide Gate.Inv, Places;
    if w < |s.phases| {
      WorkerFacts(c, s, w);
    }
  }

  lemma ReturnOver(c: Config, s: State, w: nat)
    ensures var s' := Step(c, s, Return(w)); Forth(s, s') && Closes(s, s', w)
  {
    hide MsgAt;
  }

  lemma ExitOver(c: Config, s: State, w: nat)
    ensures var s' := Step(c, s, Exit(w)); Forth(s, s') && Closes(s, s', w)
  {
  }

  /** Steps that touch no worker. */
  ghost predicate NoWorker(s: State, s': State) {
    Forth(s, s') && s'.phases == s.phases && s'.owes == s.owes && s'.done == s.done
  }

  lemma ConsumerOver(c: Config, s: State, p: nat)
    requires Places(s)
    ensures NoWorker(s, Step(c, s, Accept(p))) && NoWorker(s, Step(c, s, Send(p)))
  {
    hide ChOk, WorkOk, TimerOk, EndOk, PosBound;
  }

  lemma FireOver(c: Config, s: State, t: nat)
    requires Places(s)
    ensures NoWorker(s, Step(c, s, Fire(t)))
  {
    hide ChOk, WorkOk, PendOk, EndOk, PosBound;
  }

  lemma TimerEndOver(c: Config, s: State, t: nat)
    ensures NoWorker(s, Step(c, s, TimerEnd(t)))
  {
  }

  lemma TimerSendOver(c: Config, s: State, t: nat)
    requires Places(s)
    ensures NoWorker(s, Step(c, s, TimerSend(t)))
  {
    hide ChOk, WorkOk, PendOk, EndOk, PosBound;
    if t < |s.timers| && s.timers[t].Sending? {
      assert TimerHolds(s.timers[t]) == Some(s.timers[t].id);
    }
  }

  lemma OtherOver(c: Config, s: State, a: Action)
    requires a.Publish? || a.StopFlag? || a.StopWait? || a.StopClose? || a.Forget?
    ensures NoWorker(s, Step(c, s, a))
  {
    hide Append;
  }

  lemma StepOver(c: Config, s: State, a: Action)
    requires Gate.Inv(c, s) && Places(s) && OverOk(s)
    ensures OverOk(Step(c, s, a))
  {
    hide Gate.Inv, Places, Step, Forth, Closes;
    var s' := Step(c, s, a);
    match a {
      case Take(w) => TakeOver(c, s, w); OverAfter(s, s', w);
      case PassGate(w) => PassOver(c, s, w); OverAfter(s, s', w);
      case DeleteGate(w) => DeleteOver(c, s, w); OverAfter(s, s', w);
      case CheckFails(w) => CheckFailsOver(c, s, w); OverAfter(s, s', w);
      case Check(w) => CheckOver(c, s, w); OverAfter(s, s', w);
      case BeginPost(w) => BeginPostOver(c, s, w); OverAfter(s, s', w);
      case FailForGood(w) => FailForGoodOver(c, s, w); OverAfter(s, s', w);
      case PostSucceeds(w, r) => PostSucceedsOver(c, s, w, r); OverAfter(s, s', w);
      case PostFails(w) => PostFailsOver(c, s, w); OverAfter(s, s', w);
      case LoadFlag(w) => LoadFlagOver(c, s, w); OverAfter(s, s', w);
      case Arm(w) => ArmOver(c, s, w); OverAfter(s, s', w);
      case Return(w) => ReturnOver(c, s, w); OverAfter(s, s', w);
      case Exit(w) => ExitOver(c, s, w); OverAfter(s, s', w);
      case Accept(p) => ConsumerOver(c, s, p); OverNoWorker(s, s');
      case Send(p) => ConsumerOver(c, s, p); OverNoWorker(s, s');
      case Fire(t) => FireOver(c, s, t); OverNoWorker(s, s');
      case TimerEnd(t) => TimerEndOver(c, s, t); OverNoWorker(s, s');
      case TimerSend(t) => TimerSendOver(c, s, t); OverNoWorker(s, s');
      case _ => OtherOver(c, s, a); OverNoWorker(s, s');
    }
  }

  lemma OverNoWorker(s: State, s': State)
    requires OverOk(s) && NoWorker(s, s')
    ensures OverOk(s')
  {
  }

  /** Past its gate, a BLOCK_PROCESSED has every STUMP of its pair that was ever published out of its first attempt. */
  lemma StumpsAreOver(c: Config, s: State, w: nat, stump: Id)
    requires Gate.Inv(c, s) && OverOk(s) && w < |s.phases| && (s.phases[w].Posting? || s.phases[w].InFlight?)
    requires InLog(s.log, stump) && MsgAt(s.log, s.phases[w].id).kind == BlockProcessed
    requires Gate.StumpFor(MsgAt(s.log, stump), KeyOf(MsgAt(s.log, s.phases[w].id)))
    ensures Over(s.jobs, s.place, stump)
  {
    hide Gate.LogOk, Gate.PosOk, Gate.FifoOk, Gate.RetryOk, Gate.HeldOk, Gate.GateOk, Gate.OwedOk, Gate.TieOk,
      Gate.EventsOk, Over, MsgAt, InLog;
    assert Gate.BeyondGate(s.phases[w]) && Holds(s.phases[w]) == Some(s.phases[w].id);
    assert s.phases[w].id in s.passed;
    assert Gate.AllDone(s.log, s.done, KeyOf(MsgAt(s.log, s.phases[w].id)));
  }
}
