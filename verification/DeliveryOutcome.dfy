/**
 The delivery machine's counters, shutdown and deduplication over every run, and the account of what becomes of a
 message: each accepted message is in exactly one place, with bounded attempts and the promised backoff.
 */
module DeliveryOutcome {
  import opened Prelude
  import opened CallbackLog
  import opened Delivery
  import opened DeliveryAccount

  // ---------------------------------------------------------------- counters

  /** How many messages have ended with an outcome. */
  function Ends(finished: seq<End>, o: Outcome): nat {
    if finished == [] then 0
    else Ends(finished[..|finished| - 1], o) + if finished[|finished| - 1].outcome == o then 1 else 0
  }

  /** How many timers still count in the wait group. */
  function Live(timers: seq<Timer>): nat {
    if timers == [] then 0 else Live(timers[..|timers| - 1]) + if timers[|timers| - 1].Gone? then 0 else 1
  }

  ghost predicate EndCounts(k: Counters, finished: seq<End>) {
    && k.processed == Ends(finished, Delivered)
    && k.deduped == Ends(finished, Deduped)
    && k.failed == Ends(finished, Exhausted) + Ends(finished, Permanent)
  }

  ghost predicate TimerCounts(k: Counters, timerWg: int, timers: seq<Timer>) {
    k.parked == timerWg == Live(timers)
  }

  /** Once Stop has waited for the timers, none is on its way to send; so none ever sends on the closed channel. */
  ghost predicate StopOk(stop: nat, panicked: bool, timers: seq<Timer>) {
    && stop <= 3 && !panicked
    && (stop >= 2 ==> forall t: nat | t < |timers| :: !timers[t].Sending?)
  }

  ghost predicate Tallied(s: State) {
    EndCounts(s.counters, s.finished) && TimerCounts(s.counters, s.timerWg, s.timers)
        && StopOk(s.stop, s.panicked, s.timers)
  }

  lemma EndsSnoc(finished: seq<End>, e: End, o: Outcome)
    ensures Ends(finished + [e], o) == Ends(finished, o) + if e.outcome == o then 1 else 0
  {
    assert (finished + [e])[..|finished|] == finished;
  }

  lemma EndCount(k: Counters, finished: seq<End>, e: End)
    requires EndCounts(k, finished)
    ensures match e.outcome
            case Delivered => EndCounts(k.(processed := k.processed + 1), finished + [e])
            case Deduped => EndCounts(k.(deduped := k.deduped + 1), finished + [e])
            case Exhausted => EndCounts(k.(failed := k.failed + 1), finished + [e])
            case Permanent => EndCounts(k.(failed := k.failed + 1), finished + [e])
            case Dropped => EndCounts(k, finished + [e])
  {
    EndsSnoc(finished, e, Delivered);
    EndsSnoc(finished, e, Deduped);
    EndsSnoc(finished, e, Exhausted);
    EndsSnoc(finished, e, Permanent);
  }

  lemma LiveSnoc(timers: seq<Timer>, t: Timer)
    ensures Live(timers + [t]) == Live(timers) + if t.Gone? then 0 else 1
  {
    assert (timers + [t])[..|timers|] == timers;
  }

  lemma {:induction false} LiveSet(timers: seq<Timer>, t: nat, to: Timer)
    requires t < |timers|
    ensures Live(timers[t := to]) == Live(timers) + (if to.Gone? then 0 else 1) - if timers[t].Gone? then 0 else 1
  {
    var n := |timers| - 1;
    if t == n {
      assert timers[t := to][..n] == timers[..n];
    } else {
      LiveSet(timers[..n], t, to);
      assert timers[t := to][..n] == timers[..n][t := to];
    }
  }

  lemma {:induction false} NoneLive(timers: seq<Timer>)
    requires Live(timers) == 0
    ensures forall t: nat | t < |timers| :: timers[t].Gone?
  {
    if timers == [] {
    } else {
      NoneLive(timers[..|timers| - 1]);
    }
  }

  lemma TimerChange(s: State, t: nat, to: Timer)
    requires Tallied(s) && t < |s.timers| && (to.Sending? ==> s.stop < 2) && (to.Gone? <==> s.timers[t].Gone?)
    ensures TimerCounts(s.counters, s.timerWg, s.timers[t := to]) && StopOk(s.stop, s.panicked, s.timers[t := to])
  {
    LiveSet(s.timers, t, to);
  }

  lemma TimerLeaves(s: State, t: nat)
    requires Tallied(s) && t < |s.timers| && !s.timers[t].Gone?
    ensures TimerCounts(s.counters.(parked := s.counters.parked - 1), s.timerWg - 1, s.timers[t := Gone])
    ensures StopOk(s.stop, s.panicked, s.timers[t := Gone])
  {
    LiveSet(s.timers, t, Gone);
  }

  lemma TimerJoins(s: State, id: Id)
    requires Tallied(s)
    ensures TimerCounts(s.counters.(parked := s.counters.parked + 1), s.timerWg + 1, s.timers + [Armed(id)])
    ensures StopOk(s.stop, s.panicked, s.timers + [Armed(id)])
  {
    LiveSnoc(s.timers, Armed(id));
  }

  lemma CheckTally(c: Config, s: State, w: nat)
    requires Tallied(s)
    ensures Tallied(Step(c, s, Check(w))) && Tallied(Step(c, s, FailForGood(w)))
  {
    hide EndCounts, StopOk, Live;
    if w < |s.phases| && Holds(s.phases[w]).Some? {
      var id := Holds(s.phases[w]).value;
      EndCount(s.counters, s.finished, End(id, Deduped));
      EndCount(s.counters, s.finished, End(id, Permanent));
    }
  }

  lemma PostTally(c: Config, s: State, w: nat, recorded: bool)
    requires Tallied(s)
    ensures Tallied(Step(c, s, PostSucceeds(w, recorded))) && Tallied(Step(c, s, PostFails(w)))
  {
    hide EndCounts, StopOk, Live;
    if w < |s.phases| && s.phases[w].InFlight? {
      var id := s.phases[w].id;
      EndCount(s.counters, s.finished, End(id, Delivered));
      EndCount(s.counters, s.finished, End(id, Exhausted));
      MoreRetries(s.counters, s.finished);
    }
  }

  lemma LoadFlagTally(c: Config, s: State, w: nat)
    requires Tallied(s)
    ensures Tallied(Step(c, s, LoadFlag(w)))
  {
    hide EndCounts, StopOk, Live;
    if w < |s.phases| && s.phases[w].Retrying? {
      EndCount(s.counters, s.finished, End(s.phases[w].id, Dropped));
    }
  }

  lemma MoreRetries(k: Counters, finished: seq<End>)
    requires EndCounts(k, finished)
    ensures EndCounts(k.(retried := k.retried + 1), finished)
  {
  }

  lemma FireTally(c: Config, s: State, t: nat)
    requires Tallied(s)
    ensures Tallied(Step(c, s, Fire(t))) && Tallied(Step(c, s, TimerEnd(t)))
  {
    hide EndCounts, StopOk, TimerCounts;
    if t < |s.timers| && s.timers[t].Armed? {
      EndCount(s.counters, s.finished, End(s.timers[t].id, Dropped));
      TimerChange(s, t, Ending);
      if s.stop == 0 {
        TimerChange(s, t, Sending(s.timers[t].id));
      }
    }
    if t < |s.timers| && s.timers[t].Ending? {
      TimerLeaves(s, t);
      FewerParked(s.counters, s.finished, s.counters.parked - 1);
    }
  }

  lemma FewerParked(k: Counters, finished: seq<End>, n: int)
    requires EndCounts(k, finished)
    ensures EndCounts(k.(parked := n), finished)
  {
  }

  lemma TimerSendTally(c: Config, s: State, t: nat)
    requires Tallied(s)
    ensures Tallied(Step(c, s, TimerSend(t)))
  {
    hide EndCounts, TimerCounts;
    if t < |s.timers| && s.timers[t].Sending? {
      TimerChange(s, t, Ending);
    }
  }

  lemma ArmTally(c: Config, s: State, w: nat)
    requires Tallied(s)
    ensures Tallied(Step(c, s, Arm(w)))
  {
    hide EndCounts, StopOk, TimerCounts;
    if w < |s.phases| && s.phases[w].Arming? {
      TimerJoins(s, s.phases[w].id);
      FewerParked(s.counters, s.finished, s.counters.parked + 1);
    }
  }

  lemma StopTally(c: Config, s: State, a: Action)
    requires Tallied(s) && (a.StopFlag? || a.StopWait? || a.StopClose?)
    ensures Tallied(Step(c, s, a))
  {
    hide EndCounts, Live;
    if a.StopWait? && s.timerWg == 0 {
      NoneLive(s.timers);
    }
  }

  lemma PublishStep(c: Config, s: State, m: Msg)
    requires Tallied(s)
    ensures Tallied(Step(c, s, Publish(m)))
  {
  }

  lemma ForgetTally(c: Config, s: State, k: DedupKey)
    requires Tallied(s)
    ensures Tallied(Step(c, s, Forget(k)))
  {
  }

  lemma CheckFailsTally(c: Config, s: State, w: nat)
    requires Tallied(s)
    ensures Tallied(Step(c, s, CheckFails(w)))
  {
    hide Live, StopOk, Ends;
  }

  /** Neither a message ends nor do timers, counters or the dedup store change. */
  ghost predicate Quiet(s: State, s': State) {
    && s'.log == s.log && s'.finished == s.finished && s'.dedup == s.dedup && s'.counters == s.counters
    && s'.timers == s.timers && s'.timerWg == s.timerWg && s'.stop == s.stop && s'.panicked == s.panicked
  }

  lemma ChannelStepsQuiet(c: Config, s: State, n: nat)
    ensures Quiet(s, Step(c, s, Accept(n))) && Quiet(s, Step(c, s, Send(n))) && Quiet(s, Step(c, s, Take(n)))
  {
  }

  lemma GateStepsQuiet(c: Config, s: State, w: nat)
    ensures Quiet(s, Step(c, s, PassGate(w)))
  {
    hide Append, Accepted, Sent, Took, CheckFailed, Checked, PostBegun, FailedForGood, PostSucceeded, PostFailed,
      FlagLoaded, TimerArmed, TimerFired, TimerSent, TimerEnded, MsgAt, IsEndAt;
  }

  lemma DeleteQuiet(c: Config, s: State, w: nat)
    ensures Quiet(s, Step(c, s, DeleteGate(w)))
  {
    hide MsgAt;
  }

  lemma ReturnQuiet(c: Config, s: State, w: nat)
    ensures Quiet(s, Step(c, s, Return(w)))
  {
  }

  lemma OtherStepsQuiet(c: Config, s: State, w: nat)
    ensures Quiet(s, Step(c, s, BeginPost(w))) && Quiet(s, Step(c, s, Exit(w)))
  {
  }

  predicate QuietAction(a: Action) {
    a.Accept? || a.Send? || a.Take? || a.PassGate? || a.DeleteGate? || a.BeginPost? || a.Return? || a.Exit?
  }

  lemma QuietSteps(c: Config, s: State, a: Action)
    requires QuietAction(a)
    ensures Quiet(s, Step(c, s, a))
  {
    hide Quiet, Step;
    match a
    case Accept(p) => ChannelStepsQuiet(c, s, p);
    case Send(p) => ChannelStepsQuiet(c, s, p);
    case Take(w) => ChannelStepsQuiet(c, s, w);
    case PassGate(w) => GateStepsQuiet(c, s, w);
    case DeleteGate(w) => DeleteQuiet(c, s, w);
    case Return(w) => ReturnQuiet(c, s, w);
    case BeginPost(w) => OtherStepsQuiet(c, s, w);
    case Exit(w) => OtherStepsQuiet(c, s, w);
  }

  lemma StepTally(c: Config, s: State, a: Action)
    requires Tallied(s)
    ensures Tallied(Step(c, s, a))
  {
    hide EndCounts, TimerCounts, StopOk, Step;
    match a
    case Publish(m) => PublishStep(c, s, m);
    case Forget(k) => ForgetTally(c, s, k);
    case Check(w) => CheckTally(c, s, w);
    case FailForGood(w) => CheckTally(c, s, w);
    case PostSucceeds(w, recorded) => PostTally(c, s, w, recorded);
    case PostFails(w) => PostTally(c, s, w, false);
    case LoadFlag(w) => LoadFlagTally(c, s, w);
    case Arm(w) => ArmTally(c, s, w);
    case Fire(t) => FireTally(c, s, t);
    case TimerSend(t) => TimerSendTally(c, s, t);
    case TimerEnd(t) => FireTally(c, s, t);
    case StopFlag => StopTally(c, s, a);
    case StopWait => StopTally(c, s, a);
    case StopClose => StopTally(c, s, a);
    case CheckFails(w) => CheckFailsTally(c, s, w);
    case _ => QuietSteps(c, s, a);
  }

  // ---------------------------------------------------------------- deduplication

  /** The dedup key of the message with an id. */
  function KeyAt(c: Config, log: Log, id: Id): Option<DedupKey> {
    DedupKeyOf(c, MsgAt(log, id))
  }

  /** Some message with that key was delivered. */
  ghost predicate DeliveredIn(c: Config, log: Log, finished: seq<End>, k: DedupKey) {
    exists i: nat ::
        i < |finished| && finished[i].outcome == Delivered && InLog(log, finished[i].id)
            && KeyAt(c, log, finished[i].id) == Some(k)
  }

  /** The store knew the key from the start, or some message with it was delivered. */
  ghost predicate Backed(c: Config, log: Log, finished: seq<End>, k: Option<DedupKey>) {
    k.Some? && (k.value in c.stored || DeliveredIn(c, log, finished, k.value))
  }

  /** What the dedup store knows is backed, and what was skipped as a duplicate was backed before. */
  ghost predicate DedupOk(c: Config, log: Log, finished: seq<End>, dedup: set<DedupKey>) {
    && (forall k | k in dedup :: Backed(c, log, finished, Some(k)))
    && (forall i: nat | i < |finished| :: InLog(log, finished[i].id))
    && (forall i: nat | i < |finished| && finished[i].outcome == Deduped ::
          Backed(c, log, finished[..i], KeyAt(c, log, finished[i].id)))
  }

  lemma BackedMore(c: Config, log: Log, finished: seq<End>, e: End, k: Option<DedupKey>)
    requires Backed(c, log, finished, k)
    ensures Backed(c, log, finished + [e], k)
  {
    if k.value !in c.stored {
      var i: nat :| i < |finished| && finished[i].outcome == Delivered && InLog(log, finished[i].id)
          && KeyAt(c, log, finished[i].id) == k;
      assert (finished + [e])[i] == finished[i];
    }
  }

  lemma DedupMore(c: Config, log: Log, finished: seq<End>, dedup: set<DedupKey>, e: End)
    requires DedupOk(c, log, finished, dedup) && InLog(log, e.id)
    requires e.outcome == Deduped ==> KeyAt(c, log, e.id).Some? && KeyAt(c, log, e.id).value in dedup
    ensures DedupOk(c, log, finished + [e], dedup)
    ensures e.outcome == Delivered && KeyAt(c, log, e.id).Some? ==> Backed(c, log, finished + [e], KeyAt(c, log, e.id))
  {
    hide Backed, InLog, KeyAt;
    var fin' := finished + [e];
    forall k | k in dedup ensures Backed(c, log, fin', Some(k)) {
      BackedMore(c, log, finished, e, Some(k));
    }
    forall i: nat | i < |fin'| && fin'[i].outcome == Deduped
        ensures Backed(c, log, fin'[..i], KeyAt(c, log, fin'[i].id)) {
      assert fin'[..i] == finished[..i];
      if i == |finished| {
        assert finished[..i] == finished;
      }
    }
    assert fin'[|finished|] == e;
    LastDelivered(c, log, finished, e);
  }

  lemma LastDelivered(c: Config, log: Log, finished: seq<End>, e: End)
    requires InLog(log, e.id)
    ensures e.outcome == Delivered && KeyAt(c, log, e.id).Some? ==> Backed(c, log, finished + [e], KeyAt(c, log, e.id))
  {
    assert (finished + [e])[|finished|] == e;
  }

  lemma BackedLater(c: Config, log: Log, finished: seq<End>, k: Option<DedupKey>, n: Msg)
    requires Backed(c, log, finished, k)
    ensures Backed(c, Append(log, c.part, n), finished, k)
  {
    hide DedupKeyOf;
    if k.value !in c.stored {
      var i: nat :| i < |finished| && finished[i].outcome == Delivered && InLog(log, finished[i].id)
          && KeyAt(c, log, finished[i].id) == k;
      AppendKeepsAt(c, log, n, finished[i].id);
      assert KeyAt(c, Append(log, c.part, n), finished[i].id) == k;
    }
  }

  lemma AppendKeepsAt(c: Config, log: Log, m: Msg, id: Id)
    requires InLog(log, id)
    ensures InLog(Append(log, c.part, m), id) && MsgAt(Append(log, c.part, m), id) == MsgAt(log, id)
  {
  }

  lemma DedupLater(c: Config, log: Log, finished: seq<End>, dedup: set<DedupKey>, n: Msg)
    requires DedupOk(c, log, finished, dedup)
    ensures DedupOk(c, Append(log, c.part, n), finished, dedup)
  {
    hide Backed, InLog, MsgAt, Append, DedupKeyOf;
    var log': Log := Append(log, c.part, n);
    forall k | k in dedup ensures Backed(c, log', finished, Some(k)) {
      BackedLater(c, log, finished, Some(k), n);
    }
    forall i: nat | i < |finished|
        ensures InLog(log', finished[i].id) && KeyAt(c, log', finished[i].id) == KeyAt(c, log, finished[i].id) {
      AppendKeepsAt(c, log, n, finished[i].id);
    }
    forall i: nat | i < |finished| && finished[i].outcome == Deduped
        ensures Backed(c, log', finished[..i], KeyAt(c, log', finished[i].id)) {
      BackedLater(c, log, finished[..i], KeyAt(c, log, finished[i].id), n);
    }
  }

  lemma KnownInLog(s: State, id: Id)
    requires Places(s) && id in s.jobs
    ensures InLog(s.log, id)
  {
    hide PendOk, ChOk, WorkOk, TimerOk, EndOk;
  }

  lemma DedupAdds(c: Config, log: Log, finished: seq<End>, dedup: set<DedupKey>, k: DedupKey)
    requires DedupOk(c, log, finished, dedup) && Backed(c, log, finished, Some(k))
    ensures DedupOk(c, log, finished, dedup + {k})
  {
    hide Backed;
  }

  /** A worker's message ends. */
  lemma EndDedup(c: Config, s: State, w: nat, o: Outcome)
    requires Places(s) && DedupOk(c, s.log, s.finished, s.dedup) && w < |s.phases| && Holds(s.phases[w]).Some?
    requires o == Deduped ==> var k := KeyAt(c, s.log, Holds(s.phases[w]).value); k.Some? && k.value in s.dedup
    ensures var id := Holds(s.phases[w]).value;
            var fin, k := s.finished + [End(id, o)], KeyAt(c, s.log, id);
            && DedupOk(c, s.log, fin, s.dedup)
            && (o == Delivered && k.Some? ==> DedupOk(c, s.log, fin, s.dedup + {k.value}))
  {
    hide Places, DedupOk, Backed, InLog, KeyAt;
    var id := Holds(s.phases[w]).value;
    HeldJob(s, w);
    KnownInLog(s, id);
    DedupMore(c, s.log, s.finished, s.dedup, End(id, o));
    if o == Delivered && KeyAt(c, s.log, id).Some? {
      DedupAdds(c, s.log, s.finished + [End(id, o)], s.dedup, KeyAt(c, s.log, id).value);
    }
  }

  lemma WorkerDedup(c: Config, s: State, a: Action, w: nat)
    requires Places(s) && DedupOk(c, s.log, s.finished, s.dedup) && EndStep(a) && a.w == w
    ensures var s' := Step(c, s, a); DedupOk(c, s'.log, s'.finished, s'.dedup)
  {
    hide Places, DedupOk, InLog, MsgAt, DedupKeyOf;
    if w < |s.phases| && Holds(s.phases[w]).Some? {
      var id := Holds(s.phases[w]).value;
      match a
      case Check(_) =>
        var k := KeyAt(c, s.log, id);
        if k.Some? && k.value in s.dedup {
          EndDedup(c, s, w, Deduped);
        }
      case FailForGood(_) => EndDedup(c, s, w, Permanent);
      case PostSucceeds(_, _) =>
        EndDedup(c, s, w, Delivered);
        assert s.dedup + {} == s.dedup;
        assert KeyAt(c, s.log, id) == DedupKeyOf(c, MsgAt(s.log, id));
      case PostFails(_) => EndDedup(c, s, w, Exhausted);
      case LoadFlag(_) => EndDedup(c, s, w, Dropped);
    }
  }

  lemma TimerDedup(c: Config, s: State, t: nat)
    requires Places(s) && DedupOk(c, s.log, s.finished, s.dedup) && t < |s.timers| && TimerHolds(s.timers[t]).Some?
    ensures DedupOk(c, s.log, s.finished + [End(TimerHolds(s.timers[t]).value, Dropped)], s.dedup)
  {
    hide Places, DedupOk, InLog, KeyAt;
    var id := TimerHolds(s.timers[t]).value;
    ParkedJob(s, t);
    KnownInLog(s, id);
    DedupMore(c, s.log, s.finished, s.dedup, End(id, Dropped));
  }

  lemma StepDedup(c: Config, s: State, a: Action)
    requires Places(s) && DedupOk(c, s.log, s.finished, s.dedup)
    ensures var s' := Step(c, s, a); DedupOk(c, s'.log, s'.finished, s'.dedup)
  {
    hide Places, DedupOk, Append, InLog, MsgAt, Step;
    match a
    case Publish(m) => PublishDedup(c, s, m);
    case Check(w) => WorkerDedup(c, s, a, w);
    case FailForGood(w) => WorkerDedup(c, s, a, w);
    case PostSucceeds(w, recorded) => WorkerDedup(c, s, a, w);
    case PostFails(w) => WorkerDedup(c, s, a, w);
    case LoadFlag(w) => WorkerDedup(c, s, a, w);
    case Fire(t) => FireDedup(c, s, t);
    case TimerSend(t) => FireDedup(c, s, t);
    case Forget(k) => ForgetDedup(c, s, k);
    case CheckFails(w) => IdleDedup(c, s, w);
    case Arm(w) => IdleDedup(c, s, w);
    case TimerEnd(t) => IdleDedup(c, s, t);
    case StopFlag => StopDedup(c, s);
    case StopWait => StopDedup(c, s);
    case StopClose => StopDedup(c, s);
    case _ => QuietSteps(c, s, a);
  }

  ghost predicate SameEnds(s: State, s': State) {
    s'.log == s.log && s'.finished == s.finished && s'.dedup == s.dedup
  }

  lemma IdleDedup(c: Config, s: State, n: nat)
    ensures SameEnds(s, Step(c, s, CheckFails(n))) && SameEnds(s, Step(c, s, Arm(n)))
            && SameEnds(s, Step(c, s, TimerEnd(n)))
  {
  }

  lemma StopDedup(c: Config, s: State)
    ensures SameEnds(s, Step(c, s, StopFlag)) && SameEnds(s, Step(c, s, StopWait)) && SameEnds(s, Step(c, s, StopClose))
  {
    hide Append, Accepted, Sent, Took, GatePassed, GateDeleted, CheckFailed, Checked, PostBegun, FailedForGood,
      PostSucceeded, PostFailed,
      FlagLoaded, TimerArmed, Returned, TimerFired, TimerSent, TimerEnded;
  }

  lemma PublishDedup(c: Config, s: State, m: Msg)
    requires DedupOk(c, s.log, s.finished, s.dedup)
    ensures var s' := Step(c, s, Publish(m)); DedupOk(c, s'.log, s'.finished, s'.dedup)
  {
    hide DedupOk, Append;
    DedupLater(c, s.log, s.finished, s.dedup, m);
  }

  lemma FireDedup(c: Config, s: State, t: nat)
    requires Places(s) && DedupOk(c, s.log, s.finished, s.dedup)
    ensures var s' := Step(c, s, Fire(t)); DedupOk(c, s'.log, s'.finished, s'.dedup)
    ensures var s' := Step(c, s, TimerSend(t)); DedupOk(c, s'.log, s'.finished, s'.dedup)
  {
    hide Places, DedupOk;
    if t < |s.timers| && TimerHolds(s.timers[t]).Some? {
      TimerDedup(c, s, t);
    }
  }

  lemma ForgetDedup(c: Config, s: State, k: DedupKey)
    requires DedupOk(c, s.log, s.finished, s.dedup)
    ensures var s' := Step(c, s, Forget(k)); DedupOk(c, s'.log, s'.finished, s'.dedup)
  {
    hide Backed;
  }

  // ---------------------------------------------------------------- every run

  ghost predicate Inv(c: Config, s: State) {
    Places(s) && Jobs(c, s) && Tallied(s) && DedupOk(c, s.log, s.finished, s.dedup)
  }

  lemma InitialInv(c: Config, partitions: nat, workers: nat)
    ensures Inv(c, Initial(c, partitions, workers))
  {
  }

  /** Every step keeps the account, whatever is published and whatever the network, the dedup store and the clock do. */
  lemma {:induction false} StepKeepsInv(c: Config, s: State, a: Action)
    requires Inv(c, s)
    ensures Inv(c, Step(c, s, a))
  {
    hide Places, Jobs, Tallied, DedupOk, Step;
    StepPlaces(c, s, a);
    StepJobs(c, s, a);
    StepTally(c, s, a);
    StepDedup(c, s, a);
  }

  function Run(c: Config, partitions: nat, workers: nat, actions: seq<Action>): State {
    if actions == [] then Initial(c, partitions, workers)
    else Step(c, Run(c, partitions, workers, actions[..|actions| - 1]), actions[|actions| - 1])
  }

  lemma {:induction false} RunKeepsInv(c: Config, partitions: nat, workers: nat, actions: seq<Action>)
    ensures Inv(c, Run(c, partitions, workers, actions))
  {
    if actions == [] {
      InitialInv(c, partitions, workers);
    } else {
      hide Inv, Step;
      RunKeepsInv(c, partitions, workers, actions[..|actions| - 1]);
      StepKeepsInv(c, Run(c, partitions, workers, actions[..|actions| - 1]), actions[|actions| - 1]);
    }
  }

  // ---------------------------------------------------------------- the theorems

  /** How often a list of slots holds a message. */
  function Times(slots: seq<Option<Id>>, id: Id): nat {
    if slots == [] then 0 else Times(slots[..|slots| - 1], id) + if slots[|slots| - 1] == Some(id) then 1 else 0
  }

  function HeldSlots(phases: seq<Phase>): seq<Option<Id>> {
    seq(|phases|, i requires 0 <= i < |phases| => Holds(phases[i]))
  }

  function ParkedSlots(timers: seq<Timer>): seq<Option<Id>> {
    seq(|timers|, i requires 0 <= i < |timers| => TimerHolds(timers[i]))
  }

  function QueuedSlots(ch: seq<Id>): seq<Option<Id>> {
    seq(|ch|, i requires 0 <= i < |ch| => Some(ch[i]))
  }

  function EndedSlots(finished: seq<End>): seq<Option<Id>> {
    seq(|finished|, i requires 0 <= i < |finished| => Some(finished[i].id))
  }

  predicate AcceptedId(s: State, id: Id) {
    id.part < |s.pos| && id.off < s.pos[id.part]
  }

  /** One slot and no other holds it. */
  lemma {:induction false} HeldOnce(slots: seq<Option<Id>>, id: Id, k: int)
    requires forall i | 0 <= i < |slots| :: slots[i] == Some(id) <==> i == k
    ensures Times(slots, id) == if 0 <= k < |slots| then 1 else 0
  {
    if slots == [] {
    } else {
      HeldOnce(slots[..|slots| - 1], id, k);
    }
  }

  lemma QueuedOnce(ch: seq<Id>, place: map<Id, Place>, id: Id)
    requires ChOk(ch, place)
    ensures Times(QueuedSlots(ch), id) == if id in place && place[id] == Queued then 1 else 0
  {
    if k :| 0 <= k < |ch| && ch[k] == id {
      HeldOnce(QueuedSlots(ch), id, k);
    } else {
      HeldOnce(QueuedSlots(ch), id, -1);
    }
  }

  lemma EndedOnce(finished: seq<End>, place: map<Id, Place>, id: Id)
    requires EndOk(finished, place)
    ensures Times(EndedSlots(finished), id) == if id in place && place[id].Final? then 1 else 0
  {
    if k :| 0 <= k < |finished| && finished[k].id == id {
      HeldOnce(EndedSlots(finished), id, k);
    } else {
      HeldOnce(EndedSlots(finished), id, -1);
    }
  }

  lemma PendingOnce(pending: seq<Option<Id>>, place: map<Id, Place>, id: Id)
    requires PendOk(pending, place)
    ensures Times(pending, id) == if id in place && place[id].Pending? then 1 else 0
  {
    HeldOnce(pending, id, if id in place && place[id].Pending? then place[id].part else -1);
  }

  lemma WorkedOnce(phases: seq<Phase>, place: map<Id, Place>, id: Id)
    requires WorkOk(phases, place)
    ensures Times(HeldSlots(phases), id) == if id in place && place[id].Held? then 1 else 0
  {
    HeldOnce(HeldSlots(phases), id, if id in place && place[id].Held? then place[id].worker else -1);
  }

  lemma ParkedOnce(timers: seq<Timer>, place: map<Id, Place>, id: Id)
    requires TimerOk(timers, place)
    ensures Times(ParkedSlots(timers), id) == if id in place && place[id].Parked? then 1 else 0
  {
    HeldOnce(ParkedSlots(timers), id, if id in place && place[id].Parked? then place[id].timer else -1);
  }

  /**
   Conservation: in every reachable state an accepted message is exactly once with the consumer, in the channel, with a
   worker, with a timer, or ended; nothing else is anywhere.
   */
  lemma {:induction false} ExactlyOnePlace(c: Config, partitions: nat, workers: nat, actions: seq<Action>, id: Id)
    ensures var s := Run(c, partitions, workers, actions);
            Times(s.pending, id) + Times(QueuedSlots(s.ch), id) + Times(HeldSlots(s.phases), id) +
                Times(ParkedSlots(s.timers), id)
              + Times(EndedSlots(s.finished), id) == if AcceptedId(s, id) then 1 else 0
  {
    RunKeepsInv(c, partitions, workers, actions);
    var s := Run(c, partitions, workers, actions);
    hide Run, PendOk, ChOk, WorkOk, TimerOk, EndOk, Jobs, Tallied, DedupOk, Times;
    PendingOnce(s.pending, s.place, id);
    QueuedOnce(s.ch, s.place, id);
    WorkedOnce(s.phases, s.place, id);
    ParkedOnce(s.timers, s.place, id);
    EndedOnce(s.finished, s.place, id);
  }

  /** In every reachable state the counters say how many messages ended how, and how many timers are out. */
  lemma {:induction false} CountersAgree(c: Config, partitions: nat, workers: nat, actions: seq<Action>)
    ensures var s := Run(c, partitions, workers, actions);
            && s.counters.processed == Ends(s.finished, Delivered)
            && s.counters.deduped == Ends(s.finished, Deduped)
            && s.counters.failed == Ends(s.finished, Exhausted) + Ends(s.finished, Permanent)
            && s.counters.parked == Live(s.timers) == s.timerWg
  {
    RunKeepsInv(c, partitions, workers, actions);
    hide Run;
  }

  /** No message is posted more than MaxRetries + 1 times, and none that was not accepted is posted at all. */
  lemma {:induction false} AttemptsBounded(c: Config, partitions: nat, workers: nat, actions: seq<Action>, id: Id)
    ensures var s := Run(c, partitions, workers, actions);
            Posts(s.events, id) <= if AcceptedId(s, id) then c.maxRetries + 1 else 0
  {
    RunKeepsInv(c, partitions, workers, actions);
    var s := Run(c, partitions, workers, actions);
    hide Run, PendOk, ChOk, WorkOk, TimerOk, EndOk, Tallied, DedupOk, Posts, Triangle;
    assert id in s.jobs ==> JobOk(c, s.jobs[id]);
  }

  /**
   A message that went to the dead-letter topic for lack of retries, and never had a failed dedup check, was posted
   exactly MaxRetries + 1 times and waited base * M * (M + 1) / 2 in all.
   */
  lemma {:induction false} ExhaustedAfterAll(c: Config, partitions: nat, workers: nat, actions: seq<Action>, i: nat)
    ensures var s := Run(c, partitions, workers, actions);
            i < |s.finished| && s.finished[i].outcome == Exhausted ==>
              var id := s.finished[i].id;
              && id in s.jobs && s.jobs[id].retry >= c.maxRetries
              && (s.jobs[id].checkErrors == 0 ==>
                    Posts(s.events, id) == c.maxRetries + 1
                        && 2 * s.jobs[id].backoff == c.base * (c.maxRetries * (c.maxRetries + 1)))
  {
    RunKeepsInv(c, partitions, workers, actions);
    var s := Run(c, partitions, workers, actions);
    hide Run, PendOk, ChOk, WorkOk, TimerOk, Tallied, DedupOk, Posts, Triangle;
    if i < |s.finished| && s.finished[i].outcome == Exhausted {
      var id := s.finished[i].id;
      assert id in s.jobs && JobOk(c, s.jobs[id]) && StageAt(c, s.jobs[id], s.place[id], s.phases);
      BackoffTotal(c, s.jobs[id]);
    }
  }

  lemma BackoffTotal(c: Config, j: Job)
    requires JobOk(c, j)
    ensures 2 * j.backoff == c.base * (j.retry * (j.retry + 1))
  {
    TriangleValue(j.retry);
    assert 2 * (c.base * Triangle(j.retry)) == c.base * (2 * Triangle(j.retry));
  }

  /**
   Shutdown: whatever Stop, workers and timers do in whatever order, no timer sends on the closed channel, not even one
   armed while Stop is under way; the recover in the timer never catches anything.
   */
  lemma {:induction false} NoSendAfterClose(c: Config, partitions: nat, workers: nat, actions: seq<Action>)
    ensures var s := Run(c, partitions, workers, actions);
            !s.panicked && (s.stop >= 3 ==> forall t: nat | t < |s.timers| :: !s.timers[t].Sending?)
  {
    RunKeepsInv(c, partitions, workers, actions);
    hide Run;
  }

  /** What is skipped as a duplicate has the key of a message delivered before, or one the store knew from the start. */
  lemma {:induction false} DedupedWasDelivered(c: Config, partitions: nat, workers: nat, actions: seq<Action>, i: nat)
    ensures var s := Run(c, partitions, workers, actions);
            i < |s.finished| && s.finished[i].outcome == Deduped ==>
              var k := KeyAt(c, s.log, s.finished[i].id);
              && k.Some?
              && (k.value in c.stored
                  || exists j: nat ::
                      j < i && s.finished[j].outcome == Delivered && KeyAt(c, s.log, s.finished[j].id) == k)
  {
    RunKeepsInv(c, partitions, workers, actions);
    var s := Run(c, partitions, workers, actions);
    hide Run, Places, Jobs, Tallied, KeyAt, InLog;
    if i < |s.finished| && s.finished[i].outcome == Deduped {
      var k := KeyAt(c, s.log, s.finished[i].id);
      assert Backed(c, s.log, s.finished[..i], k);
      if k.value !in c.stored {
        var j: nat :| j < i && s.finished[..i][j].outcome == Delivered && KeyAt(c, s.log, s.finished[..i][j].id) == k;
        assert s.finished[j] == s.finished[..i][j];
      }
    }
  }
}
