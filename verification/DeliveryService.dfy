/**
 What holds of the delivery service as such in every run: the channel keeps within its capacity, workers leave only
 after the channel is closed and empty, a message is dropped only once Stop has been called, and only a STUMP fails for
 good.
 */
module DeliveryService {
  import opened Prelude
  import opened CallbackLog
  import opened Delivery
  import opened DeliveryOutcome

  ghost predicate DropsOk(finished: seq<End>, stop: nat) {
    forall i: nat | i < |finished| && finished[i].outcome == Dropped :: stop >= 1
  }

  ghost predicate ExitsOk(phases: seq<Phase>, ch: seq<Id>, stop: nat) {
    forall w: nat | w < |phases| && phases[w].Exited? :: stop >= 3 && ch == []
  }

  ghost predicate PermanentOk(log: Log, finished: seq<End>) {
    forall i: nat | i < |finished| && finished[i].outcome == Permanent :: IsStumpAt(log, finished[i].id)
  }

  ghost predicate Sound(c: Config, s: State) {
    && DropsOk(s.finished, s.stop) && ExitsOk(s.phases, s.ch, s.stop) && PermanentOk(s.log, s.finished)
    && |s.ch| <= c.cap
  }

  /** What a step of a worker can do to all this: one phase changes, and at most one message ends. */
  ghost predicate WorkerEffect(s: State, s': State, w: nat) {
    && s'.log == s.log && s'.stop == s.stop && |s'.ch| <= |s.ch| && |s'.phases| == |s.phases|
    && (s'.phases == s.phases || (w < |s.phases| && s'.phases == s.phases[w := s'.phases[w]] && !s'.phases[w].Exited?))
    && (s'.finished == s.finished
        || (s'.finished != [] && s'.finished == s.finished + [s'.finished[|s'.finished| - 1]]
            && (s'.finished[|s'.finished| - 1].outcome == Dropped ==> s.stop >= 1)
            && (s'.finished[|s'.finished| - 1].outcome == Permanent ==>
                  IsStumpAt(s.log, s'.finished[|s'.finished| - 1].id))))
  }

  lemma SoundAfterWorker(c: Config, s: State, s': State, w: nat)
    requires Sound(c, s) && WorkerEffect(s, s', w)
    ensures Sound(c, s')
  {
  }

  lemma TakeEffect(c: Config, s: State, w: nat)
    ensures WorkerEffect(s, Step(c, s, Take(w)), w)
  {
    hide MsgAt;
  }

  lemma PassEffect(c: Config, s: State, w: nat)
    ensures WorkerEffect(s, Step(c, s, PassGate(w)), w)
  {
    hide MsgAt;
  }

  lemma DeleteEffect(c: Config, s: State, w: nat)
    ensures WorkerEffect(s, Step(c, s, DeleteGate(w)), w)
  {
    hide MsgAt;
  }

  lemma CheckFailsEffect(c: Config, s: State, w: nat)
    ensures WorkerEffect(s, Step(c, s, CheckFails(w)), w)
  {
    hide MsgAt, DedupKeyOf;
  }

  lemma CheckEffect(c: Config, s: State, w: nat)
    ensures WorkerEffect(s, Step(c, s, Check(w)), w)
  {
    hide MsgAt, DedupKeyOf;
  }

  lemma BeginPostEffect(c: Config, s: State, w: nat)
    ensures WorkerEffect(s, Step(c, s, BeginPost(w)), w)
  {
  }

  lemma FailForGoodEffect(c: Config, s: State, w: nat)
    ensures WorkerEffect(s, Step(c, s, FailForGood(w)), w)
  {
    hide MsgAt;
  }

  lemma PostSucceedsEffect(c: Config, s: State, w: nat, recorded: bool)
    ensures WorkerEffect(s, Step(c, s, PostSucceeds(w, recorded)), w)
  {
    hide MsgAt, DedupKeyOf;
  }

  lemma PostFailsEffect(c: Config, s: State, w: nat)
    ensures WorkerEffect(s, Step(c, s, PostFails(w)), w)
  {
  }

  lemma LoadFlagEffect(c: Config, s: State, w: nat)
    ensures WorkerEffect(s, Step(c, s, LoadFlag(w)), w)
  {
  }

  lemma ArmEffect(c: Config, s: State, w: nat)
    ensures WorkerEffect(s, Step(c, s, Arm(w)), w)
  {
  }

  lemma ReturnEffect(c: Config, s: State, w: nat)
    ensures WorkerEffect(s, Step(c, s, Return(w)), w)
  {
    hide MsgAt;
  }

  /** What a timer can do: send within the capacity, or drop its message once Stop is under way. */
  lemma TimerSound(c: Config, s: State, t: nat)
    requires Sound(c, s)
    ensures Sound(c, Step(c, s, Fire(t))) && |Step(c, s, Fire(t)).phases| == |s.phases|
    ensures Sound(c, Step(c, s, TimerEnd(t))) && |Step(c, s, TimerEnd(t)).phases| == |s.phases|
  {
  }

  lemma TimerSendSound(c: Config, s: State, t: nat)
    requires Sound(c, s)
    ensures Sound(c, Step(c, s, TimerSend(t))) && |Step(c, s, TimerSend(t)).phases| == |s.phases|
  {
  }

  lemma ConsumerSound(c: Config, s: State, p: nat)
    requires Sound(c, s)
    ensures Sound(c, Step(c, s, Accept(p))) && |Step(c, s, Accept(p)).phases| == |s.phases|
    ensures Sound(c, Step(c, s, Send(p))) && |Step(c, s, Send(p)).phases| == |s.phases|
  {
    hide DropsOk, PermanentOk;
  }

  lemma StopSound(c: Config, s: State, a: Action)
    requires Sound(c, s) && (a.StopFlag? || a.StopWait? || a.StopClose? || a.Exit? || a.Forget?)
    ensures Sound(c, Step(c, s, a)) && |Step(c, s, a).phases| == |s.phases|
  {
    hide MsgAt;
  }

  lemma PublishSound(c: Config, s: State, m: Msg)
    requires Sound(c, s)
    ensures Sound(c, Step(c, s, Publish(m))) && |Step(c, s, Publish(m)).phases| == |s.phases|
  {
    hide DropsOk, ExitsOk;
    forall id | IsStumpAt(s.log, id) ensures IsStumpAt(Append(s.log, c.part, m), id) {
    }
  }

  lemma StepSound(c: Config, s: State, a: Action)
    requires Sound(c, s)
    ensures Sound(c, Step(c, s, a)) && |Step(c, s, a).phases| == |s.phases|
  {
    hide Step, Sound;
    match a {
      case Accept(p) => ConsumerSound(c, s, p);
      case Send(p) => ConsumerSound(c, s, p);
      case Fire(t) => TimerSound(c, s, t);
      case TimerEnd(t) => TimerSound(c, s, t);
      case TimerSend(t) => TimerSendSound(c, s, t);
      case Publish(m) => PublishSound(c, s, m);
      case Forget(_) => StopSound(c, s, a);
      case StopFlag => StopSound(c, s, a);
      case StopWait => StopSound(c, s, a);
      case StopClose => StopSound(c, s, a);
      case Exit(_) => StopSound(c, s, a);
      case Take(w) => TakeEffect(c, s, w); SoundAfterWorker(c, s, Step(c, s, a), w);
      case PassGate(w) => PassEffect(c, s, w); SoundAfterWorker(c, s, Step(c, s, a), w);
      case DeleteGate(w) => DeleteEffect(c, s, w); SoundAfterWorker(c, s, Step(c, s, a), w);
      case CheckFails(w) => CheckFailsEffect(c, s, w); SoundAfterWorker(c, s, Step(c, s, a), w);
      case Check(w) => CheckEffect(c, s, w); SoundAfterWorker(c, s, Step(c, s, a), w);
      case BeginPost(w) => BeginPostEffect(c, s, w); SoundAfterWorker(c, s, Step(c, s, a), w);
      case FailForGood(w) => FailForGoodEffect(c, s, w); SoundAfterWorker(c, s, Step(c, s, a), w);
      case PostSucceeds(w, r) => PostSucceedsEffect(c, s, w, r); SoundAfterWorker(c, s, Step(c, s, a), w);
      case PostFails(w) => PostFailsEffect(c, s, w); SoundAfterWorker(c, s, Step(c, s, a), w);
      case LoadFlag(w) => LoadFlagEffect(c, s, w); SoundAfterWorker(c, s, Step(c, s, a), w);
      case Arm(w) => ArmEffect(c, s, w); SoundAfterWorker(c, s, Step(c, s, a), w);
      case Return(w) => ReturnEffect(c, s, w); SoundAfterWorker(c, s, Step(c, s, a), w);
    }
  }

  lemma {:induction false} RunSound(c: Config, partitions: nat, workers: nat, actions: seq<Action>)
    ensures var s := Run(c, partitions, workers, actions); Sound(c, s) && |s.phases| == workers
  {
    if actions == [] {
    } else {
      hide Sound, Step;
      RunSound(c, partitions, workers, actions[..|actions| - 1]);
      StepSound(c, Run(c, partitions, workers, actions[..|actions| - 1]), actions[|actions| - 1]);
    }
  }

  /** In every run: a message is dropped only after Stop has been called. */
  lemma {:induction false} DroppedOnlyByStop(c: Config, partitions: nat, workers: nat, actions: seq<Action>, i: nat)
    ensures var s := Run(c, partitions, workers, actions);
            i < |s.finished| && s.finished[i].outcome == Dropped ==> s.stop >= 1
  {
    RunSound(c, partitions, workers, actions);
    hide Run;
  }

  /** In every run: only a STUMP ends as failed for good. */
  lemma {:induction false} OnlyStumpsFailForGood(c: Config, partitions: nat, workers: nat, actions: seq<Action>, i: nat)
    ensures var s := Run(c, partitions, workers, actions);
            i < |s.finished| && s.finished[i].outcome == Permanent ==> MsgAt(s.log, s.finished[i].id).kind == StumpMsg
  {
    RunSound(c, partitions, workers, actions);
    hide Run, MsgAt;
  }

  /** In every run: the work channel never holds more than its capacity. */
  lemma {:induction false} ChannelBounded(c: Config, partitions: nat, workers: nat, actions: seq<Action>)
    ensures |Run(c, partitions, workers, actions).ch| <= c.cap
  {
    RunSound(c, partitions, workers, actions);
    hide Run;
  }
}
