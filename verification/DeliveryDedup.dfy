/**
 Deduplication keeps a delivered message from being posted again: once the store knows a key and no attempt for a
 message with that key is under way, none is posted until the store forgets the key, however many are published, queued
 or retried.
 */
module DeliveryDedup {
  import opened Prelude
  import opened CallbackLog
  import opened Delivery
  import opened DeliveryAccount
  import opened DeliveryOutcome

  /** The phase is past the dedup check of a message with key `k`. */
  predicate Attempts(c: Config, log: Log, p: Phase, k: DedupKey) {
    (p.Posting? || p.InFlight?) && KeyAt(c, log, p.id) == Some(k)
  }

  ghost predicate NoAttempt(c: Config, log: Log, phases: seq<Phase>, k: DedupKey) {
    forall w: nat | w < |phases| :: !Attempts(c, log, phases[w], k)
  }

  ghost predicate Settled(c: Config, s: State, k: DedupKey) {
    k in s.dedup && NoAttempt(c, s.log, s.phases, k)
  }

  /** From event `from` on nothing that was posted is a message with key `k`. */
  ghost predicate NonePosted(c: Config, log: Log, events: seq<Event>, from: nat, k: DedupKey) {
    forall i: nat | from <= i < |events| && events[i].Posted? ::
        InLog(log, events[i].id) && KeyAt(c, log, events[i].id) != Some(k)
  }

  ghost predicate Kept(c: Config, s: State, from: nat, k: DedupKey) {
    Settled(c, s, k) && NonePosted(c, s.log, s.events, from, k) && from <= |s.events|
  }

  lemma PhaseChange(c: Config, log: Log, phases: seq<Phase>, k: DedupKey, w: nat, to: Phase)
    requires NoAttempt(c, log, phases, k) && w < |phases| && !Attempts(c, log, to, k)
    ensures NoAttempt(c, log, phases[w := to], k)
  {
  }

  lemma EventAdded(c: Config, log: Log, events: seq<Event>, from: nat, k: DedupKey, e: Event)
    requires NonePosted(c, log, events, from, k) && (e.Posted? ==> InLog(log, e.id) && KeyAt(c, log, e.id) != Some(k))
    ensures NonePosted(c, log, events + [e], from, k)
  {
    hide MsgAt, InLog;
  }

  /** What a worker holds is in the topic. */
  lemma HeldInLog(s: State, w: nat)
    requires Places(s) && w < |s.phases| && Holds(s.phases[w]).Some?
    ensures InLog(s.log, Holds(s.phases[w]).value)
  {
    hide Places, InLog;
    HeldJob(s, w);
    KnownInLog(s, Holds(s.phases[w]).value);
  }

  lemma PublishKept(c: Config, s: State, from: nat, k: DedupKey, n: Msg)
    requires Places(s) && Kept(c, s, from, k)
    ensures Kept(c, Step(c, s, Publish(n)), from, k)
  {
    hide Places, MsgAt, InLog, Append;
    var log': Log := Append(s.log, c.part, n);
    forall w: nat | w < |s.phases| ensures !Attempts(c, log', s.phases[w], k) {
      if s.phases[w].Posting? || s.phases[w].InFlight? {
        HeldInLog(s, w);
        AppendKeepsAt(c, s.log, n, s.phases[w].id);
        assert !Attempts(c, s.log, s.phases[w], k);
      }
    }
    forall i: nat | from <= i < |s.events| && s.events[i].Posted?
      ensures InLog(log', s.events[i].id) && KeyAt(c, log', s.events[i].id) != Some(k)
    {
      AppendKeepsAt(c, s.log, n, s.events[i].id);
    }
  }

  /** Steps that take a message, pass the gate, schedule a retry or end a message start no attempt. */
  lemma TakeKept(c: Config, s: State, from: nat, k: DedupKey, w: nat)
    requires Kept(c, s, from, k)
    ensures Kept(c, Step(c, s, Take(w)), from, k) && Kept(c, Step(c, s, PassGate(w)), from, k)
            && Kept(c, Step(c, s, DeleteGate(w)), from, k)
  {
    hide NoAttempt, NonePosted, MsgAt, InLog;
    if w < |s.phases| {
      if s.ch != [] {
        PhaseChange(c, s.log, s.phases, k, w, AtGate(s.ch[0]));
      }
      if Holds(s.phases[w]).Some? {
        PhaseChange(c, s.log, s.phases, k, w, Checking(Holds(s.phases[w]).value));
        PhaseChange(c, s.log, s.phases, k, w, Deleting(Holds(s.phases[w]).value));
      }
    }
  }

  lemma RetryKept(c: Config, s: State, from: nat, k: DedupKey, w: nat)
    requires Kept(c, s, from, k)
    ensures Kept(c, Step(c, s, CheckFails(w)), from, k) && Kept(c, Step(c, s, LoadFlag(w)), from, k)
            && Kept(c, Step(c, s, Arm(w)), from, k)
  {
    hide NoAttempt, NonePosted, MsgAt, InLog;
    if w < |s.phases| && Holds(s.phases[w]).Some? {
      PhaseChange(c, s.log, s.phases, k, w, Retrying(Holds(s.phases[w]).value));
      PhaseChange(c, s.log, s.phases, k, w, Arming(Holds(s.phases[w]).value));
      PhaseChange(c, s.log, s.phases, k, w, Returning);
    }
  }

  lemma EndKept(c: Config, s: State, from: nat, k: DedupKey, w: nat, recorded: bool)
    requires Kept(c, s, from, k)
    ensures Kept(c, Step(c, s, FailForGood(w)), from, k) && Kept(c, Step(c, s, PostFails(w)), from, k)
    ensures Kept(c, Step(c, s, PostSucceeds(w, recorded)), from, k)
  {
    hide NoAttempt, NonePosted, MsgAt, InLog;
    if w < |s.phases| && Holds(s.phases[w]).Some? {
      PhaseChange(c, s.log, s.phases, k, w, Retrying(Holds(s.phases[w]).value));
      PhaseChange(c, s.log, s.phases, k, w, Returning);
    }
  }

  /** The check: a message with key `k` is in the store, so it ends here. */
  lemma CheckKept(c: Config, s: State, from: nat, k: DedupKey, w: nat)
    requires Kept(c, s, from, k)
    ensures Kept(c, Step(c, s, Check(w)), from, k)
  {
    hide NoAttempt, NonePosted, MsgAt, InLog;
    if w < |s.phases| && s.phases[w].Checking? {
      PhaseChange(c, s.log, s.phases, k, w, Returning);
      if KeyAt(c, s.log, s.phases[w].id) != Some(k) {
        PhaseChange(c, s.log, s.phases, k, w, Posting(s.phases[w].id));
      }
    }
  }

  lemma PostKept(c: Config, s: State, from: nat, k: DedupKey, w: nat)
    requires Places(s) && Kept(c, s, from, k)
    ensures Kept(c, Step(c, s, BeginPost(w)), from, k)
  {
    hide NonePosted, MsgAt, InLog, Places;
    if w < |s.phases| && s.phases[w].Posting? {
      var id := s.phases[w].id;
      assert !Attempts(c, s.log, s.phases[w], k);
      HeldInLog(s, w);
      PhaseChange(c, s.log, s.phases, k, w, InFlight(id));
      EventAdded(c, s.log, s.events, from, k, Posted(id));
    }
  }

  lemma ReturnKept(c: Config, s: State, from: nat, k: DedupKey, w: nat)
    requires Kept(c, s, from, k)
    ensures Kept(c, Step(c, s, Return(w)), from, k) && Kept(c, Step(c, s, Exit(w)), from, k)
  {
    hide NoAttempt, NonePosted, MsgAt, InLog;
    if w < |s.phases| {
      PhaseChange(c, s.log, s.phases, k, w, Idle);
      PhaseChange(c, s.log, s.phases, k, w, Exited);
      if w < |s.owes| && s.owes[w].Some? {
        EventAdded(c, s.log, s.events, from, k, FirstDone(s.owes[w].value));
      }
    }
  }

  lemma ChannelKept(c: Config, s: State, from: nat, k: DedupKey, n: nat)
    requires Kept(c, s, from, k)
    ensures Kept(c, Step(c, s, Accept(n)), from, k) && Kept(c, Step(c, s, Send(n)), from, k)
  {
    hide NoAttempt, NonePosted;
  }

  lemma TimerKept(c: Config, s: State, from: nat, k: DedupKey, t: nat)
    requires Kept(c, s, from, k)
    ensures Kept(c, Step(c, s, Fire(t)), from, k) && Kept(c, Step(c, s, TimerEnd(t)), from, k)
  {
    hide NoAttempt, NonePosted;
  }

  lemma TimerSendKept(c: Config, s: State, from: nat, k: DedupKey, t: nat)
    requires Kept(c, s, from, k)
    ensures Kept(c, Step(c, s, TimerSend(t)), from, k)
  {
    hide NoAttempt, NonePosted;
  }

  lemma StopKept(c: Config, s: State, from: nat, k: DedupKey)
    requires Kept(c, s, from, k)
    ensures Kept(c, Step(c, s, StopFlag), from, k) && Kept(c, Step(c, s, StopWait), from, k)
            && Kept(c, Step(c, s, StopClose), from, k)
  {
    hide NoAttempt, NonePosted;
  }

  lemma ForgetKept(c: Config, s: State, from: nat, k: DedupKey, n: DedupKey)
    requires Kept(c, s, from, k) && n != k
    ensures Kept(c, Step(c, s, Forget(n)), from, k)
  {
    hide NoAttempt, NonePosted;
  }

  lemma StepKept(c: Config, s: State, a: Action, from: nat, k: DedupKey)
    requires Places(s) && Kept(c, s, from, k) && a != Forget(k)
    ensures Kept(c, Step(c, s, a), from, k)
  {
    hide Places, Kept, Step;
    match a
    case Publish(n) => PublishKept(c, s, from, k, n);
    case Accept(p) => ChannelKept(c, s, from, k, p);
    case Send(p) => ChannelKept(c, s, from, k, p);
    case Take(w) => TakeKept(c, s, from, k, w);
    case PassGate(w) => TakeKept(c, s, from, k, w);
    case DeleteGate(w) => TakeKept(c, s, from, k, w);
    case CheckFails(w) => RetryKept(c, s, from, k, w);
    case Check(w) => CheckKept(c, s, from, k, w);
    case BeginPost(w) => PostKept(c, s, from, k, w);
    case FailForGood(w) => EndKept(c, s, from, k, w, false);
    case PostSucceeds(w, recorded) => EndKept(c, s, from, k, w, recorded);
    case PostFails(w) => EndKept(c, s, from, k, w, false);
    case LoadFlag(w) => RetryKept(c, s, from, k, w);
    case Arm(w) => RetryKept(c, s, from, k, w);
    case Return(w) => ReturnKept(c, s, from, k, w);
    case Fire(t) => TimerKept(c, s, from, k, t);
    case TimerSend(t) => TimerSendKept(c, s, from, k, t);
    case TimerEnd(t) => TimerKept(c, s, from, k, t);
    case StopFlag => StopKept(c, s, from, k);
    case StopWait => StopKept(c, s, from, k);
    case StopClose => StopKept(c, s, from, k);
    case Exit(w) => ReturnKept(c, s, from, k, w);
    case Forget(n) => ForgetKept(c, s, from, k, n);
  }

  // ---------------------------------------------------------------- over runs

  lemma {:induction false} RunKept(c: Config, partitions: nat, workers: nat, before: seq<Action>, after: seq<Action>,
                                   k: DedupKey)
    requires Settled(c, Run(c, partitions, workers, before), k) && Forget(k) !in after
    ensures Kept(c, Run(c, partitions, workers, before + after), |Run(c, partitions, workers, before).events|, k)
  {
    hide Run, Kept, Settled, Step, Inv;
    if after == [] {
      assert before + after == before;
      KeptAtFirst(c, Run(c, partitions, workers, before), k);
    } else {
      var n := |after| - 1;
      RunKept(c, partitions, workers, before, after[..n], k);
      assert before + after == before + after[..n] + [after[n]];
      RunSnoc(c, partitions, workers, before + after[..n], after[n]);
      var s := Run(c, partitions, workers, before + after[..n]);
      RunKeepsInv(c, partitions, workers, before + after[..n]);
      PlacesOf(c, s);
      StepKept(c, s, after[n], |Run(c, partitions, workers, before).events|, k);
    }
  }

  lemma KeptAtFirst(c: Config, s: State, k: DedupKey)
    requires Settled(c, s, k)
    ensures Kept(c, s, |s.events|, k)
  {
  }

  lemma RunSnoc(c: Config, partitions: nat, workers: nat, actions: seq<Action>, a: Action)
    ensures Run(c, partitions, workers, actions + [a]) == Step(c, Run(c, partitions, workers, actions), a)
  {
    hide Step;
    assert (actions + [a])[..|actions|] == actions;
  }

  /** A successful attempt whose delivery is recorded puts its key into the store; no other attempt for it remains. */
  lemma RecordedIsSettled(c: Config, s: State, w: nat, k: DedupKey)
    requires Places(s) && w < |s.phases| && s.phases[w].InFlight? && KeyAt(c, s.log, s.phases[w].id) == Some(k)
    requires forall v: nat | v < |s.phases| && v != w :: !Attempts(c, s.log, s.phases[v], k)
    ensures Settled(c, Step(c, s, PostSucceeds(w, true)), k)
  {
    hide Places, MsgAt, DedupKeyOf;
    HeldJob(s, w);
  }

  /**
   In every run: a delivery that is recorded is not repeated. If worker `w` succeeds with a message of key `k` while no
   other attempt for `k` is under way, and the delivery is recorded, no message with that key is posted in whatever
   follows, as long as the store does not forget the key.
   */
  lemma {:induction false} RecordedNotRepeated(c: Config, partitions: nat, workers: nat, before: seq<Action>, w: nat,
                                               after: seq<Action>, k: DedupKey, i: nat)
    requires var s := Run(c, partitions, workers, before);
             && w < |s.phases| && s.phases[w].InFlight? && KeyAt(c, s.log, s.phases[w].id) == Some(k)
             && forall v: nat | v < |s.phases| && v != w :: !Attempts(c, s.log, s.phases[v], k)
    requires Forget(k) !in after
    ensures var s, s' := Run(c, partitions, workers, before),
                         Run(c, partitions, workers, before + [PostSucceeds(w, true)] + after);
            |s.events| <= i < |s'.events| && s'.events[i].Posted? ==> KeyAt(c, s'.log, s'.events[i].id) != Some(k)
  {
    RunKeepsInv(c, partitions, workers, before);
    RunSnoc(c, partitions, workers, before, PostSucceeds(w, true));
    var s := Run(c, partitions, workers, before);
    SameEvents(c, s, w);
    hide Run, Inv, Attempts, KeyAt, Step;
    PlacesOf(c, s);
    RecordedIsSettled(c, s, w, k);
    DeliveredNotRepeated(c, partitions, workers, before + [PostSucceeds(w, true)], after, k, i);
  }

  lemma SameEvents(c: Config, s: State, w: nat)
    ensures Step(c, s, PostSucceeds(w, true)).events == s.events
  {
    hide MsgAt, DedupKeyOf;
  }

  lemma PlacesOf(c: Config, s: State)
    requires Inv(c, s)
    ensures Places(s)
  {
  }

  /**
   In every run: once key `k` is recorded and no attempt for a message with it is under way, none is posted in whatever
   follows, as long as the store does not forget the key.
   */
  lemma {:induction false} DeliveredNotRepeated(c: Config, partitions: nat, workers: nat, before: seq<Action>,
                                                after: seq<Action>, k: DedupKey, i: nat)
    requires Settled(c, Run(c, partitions, workers, before), k) && Forget(k) !in after
    ensures var s, s' := Run(c, partitions, workers, before), Run(c, partitions, workers, before + after);
            |s.events| <= i < |s'.events| && s'.events[i].Posted? ==> KeyAt(c, s'.log, s'.events[i].id) != Some(k)
  {
    RunKept(c, partitions, workers, before, after, k);
    hide Run, Settled, MsgAt;
  }
}
