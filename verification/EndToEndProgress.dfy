/**
 What block workers and delivery service get done together: no STUMP is in its first attempt when its BLOCK_PROCESSED is
 posted, no gate leaks, whatever is in the topic can be brought to its end, and a block of which nothing was lost can be
 completed and delivered to every registered URL.
 */
module EndToEndProgress {
  import opened Prelude
  import opened CallbackLog
  import opened EndToEnd
  import B = BlockProtocol
  import BlockProgress
  import BlockCompletion
  import D = Delivery
  import Gate = DeliveryGate
  import Account = DeliveryAccount
  import Outcome = DeliveryOutcome
  import Service = DeliveryService
  import Drain = DeliveryDrain
  import Shutdown = DeliveryShutdown
  import First = DeliveryFirst
  import Cleanup = GateCleanup

  // ---------------------------------------------------------------- what the delivery side keeps

  /** Whatever holds of every run of the delivery machine holds of the delivery side. */
  lemma {:induction false} DeliveryKeeps(c: D.Config, partitions: nat, workers: nat, actions: seq<Action>)
    ensures var s := Run(c, partitions, workers, actions).delivery;
            Drain.All(c, s) && Account.Places(s) && |s.phases| == workers
  {
    RunKeepsInv(c, partitions, workers, actions);
    DeliverySideIsARun(c, partitions, workers, actions);
    var s := Run(c, partitions, workers, actions).delivery;
    hide Run, Outcome.Run, Gate.Inv, B.Inv, Service.Sound, Account.Places;
    var ds: seq<D.Action> :| Outcome.Run(c, partitions, workers, ds) == s;
    Outcome.RunKeepsInv(c, partitions, workers, ds);
    Service.RunSound(c, partitions, workers, ds);
  }

  /** What a step of the whole publishes keeps the topic in order. */
  lemma PublishesInOrder(c: D.Config, s: State, a: Action)
    requires Inv(c, s)
    ensures var d := DeliveryActionOf(s, a); d.Some? ==> Gate.Allowed(c, s.delivery, d.value)
  {
    hide B.Inv, Gate.Inv, B.Step, Append, Ordered;
    if a.Block? {
      StepPublishes(c.part, s.blocks, a.b);
      B.StepKeepsInv(c.part, s.blocks, a.b);
      BlockLogInOrder(c.part, B.Step(c.part, s.blocks, a.b));
    }
  }

  lemma {:induction false} FirstsAndGates(c: D.Config, partitions: nat, workers: nat, actions: seq<Action>)
    ensures var s := Run(c, partitions, workers, actions).delivery; First.OverOk(s) && Cleanup.Clean(s)
  {
    if actions == [] {
    } else {
      var before, a := actions[..|actions| - 1], actions[|actions| - 1];
      FirstsAndGates(c, partitions, workers, before);
      RunKeepsInv(c, partitions, workers, before);
      DeliveryKeeps(c, partitions, workers, before);
      var s := Run(c, partitions, workers, before);
      assert Run(c, partitions, workers, actions) == Step(c, s, a);
      hide Run, Step, D.Step, B.Inv, Gate.Inv, Outcome.Inv, Service.Sound, Account.Places, First.OverOk, Cleanup.Clean,
        Gate.Allowed, DeliveryActionOf;
      LogsAgree(c, s);
      SideStep(c, s, a);
      PublishesInOrder(c, s, a);
      var d := DeliveryActionOf(s, a);
      if d.Some? {
        First.StepOver(c, s.delivery, d.value);
        Cleanup.StepClean(c, s.delivery, d.value);
      }
    }
  }

  /**
   In every run: while a BLOCK_PROCESSED is being posted, every STUMP of its block and URL that was ever published has
   ended or has been scheduled for a retry.
   */
  lemma {:induction false} NoStumpInFirstAttempt(c: D.Config, partitions: nat, workers: nat, actions: seq<Action>,
                                                 w: nat, stump: D.Id)
    ensures var s := Run(c, partitions, workers, actions).delivery;
            w < |s.phases| && (s.phases[w].Posting? || s.phases[w].InFlight?)
            && D.InLog(s.log, stump) && D.IsEndAt(s.log, s.phases[w].id)
            && Gate.StumpFor(D.MsgAt(s.log, stump), D.KeyOf(D.MsgAt(s.log, s.phases[w].id)))
            ==> stump in s.jobs && stump in s.place && (s.jobs[stump].retry > 0 || s.place[stump].Final?)
  {
    FirstsAndGates(c, partitions, workers, actions);
    RunKeepsInv(c, partitions, workers, actions);
    var s := Run(c, partitions, workers, actions).delivery;
    hide Run, Gate.Inv, B.Inv, First.OverOk, Cleanup.Clean, D.MsgAt, D.InLog, Gate.StumpFor;
    if w < |s.phases| && (s.phases[w].Posting? || s.phases[w].InFlight?)
       && D.InLog(s.log, stump) && D.IsEndAt(s.log, s.phases[w].id)
       && Gate.StumpFor(D.MsgAt(s.log, stump), D.KeyOf(D.MsgAt(s.log, s.phases[w].id))) {
      First.StumpsAreOver(c, s, w, stump);
    }
  }

  /**
   In every run: a BLOCK_PROCESSED that has passed leaves no gate behind, save while a worker is about to delete it.
   */
  lemma {:induction false} NoGateLeft(c: D.Config, partitions: nat, workers: nat, actions: seq<Action>, id: D.Id)
    ensures var s := Run(c, partitions, workers, actions).delivery;
            var key := D.KeyOf(D.MsgAt(s.log, id));
            id in s.passed && key in s.gates ==>
              exists w: nat :: w < |s.phases| && s.phases[w].Deleting? && D.KeyOf(D.MsgAt(s.log, s.phases[w].id)) == key
  {
    FirstsAndGates(c, partitions, workers, actions);
    hide Run, First.OverOk, D.MsgAt;
  }

  // ---------------------------------------------------------------- a failed attempt is tried again

  /** From a failure back to the channel, over the timer `t`. */
  function RetrySteps(failure: D.Action, w: nat, t: nat): seq<D.Action> {
    [failure, D.LoadFlag(w), D.Arm(w), D.Fire(t), D.TimerSend(t)]
  }

  /**
   In every run: while the service runs and the channel has room, an attempt that fails with retries left leads, by
   steps of its worker and its timer, to the message at the end of the channel with its RetryCount one higher.
   */
  lemma {:induction false} FailedIsRetried(c: D.Config, partitions: nat, workers: nat, actions: seq<Action>, w: nat)
    ensures var s := Run(c, partitions, workers, actions).delivery;
            w < |s.phases| && s.phases[w].InFlight? ==>
              var id, steps := s.phases[w].id, RetrySteps(D.PostFails(w), w, |s.timers|);
              var s' := Run(c, partitions, workers, actions + Delivers(steps)).delivery;
              && id in s.jobs
              && (s.stop == 0 && |s.ch| < c.cap && s.jobs[id].retry < c.maxRetries ==>
                    && s'.ch == s.ch + [id] && id in s'.jobs && s'.jobs[id].retry == s.jobs[id].retry + 1
                    && s'.finished == s.finished && s'.stop == 0)
  {
    RunKeepsInv(c, partitions, workers, actions);
    var s := Run(c, partitions, workers, actions).delivery;
    hide Run, Gate.Inv, B.Inv, D.RunFrom;
    if w < |s.phases| && s.phases[w].InFlight? {
      Drain.GateFacts(c, s, w);
      RunMore(c, partitions, workers, actions, RetrySteps(D.PostFails(w), w, |s.timers|));
      if s.stop == 0 && |s.ch| < c.cap && s.jobs[s.phases[w].id].retry < c.maxRetries {
        Drain.RetryReturns(c, s, w);
      }
    }
  }

  /**
   In every run the same holds of a dedup check that fails, with no attempt made and however many retries there were.
   */
  lemma {:induction false} UncheckedIsRetried(c: D.Config, partitions: nat, workers: nat, actions: seq<Action>, w: nat)
    ensures var s := Run(c, partitions, workers, actions).delivery;
            w < |s.phases| && s.phases[w].Checking? ==>
              var id, steps := s.phases[w].id, RetrySteps(D.CheckFails(w), w, |s.timers|);
              var s' := Run(c, partitions, workers, actions + Delivers(steps)).delivery;
              && id in s.jobs
              && (s.stop == 0 && |s.ch| < c.cap && D.DedupKeyOf(c, D.MsgAt(s.log, id)).Some? ==>
                    && s'.ch == s.ch + [id] && id in s'.jobs && s'.jobs[id].retry == s.jobs[id].retry + 1
                    && s'.jobs[id].attempts == s.jobs[id].attempts && s'.finished == s.finished && s'.stop == 0)
  {
    RunKeepsInv(c, partitions, workers, actions);
    var s := Run(c, partitions, workers, actions).delivery;
    hide Run, Gate.Inv, B.Inv, D.RunFrom, D.DedupKeyOf, D.MsgAt;
    if w < |s.phases| && s.phases[w].Checking? {
      Drain.GateFacts(c, s, w);
      RunMore(c, partitions, workers, actions, RetrySteps(D.CheckFails(w), w, |s.timers|));
      if s.stop == 0 && |s.ch| < c.cap && D.DedupKeyOf(c, D.MsgAt(s.log, s.phases[w].id)).Some? {
        Drain.UncheckedReturns(c, s, w);
      }
    }
  }

  /**
   In every run: a STUMP whose blob is gone ends there, is not posted, and if it was its first attempt the gate no
   longer counts it once its worker has returned.
   */
  lemma {:induction false} MissingBlobEnds(c: D.Config, partitions: nat, workers: nat, actions: seq<Action>, w: nat)
    ensures var s := Run(c, partitions, workers, actions).delivery;
            w < |s.phases| && s.phases[w].Posting? && D.IsStumpAt(s.log, s.phases[w].id) ==>
              var id := s.phases[w].id;
              var s' := Run(c, partitions, workers, actions + Delivers([D.FailForGood(w), D.Return(w)])).delivery;
              && s'.finished == s.finished + [D.End(id, D.Permanent)] && s'.timers == s.timers
              && Account.Posts(s'.events, id) == Account.Posts(s.events, id)
              && (id in s.jobs && s.jobs[id].retry == 0 ==> id in s'.done)
  {
    RunKeepsInv(c, partitions, workers, actions);
    DeliveryKeeps(c, partitions, workers, actions);
    FirstsAndGates(c, partitions, workers, actions);
    var s := Run(c, partitions, workers, actions).delivery;
    hide Run, Gate.Inv, B.Inv, D.MsgAt, D.RunFrom, Account.Places, First.OverOk, Cleanup.Clean, Outcome.Inv,
      Service.Sound, Account.Posts, D.Step;
    if w < |s.phases| && s.phases[w].Posting? && D.IsStumpAt(s.log, s.phases[w].id) {
      OwesFirst(c, s, w);
      RunMore(c, partitions, workers, actions, [D.FailForGood(w), D.Return(w)]);
      Shutdown.TwoSteps(c, s, D.FailForGood(w), D.Return(w));
      BlobGoneSteps(c, s, w);
      NotPosted(s, w);
    }
  }

  lemma BlobGoneSteps(c: D.Config, s: D.State, w: nat)
    requires w < |s.phases| && w < |s.owes| && s.phases[w].Posting? && D.IsStumpAt(s.log, s.phases[w].id)
    ensures var id, s' := s.phases[w].id, D.Step(c, D.Step(c, s, D.FailForGood(w)), D.Return(w));
            && s'.finished == s.finished + [D.End(id, D.Permanent)] && s'.timers == s.timers
            && s'.events == s.events + (if s.owes[w].Some? then [D.FirstDone(s.owes[w].value)] else [])
            && (s.owes[w].Some? ==> s.owes[w].value in s'.done)
  {
    hide D.MsgAt;
  }

  lemma NotPosted(s: D.State, w: nat)
    requires w < |s.phases| && w < |s.owes| && s.phases[w].Posting?
    ensures Account.Posts(s.events + (if s.owes[w].Some? then [D.FirstDone(s.owes[w].value)] else []), s.phases[w].id)
         == Account.Posts(s.events, s.phases[w].id)
  {
    hide Account.Posts;
    if s.owes[w].Some? {
      Account.PostsSnoc(s.events, D.FirstDone(s.owes[w].value), s.phases[w].id);
    } else {
      assert s.events + [] == s.events;
    }
  }

  /** A worker that holds a STUMP in its first attempt owes the gate a Done for it. */
  lemma OwesFirst(c: D.Config, s: D.State, w: nat)
    requires Gate.Inv(c, s) && Account.Places(s) && First.OverOk(s)
    requires w < |s.phases| && s.phases[w].Posting? && D.IsStumpAt(s.log, s.phases[w].id)
    ensures w < |s.owes| && s.phases[w].id in s.jobs
    ensures s.jobs[s.phases[w].id].retry == 0 ==> s.owes[w] == Some(s.phases[w].id)
  {
    var id := s.phases[w].id;
    First.WorkerFacts(c, s, w);
    assert D.Holds(s.phases[w]) == Some(id);
    if s.jobs[id].retry == 0 {
      assert !First.Over(s.jobs, s.place, id);
      var v := OwerOf(c, s, w);
      First.WorkerFacts(c, s, v);
    }
  }

  lemma OwerOf(c: D.Config, s: D.State, w: nat) returns (v: nat)
    requires Gate.Inv(c, s) && w < |s.phases| && s.phases[w].Posting? && D.IsStumpAt(s.log, s.phases[w].id)
    requires s.phases[w].id !in s.done
    ensures v < |s.phases| && v < |s.owes| && s.owes[v] == Some(s.phases[w].id)
  {
    hide Gate.LogOk, Gate.FifoOk, Gate.RetryOk, Gate.GateOk, Gate.EventsOk, Gate.PassedOk, Gate.BeyondOk;
    var id := s.phases[w].id;
    assert D.Holds(s.phases[w]) == Some(id);
    assert Gate.TakenJob(s.jobs, s.taken, id);
    assert Gate.Owable(s.log, s.taken, s.done, id);
    assert Gate.OwedBy(s.owes, id);
    v :| v < |s.owes| && s.owes[v] == Some(id);
  }

  // ---------------------------------------------------------------- everything can end

  /**
   From every state of every run, as long as the service runs: some steps of consumers, workers and timers bring every
   message of the topic to its end, and none that has not ended yet is given up.
   */
  lemma {:induction false} EverythingCanEnd(c: D.Config, partitions: nat, workers: nat, actions: seq<Action>)
    returns (ds: seq<D.Action>)
    requires Run(c, partitions, workers, actions).delivery.stop == 0 && c.cap >= 1 && workers >= 1
    ensures var s := Run(c, partitions, workers, actions).delivery;
            var s' := Run(c, partitions, workers, actions + Delivers(ds)).delivery;
            && s'.log == s.log && s'.stop == 0 && Drain.NoneGivenUp(s, s')
            && forall id | D.InLog(s.log, id) :: exists i: nat :: i < |s'.finished| && s'.finished[i].id == id
  {
    DeliveryKeeps(c, partitions, workers, actions);
    var s := Run(c, partitions, workers, actions).delivery;
    hide Run, Gate.Inv, Outcome.Inv, Service.Sound, Account.Places, D.RunFrom, Drain.Drained, Drain.NoneGivenUp,
      D.InLog;
    ds := Drain.Drain(c, s);
    assert forall i | 0 <= i < |ds| :: ds[i] in ds;
    RunMore(c, partitions, workers, actions, ds);
    var s' := Run(c, partitions, workers, actions + Delivers(ds)).delivery;
    forall id | D.InLog(s.log, id) ensures exists i: nat :: i < |s'.finished| && s'.finished[i].id == id {
      Drain.DrainedMeansEnded(c, s', id);
    }
  }

  /**
   From every state of every run, before or during Stop: Stop comes to its end. The channel is closed and empty, all
   workers are gone, no timer is left, nothing has panicked, and what was accepted has ended unless a consumer holds it.
   */
  lemma {:induction false} StopCanEnd(c: D.Config, partitions: nat, workers: nat, actions: seq<Action>)
    returns (ds: seq<D.Action>)
    requires c.cap >= 1 && workers >= 1
    ensures var s := Run(c, partitions, workers, actions + Delivers(ds)).delivery;
            && s.stop == 3 && s.ch == [] && !s.panicked
            && (forall w: nat | w < |s.phases| :: s.phases[w].Exited?)
            && (forall t: nat | t < |s.timers| :: s.timers[t].Gone?)
            && (forall id | Outcome.AcceptedId(s, id) && !Pending(s, id) ::
                  exists i: nat :: i < |s.finished| && s.finished[i].id == id)
  {
    DeliveryKeeps(c, partitions, workers, actions);
    hide Run, Gate.Inv, Outcome.Inv, Service.Sound, Account.Places, D.RunFrom, Gate.Busy, Outcome.AcceptedId;
    ds := Shutdown.StopEnds(c, Run(c, partitions, workers, actions).delivery);
    assert forall i | 0 <= i < |ds| :: ds[i] in ds;
    RunMore(c, partitions, workers, actions, ds);
    var s := Run(c, partitions, workers, actions + Delivers(ds)).delivery;
    Shutdown.NoneSendsLate(c, s);
    forall id | Outcome.AcceptedId(s, id) && !Pending(s, id)
      ensures exists i: nat :: i < |s.finished| && s.finished[i].id == id
    {
      Shutdown.QuietMeansEnded(c, s, id);
    }
  }

  /** A consumer has accepted the message and not sent it yet. */
  ghost predicate Pending(s: D.State, id: D.Id) {
    exists p: nat :: p < |s.pending| && s.pending[p] == Some(id)
  }

  // ---------------------------------------------------------------- a block is completed and delivered

  /** Block steps as steps of the whole. */
  function Blocks(bs: seq<B.Action>): (r: seq<Action>)
    ensures |r| == |bs| && forall i | 0 <= i < |bs| :: r[i] == Block(bs[i])
  {
    seq(|bs|, i requires 0 <= i < |bs| => Block(bs[i]))
  }

  lemma {:induction false} BlockActionsMore(actions: seq<Action>, bs: seq<B.Action>)
    ensures BlockActions(actions + Blocks(bs)) == BlockActions(actions) + bs
    decreases |bs|
  {
    if bs == [] {
      assert actions + Blocks(bs) == actions;
    } else {
      var n := |bs| - 1;
      BlockActionsMore(actions, bs[..n]);
      var all := actions + Blocks(bs);
      assert all[..|all| - 1] == actions + Blocks(bs[..n]);
      assert bs == bs[..n] + [bs[n]];
    }
  }

  /** The topic only grows. */
  ghost predicate Extends(log: Log, log': Log) {
    |log'| == |log| && forall p | 0 <= p < |log| :: |log[p]| <= |log'[p]| && log'[p][..|log[p]|] == log[p]
  }

  lemma ExtendsKeeps(log: Log, log': Log, id: D.Id)
    requires Extends(log, log') && D.InLog(log, id)
    ensures D.InLog(log', id) && D.MsgAt(log', id) == D.MsgAt(log, id)
  {
    assert log'[id.part][id.off] == log'[id.part][..|log[id.part]|][id.off];
  }

  lemma ExtendsMore(log: Log, log1: Log, log2: Log)
    requires Extends(log, log1) && Extends(log1, log2)
    ensures Extends(log, log2)
  {
    forall p | 0 <= p < |log| ensures log2[p][..|log[p]|] == log[p] {
      assert log2[p][..|log[p]|] == log2[p][..|log1[p]|][..|log[p]|];
    }
  }

  lemma AppendExtends(log: Log, part: Url -> nat, m: Msg)
    ensures Extends(log, Append(log, part, m))
  {
  }

  /** Block steps leave everything of the delivery service alone except that the topic grows. */
  lemma {:induction false} BlocksOnlyAppend(c: D.Config, partitions: nat, workers: nat, actions: seq<Action>,
                                            bs: seq<B.Action>)
    ensures var s := Run(c, partitions, workers, actions).delivery;
            var s' := Run(c, partitions, workers, actions + Blocks(bs)).delivery;
            s' == s.(log := s'.log) && Extends(s.log, s'.log)
    decreases |bs|
  {
    if bs == [] {
      assert actions + Blocks(bs) == actions;
    } else {
      var n := |bs| - 1;
      BlocksOnlyAppend(c, partitions, workers, actions, bs[..n]);
      var all := actions + Blocks(bs);
      var before := actions + Blocks(bs[..n]);
      assert all[..|all| - 1] == before && all[|all| - 1] == Block(bs[n]);
      var s1 := Run(c, partitions, workers, before);
      assert Run(c, partitions, workers, all) == Step(c, s1, Block(bs[n]));
      RunKeepsInv(c, partitions, workers, before);
      LogsAgree(c, s1);
      var log := Run(c, partitions, workers, actions).delivery.log;
      hide Run, B.Step, Extends, Append, Inv;
      StepPublishes(c.part, s1.blocks, bs[n]);
      if m: Msg :| Published(s1.blocks, bs[n]) == Some(m) {
        AppendExtends(s1.delivery.log, c.part, m);
        ExtendsMore(log, s1.delivery.log, Append(s1.delivery.log, c.part, m));
      }
    }
  }

  /** A BLOCK_PROCESSED is in the topic only of a block that has reached 0. */
  lemma ToldIsZero(part: Url -> nat, s: B.State, id: D.Id)
    requires B.Inv(part, s) && D.InLog(s.log, id) && D.IsEndAt(s.log, id)
    ensures B.ReachedZero(s.zeroed, D.MsgAt(s.log, id).block)
  {
    assert B.Complete(s.blocks, s.log[id.part][id.off].block);
  }

  lemma {:induction false} BlockActionAt(actions: seq<Action>, k: nat) returns (n: nat)
    requires k < |actions| && actions[k].Block?
    ensures n < |BlockActions(actions)| && BlockActions(actions)[n] == actions[k].b
  {
    var last := |actions| - 1;
    if k == last {
      n := |BlockActions(actions)| - 1;
    } else {
      n := BlockActionAt(actions[..last], k);
    }
  }

  lemma {:induction false} BlockActionsFrom(actions: seq<Action>, n: nat)
    requires n < |BlockActions(actions)|
    ensures Block(BlockActions(actions)[n]) in actions
  {
    var last := |actions| - 1;
    if n < |BlockActions(actions[..last])| {
      BlockActionsFrom(actions[..last], n);
    }
  }

  /** The message has ended, delivered or known to have been. */
  ghost predicate EndedWell(s: D.State, m: Msg) {
    exists i: nat :: i < |s.finished| && D.MsgAt(s.log, s.finished[i].id) == m
                     && (s.finished[i].outcome == D.Delivered || s.finished[i].outcome == D.Deduped)
  }

  /**
   From every state of every run of the whole, as long as the service runs, a block of which no dispatch and no
   decrement was lost and which has not reached 0 can be completed and its BLOCK_PROCESSED delivered to every URL of
   the registry, whatever has failed before.
   */
  lemma {:induction false} BlockCanBeDelivered(c: D.Config, partitions: nat, workers: nat, actions: seq<Action>, k: nat,
                                               b: Block, n: nat, urls: seq<Url>) returns (more: seq<Action>)
    requires c.cap >= 1 && workers >= 1 && Run(c, partitions, workers, actions).delivery.stop == 0
    requires k < |actions| && actions[k] == Block(B.Announce(b, n)) && n > 0
    requires forall a | a in actions && a.Block? :: !BlockCompletion.Loses(a.b, b)
    requires !B.ReachedZero(Run(c, partitions, workers, actions).blocks.zeroed, b)
    ensures var s' := Run(c, partitions, workers, actions + more);
            && b in s'.blocks.blocks && s'.blocks.blocks[b].remaining == 0
            && forall u | u in urls && c.part(u) < partitions :: EndedWell(s'.delivery, Msg(BlockProcessed, b, u, 0))
  {
    var bs := Completion(c, partitions, workers, actions, k, b, n, urls);
    var mid := actions + Blocks(bs);
    BlocksOnlyAppend(c, partitions, workers, actions, bs);
    var ds := EverythingCanEnd(c, partitions, workers, mid);
    more := Blocks(bs) + Delivers(ds);
    assert actions + more == mid + Delivers(ds);
    var s, s1 := Run(c, partitions, workers, actions), Run(c, partitions, workers, mid);
    var s2 := Run(c, partitions, workers, mid + Delivers(ds));
    DeliversKeepBlocks(c, partitions, workers, mid, ds);
    RunKeepsInv(c, partitions, workers, actions);
    DeliveryKeeps(c, partitions, workers, actions);
    LogsAgree(c, s);
    RunKeepsInv(c, partitions, workers, mid);
    LogsAgree(c, s1);
    hide Run, Gate.Inv, B.Inv, Outcome.Inv, Service.Sound, Account.Places, EndedWell, Extends, B.ReachedZero,
      BlockProgress.InTopic;
    forall u | u in urls && c.part(u) < partitions ensures EndedWell(s2.delivery, Msg(BlockProcessed, b, u, 0)) {
      var m := Msg(BlockProcessed, b, u, 0);
      var id := InTopicAt(s1.delivery.log, m);
      EndsAfter(c, s, s1.delivery, s2.delivery, id, m);
    }
  }

  lemma InTopicAt(log: Log, m: Msg) returns (id: D.Id)
    requires BlockProgress.InTopic(log, m)
    ensures D.InLog(log, id) && D.MsgAt(log, id) == m
  {
    var p, i :| 0 <= p < |log| && 0 <= i < |log[p]| && log[p][i] == m;
    id := D.Id(p, i);
  }

  /** A BLOCK_PROCESSED of a block that had not reached 0 ends after that. */
  lemma EndsAfter(c: D.Config, s: State, s1: D.State, s2: D.State, id: D.Id, m: Msg)
    requires B.Inv(c.part, s.blocks) && s.blocks.log == s.delivery.log && Account.Places(s.delivery)
    requires m.kind == BlockProcessed && !B.ReachedZero(s.blocks.zeroed, m.block)
    requires s1 == s.delivery.(log := s1.log) && Extends(s.delivery.log, s1.log)
    requires s2.log == s1.log && D.InLog(s1.log, id) && D.MsgAt(s1.log, id) == m && Drain.NoneGivenUp(s1, s2)
    requires exists i: nat :: i < |s2.finished| && s2.finished[i].id == id
    ensures EndedWell(s2, m)
  {
    hide B.Inv, Extends, B.ReachedZero, Account.Places;
    var i: nat :| i < |s2.finished| && s2.finished[i].id == id;
    if i < |s1.finished| {
      assert s1.finished[i] == s2.finished[..|s1.finished|][i];
      EndedInLog(s.delivery, i);
      ExtendsKeeps(s.delivery.log, s1.log, id);
      ToldIsZero(c.part, s.blocks, id);
    }
  }

  lemma EndedInLog(s: D.State, i: nat)
    requires Account.Places(s) && i < |s.finished|
    ensures D.InLog(s.log, s.finished[i].id)
  {
    hide Account.PendOk, Account.ChOk, Account.WorkOk, Account.TimerOk;
    assert s.finished[i].id in s.jobs;
  }

  lemma {:induction false} DeliversKeepBlocks(c: D.Config, partitions: nat, workers: nat, actions: seq<Action>,
                                              ds: seq<D.Action>)
    ensures Run(c, partitions, workers, actions + Delivers(ds)).blocks == Run(c, partitions, workers, actions).blocks
    decreases |ds|
  {
    if ds == [] {
      assert actions + Delivers(ds) == actions;
    } else {
      var n := |ds| - 1;
      DeliversKeepBlocks(c, partitions, workers, actions, ds[..n]);
      var all := actions + Delivers(ds);
      assert all[..|all| - 1] == actions + Delivers(ds[..n]) && all[|all| - 1] == Deliver(ds[n]);
      hide D.Step;
    }
  }

  /** The steps that complete the block, from a run of the whole. */
  lemma Completion(c: D.Config, partitions: nat, workers: nat, actions: seq<Action>, k: nat, b: Block, n: nat,
                   urls: seq<Url>) returns (bs: seq<B.Action>)
    requires k < |actions| && actions[k] == Block(B.Announce(b, n)) && n > 0
    requires forall a | a in actions && a.Block? :: !BlockCompletion.Loses(a.b, b)
    requires !B.ReachedZero(Run(c, partitions, workers, actions).blocks.zeroed, b)
    ensures var s' := Run(c, partitions, workers, actions + Blocks(bs)).blocks;
            && b in s'.blocks && s'.blocks[b].remaining == 0
            && forall u | u in urls && c.part(u) < partitions ::
                 BlockProgress.InTopic(s'.log, Msg(BlockProcessed, b, u, 0))
  {
    hide Run, B.Run, BlockCompletion.Loses, BlockProgress.InTopic, B.ReachedZero, BlockActions;
    var before := BlockActions(actions);
    var j := BlockActionAt(actions, k);
    forall i | 0 <= i < |before| ensures !BlockCompletion.Loses(before[i], b) {
      BlockActionsFrom(actions, i);
    }
    BlockSideIsARun(c, partitions, workers, actions);
    bs := BlockCompletion.BlockCanComplete(c.part, partitions, before, j, b, n, urls);
    BlockActionsMore(actions, bs);
    BlockSideIsARun(c, partitions, workers, actions + Blocks(bs));
  }
}
