/**
 The block-completion protocol and the delivery service together: block workers append to the callback topic while the
 delivery service consumes it.  A run is any interleaving of their steps.
 */
module EndToEnd {
  import opened Prelude
  import opened CallbackLog
  import B = BlockProtocol
  import Once = BlockOnce
  import D = Delivery
  import Gate = DeliveryGate
  import Account = DeliveryAccount
  import Outcome = DeliveryOutcome
  import Progress = DeliveryProgress
  import SubtreeCounter

  datatype State = State(blocks: B.State, delivery: D.State)

  datatype Action = Block(b: B.Action) | Deliver(d: D.Action)

  /** Both sides see the one topic; only the block side and other producers append to it. */
  function Step(c: D.Config, s: State, a: Action): State {
    match a
    case Block(b) =>
      var blocks := B.Step(c.part, s.blocks, b);
      State(blocks, s.delivery.(log := blocks.log))
    case Deliver(d) => if d.Publish? then s else s.(delivery := D.Step(c, s.delivery, d))
  }

  function Run(c: D.Config, partitions: nat, workers: nat, actions: seq<Action>): State {
    if actions == [] then State(B.Initial(partitions), D.Initial(c, partitions, workers))
    else Step(c, Run(c, partitions, workers, actions[..|actions| - 1]), actions[|actions| - 1])
  }

  // ---------------------------------------------------------------- the composition

  ghost predicate Inv(c: D.Config, s: State) {
    B.Inv(c.part, s.blocks) && Gate.Inv(c, s.delivery) && s.blocks.log == s.delivery.log
  }

  /** What a step of the block protocol adds to the topic. */
  function Published(s: B.State, a: B.Action): Option<Msg> {
    match a
    case PublishStump(x, ok) =>
      if ok && x in s.work && s.work[x].Publishing? && s.work[x].todo != [] then
        Some(Msg(StumpMsg, x.block, s.work[x].todo[0], x.index))
      else None
    case PublishBlockProcessed(x, ok) =>
      if ok && x in s.work && s.work[x].Emitting? && s.work[x].todo != [] then
        Some(Msg(BlockProcessed, x.block, s.work[x].todo[0], 0))
      else None
    case PublishOther(url, tag) => Some(Msg(Other, "", url, tag))
    case _ => None
  }

  lemma StepPublishes(part: Url -> nat, s: B.State, a: B.Action)
    ensures var m := Published(s, a);
            B.Step(part, s, a).log == if m.Some? then Append(s.log, part, m.value) else s.log
  {
    hide Append;
  }

  /** For the delivery service a step of the block protocol is a publication or nothing. */
  lemma BlockStepIsPublish(c: D.Config, s: State, b: B.Action)
    requires s.blocks.log == s.delivery.log
    ensures var m := Published(s.blocks, b);
            Step(c, s, Block(b)).delivery == if m.Some? then D.Step(c, s.delivery, D.Publish(m.value)) else s.delivery
  {
    hide Append;
    StepPublishes(c.part, s.blocks, b);
  }

  lemma BlockLogInOrder(part: Url -> nat, s: B.State)
    requires B.Inv(part, s)
    ensures Ordered(s.log)
  {
  }

  ghost predicate SameLog(s: D.State, s': D.State) {
    s'.log == s.log
  }

  lemma WorkersKeepLog(c: D.Config, s: D.State, w: nat)
    ensures SameLog(s, D.Step(c, s, D.Check(w))) && SameLog(s, D.Step(c, s, D.FailForGood(w)))
  {
    hide D.MsgAt;
  }

  lemma PostsKeepLog(c: D.Config, s: D.State, w: nat, r: bool)
    ensures SameLog(s, D.Step(c, s, D.PostFails(w))) && SameLog(s, D.Step(c, s, D.PostSucceeds(w, r)))
    ensures SameLog(s, D.Step(c, s, D.LoadFlag(w)))
  {
    hide D.MsgAt;
  }

  lemma TimersKeepLog(c: D.Config, s: D.State, t: nat)
    ensures SameLog(s, D.Step(c, s, D.Fire(t))) && SameLog(s, D.Step(c, s, D.TimerSend(t)))
  {
  }

  lemma ForgetKeepsLog(c: D.Config, s: D.State, k: D.DedupKey)
    ensures SameLog(s, D.Step(c, s, D.Forget(k)))
  {
  }

  lemma OnlyPublishAppends(c: D.Config, s: D.State, d: D.Action)
    requires !d.Publish?
    ensures SameLog(s, D.Step(c, s, d))
  {
    hide D.Step;
    match d
    case Check(w) => WorkersKeepLog(c, s, w);
    case FailForGood(w) => WorkersKeepLog(c, s, w);
    case PostSucceeds(w, r) => PostsKeepLog(c, s, w, r);
    case PostFails(w) => PostsKeepLog(c, s, w, false);
    case LoadFlag(w) => PostsKeepLog(c, s, w, false);
    case Fire(t) => TimersKeepLog(c, s, t);
    case TimerSend(t) => TimersKeepLog(c, s, t);
    case Forget(k) => ForgetKeepsLog(c, s, k);
    case CheckFails(w) => Outcome.IdleDedup(c, s, w);
    case Arm(w) => Outcome.IdleDedup(c, s, w);
    case TimerEnd(t) => Outcome.IdleDedup(c, s, t);
    case StopFlag => Outcome.StopDedup(c, s);
    case StopWait => Outcome.StopDedup(c, s);
    case StopClose => Outcome.StopDedup(c, s);
    case _ => Outcome.QuietSteps(c, s, d);
  }

  lemma {:induction false} StepKeepsInv(c: D.Config, s: State, a: Action)
    requires Inv(c, s)
    ensures Inv(c, Step(c, s, a))
  {
    hide B.Inv, Gate.Inv, B.Step, D.Step;
    match a {
      case Block(b) =>
        B.StepKeepsInv(c.part, s.blocks, b);
        StepPublishes(c.part, s.blocks, b);
        BlockStepIsPublish(c, s, b);
        if m: Msg :| Published(s.blocks, b) == Some(m) {
          BlockLogInOrder(c.part, B.Step(c.part, s.blocks, b));
          Gate.StepKeepsInv(c, s.delivery, D.Publish(m));
        }
      case Deliver(d) =>
        if !d.Publish? {
          Gate.StepKeepsInv(c, s.delivery, d);
          OnlyPublishAppends(c, s.delivery, d);
        }
    }
  }

  lemma {:induction false} RunKeepsInv(c: D.Config, partitions: nat, workers: nat, actions: seq<Action>)
    ensures Inv(c, Run(c, partitions, workers, actions))
  {
    if actions == [] {
      B.RunKeepsInv(c.part, partitions, []);
      Gate.InitialInv(c, partitions, workers);
    } else {
      hide Inv, Step;
      RunKeepsInv(c, partitions, workers, actions[..|actions| - 1]);
      StepKeepsInv(c, Run(c, partitions, workers, actions[..|actions| - 1]), actions[|actions| - 1]);
    }
  }

  /** The delivery side of a run, by itself, is a run of the delivery machine, so all that holds of those holds here. */
  lemma {:induction false} DeliverySideIsARun(c: D.Config, partitions: nat, workers: nat, actions: seq<Action>)
    ensures exists ds: seq<D.Action> ::
              Outcome.Run(c, partitions, workers, ds) == Run(c, partitions, workers, actions).delivery
  {
    if actions == [] {
      assert Outcome.Run(c, partitions, workers, []) == Run(c, partitions, workers, []).delivery;
    } else {
      var before, last := actions[..|actions| - 1], actions[|actions| - 1];
      DeliverySideIsARun(c, partitions, workers, before);
      RunKeepsInv(c, partitions, workers, before);
      var s := Run(c, partitions, workers, before);
      hide Inv, D.Step, B.Step;
      var ds: seq<D.Action> :| Outcome.Run(c, partitions, workers, ds) == s.delivery;
      var d := DeliveryActionOf(s, last);
      LogsAgree(c, s);
      SideStep(c, s, last);
      if d.Some? {
        assert (ds + [d.value])[..|ds|] == ds;
        assert Outcome.Run(c, partitions, workers, ds + [d.value]) == D.Step(c, s.delivery, d.value);
      } else {
        assert Outcome.Run(c, partitions, workers, ds) == Step(c, s, last).delivery;
      }
    }
  }

  lemma LogsAgree(c: D.Config, s: State)
    requires Inv(c, s)
    ensures s.blocks.log == s.delivery.log
  {
  }

  function DeliveryActionOf(s: State, a: Action): Option<D.Action> {
    match a
    case Block(b) => if Published(s.blocks, b).Some? then Some(D.Publish(Published(s.blocks, b).value)) else None
    case Deliver(d) => if d.Publish? then None else Some(d)
  }

  lemma SideStep(c: D.Config, s: State, a: Action)
    requires s.blocks.log == s.delivery.log
    ensures var d := DeliveryActionOf(s, a);
            Step(c, s, a).delivery == if d.Some? then D.Step(c, s.delivery, d.value) else s.delivery
  {
    hide D.Step, B.Step;
    if a.Block? {
      BlockStepIsPublish(c, s, a.b);
    }
  }

  // ---------------------------------------------------------------- the theorems

  /**
   In every interleaving of dispatcher, block workers, consumers, delivery workers, timers and shutdown: when a
   BLOCK_PROCESSED is posted, every STUMP of its block and URL that is ever published has finished its first attempt.
   */
  lemma {:induction false} BlockProcessedAfterStumps(c: D.Config, partitions: nat, workers: nat, actions: seq<Action>,
                                                     i: nat, e: D.Id, stump: D.Id)
    ensures var s := Run(c, partitions, workers, actions).delivery;
            var end, m := D.MsgAt(s.log, e), D.MsgAt(s.log, stump);
            i < |s.events| && s.events[i] == D.Posted(e) && end.kind == BlockProcessed
            && D.InLog(s.log, stump) && m.kind == StumpMsg && m.block == end.block && m.url == end.url
            ==> exists j: nat :: j < i && s.events[j] == D.FirstDone(stump)
  {
    RunKeepsInv(c, partitions, workers, actions);
    var s := Run(c, partitions, workers, actions).delivery;
    hide Run;
    EventOrder(c, s, i, e, stump);
  }

  lemma EventOrder(c: D.Config, s: D.State, i: nat, e: D.Id, stump: D.Id)
    requires Gate.Inv(c, s)
    ensures i < |s.events| && s.events[i] == D.Posted(e) && D.IsEndAt(s.log, e) && D.InLog(s.log, stump)
            && Gate.StumpFor(D.MsgAt(s.log, stump), D.KeyOf(D.MsgAt(s.log, e)))
            ==> exists j: nat :: j < i && s.events[j] == D.FirstDone(stump)
  {
    hide Gate.LogOk, Gate.PosOk, Gate.FifoOk, Gate.RetryOk, Gate.HeldOk, Gate.GateOk, Gate.OwedOk, Gate.TieOk,
      Gate.PassedOk, Gate.BeyondOk;
    if i < |s.events| && s.events[i] == D.Posted(e) && D.IsEndAt(s.log, e) && D.InLog(s.log, stump)
       && Gate.StumpFor(D.MsgAt(s.log, stump), D.KeyOf(D.MsgAt(s.log, e))) {
      assert Gate.PostInOrder(s.log, s.events[..i], s.events[i].id);
      assert D.FirstDone(stump) in s.events[..i];
      var j: nat :| j < i && s.events[..i][j] == D.FirstDone(stump);
      assert s.events[j] == D.FirstDone(stump);
    }
  }

  /** A gate counts exactly the STUMPs of its pair that were accepted and have not finished their first attempt. */
  lemma {:induction false} GateExact(c: D.Config, partitions: nat, workers: nat, actions: seq<Action>, key: D.Key)
    ensures var s := Run(c, partitions, workers, actions).delivery;
            Gate.Count(s.gates, key) == |Gate.Outstanding(c, s.log, s.pos, s.done, key)| >= 0
  {
    RunKeepsInv(c, partitions, workers, actions);
    var s := Run(c, partitions, workers, actions).delivery;
    hide Run, Gate.Inv;
    Gate.GateCountsExactly(c, s, key);
  }

  /**
   No deadlock, for any number of workers: whenever a worker is busy, some busy worker can take its next step; and a
   worker that waits at a gate waits for other workers that can.
   */
  lemma {:induction false} NoDeadlock(c: D.Config, partitions: nat, workers: nat, actions: seq<Action>, w: nat)
    ensures var s := Run(c, partitions, workers, actions).delivery;
            w < |s.phases| && Gate.Busy(s.phases[w]) ==>
                exists v: nat :: v < |s.phases| && Gate.Busy(s.phases[v]) && Gate.Moves(c, s, v)
  {
    RunKeepsInv(c, partitions, workers, actions);
    var s := Run(c, partitions, workers, actions).delivery;
    hide Run, Gate.Inv, Gate.Moves, Gate.Waiting;
    if w < |s.phases| && Gate.Busy(s.phases[w]) {
      Gate.NeverStuck(c, s, w);
      var v: nat :| v < |s.phases| && Gate.Busy(s.phases[v]) && !Gate.Waiting(s, v);
      Gate.BusyMoves(c, s, v);
    }
  }

  /** Delivery steps as steps of the whole. */
  function Delivers(ds: seq<D.Action>): (r: seq<Action>)
    ensures |r| == |ds| && forall i | 0 <= i < |ds| :: r[i] == Deliver(ds[i])
  {
    seq(|ds|, i requires 0 <= i < |ds| => Deliver(ds[i]))
  }

  lemma {:induction false} RunMore(c: D.Config, partitions: nat, workers: nat, actions: seq<Action>, ds: seq<D.Action>)
    requires forall i | 0 <= i < |ds| :: !ds[i].Publish?
    ensures Run(c, partitions, workers, actions + Delivers(ds)).delivery
         == D.RunFrom(c, Run(c, partitions, workers, actions).delivery, ds)
    decreases |ds|
  {
    if ds == [] {
      assert actions + Delivers(ds) == actions;
    } else {
      var next := actions + [Deliver(ds[0])];
      assert next[..|actions|] == actions;
      assert actions + Delivers(ds) == next + Delivers(ds[1..]);
      RunMore(c, partitions, workers, next, ds[1..]);
      hide D.Step;
      assert Run(c, partitions, workers, next) == Step(c, Run(c, partitions, workers, actions), Deliver(ds[0]));
    }
  }

  /**
   In every run a BLOCK_PROCESSED that waits at its gate can be released: some further steps of delivery workers, as
   many as the work they have left at most, leave its worker at the gate and the gate open.
   */
  lemma {:induction false} WaitIsReleased(c: D.Config, partitions: nat, workers: nat, actions: seq<Action>, w: nat)
    ensures var s := Run(c, partitions, workers, actions).delivery;
            w < |s.phases| && s.phases[w].AtGate? && D.IsEndAt(s.log, s.phases[w].id) ==>
              exists ds: seq<D.Action> ::
                && |ds| <= Progress.WorkAt(s, D.KeyOf(D.MsgAt(s.log, s.phases[w].id)))
                && (forall a | a in ds :: Progress.StepOfOther(a, w, |s.phases|))
                && Freed(Run(c, partitions, workers, actions + Delivers(ds)).delivery, w, s.phases[w])
  {
    RunKeepsInv(c, partitions, workers, actions);
    var s := Run(c, partitions, workers, actions).delivery;
    if w < |s.phases| && s.phases[w].AtGate? && D.IsEndAt(s.log, s.phases[w].id) {
      hide Run, Gate.Inv, D.RunFrom, Progress.WorkAt, Gate.Waiting;
      var ds := Progress.GateOpens(c, s, w);
      forall i | 0 <= i < |ds| ensures !ds[i].Publish? {
        assert Progress.StepOfOther(ds[i], w, |s.phases|);
      }
      RunMore(c, partitions, workers, actions, ds);
      assert Freed(Run(c, partitions, workers, actions + Delivers(ds)).delivery, w, s.phases[w]);
    }
  }

  /** Worker `w` is where it was and does not wait. */
  ghost predicate Freed(s: D.State, w: nat, p: D.Phase) {
    w < |s.phases| && s.phases[w] == p && !Gate.Waiting(s, w)
  }

  // ---------------------------------------------------------------- once per block and URL

  /** The block side's steps of a run. */
  function BlockActions(actions: seq<Action>): seq<B.Action> {
    if actions == [] then []
    else
      var a := actions[|actions| - 1];
      BlockActions(actions[..|actions| - 1]) + if a.Block? then [a.b] else []
  }

  lemma {:induction false} BlockSideIsARun(c: D.Config, partitions: nat, workers: nat, actions: seq<Action>)
    ensures Run(c, partitions, workers, actions).blocks == B.Run(c.part, partitions, BlockActions(actions))
  {
    if actions == [] {
    } else {
      var n := |actions| - 1;
      BlockSideIsARun(c, partitions, workers, actions[..n]);
      hide B.Step, D.Step;
      var before := BlockActions(actions[..n]);
      if actions[n].Block? {
        assert (before + [actions[n].b])[..|before|] == before;
      } else {
        assert BlockActions(actions) == before;
      }
    }
  }

  /** The URL registry lists every URL once, whenever it is asked. */
  ghost predicate DistinctUrls(actions: seq<Action>) {
    forall k | 0 <= k < |actions| && actions[k].Block? :: Once.Allowed(actions[k].b)
  }

  lemma {:induction false} BlockActionsAllowed(actions: seq<Action>)
    requires DistinctUrls(actions)
    ensures forall k | 0 <= k < |BlockActions(actions)| :: Once.Allowed(BlockActions(actions)[k])
  {
    hide Once.Allowed;
    if actions == [] {
    } else {
      BlockActionsAllowed(actions[..|actions| - 1]);
    }
  }

  /**
   In every run, if the registry lists every URL once: of all BLOCK_PROCESSED messages for a block and URL at most one
   ever ends, in whatever way. In particular at most one is delivered.
   */
  lemma {:induction false} OneEndPerBlockAndUrl(c: D.Config, partitions: nat, workers: nat, actions: seq<Action>,
                                                i: nat, j: nat, b: Block, u: Url)
    requires DistinctUrls(actions)
    ensures var s := Run(c, partitions, workers, actions).delivery;
            i < |s.finished| && j < |s.finished|
            && Once.Tells(D.MsgAt(s.log, s.finished[i].id), b, u) && Once.Tells(D.MsgAt(s.log, s.finished[j].id), b, u)
            ==> i == j
  {
    RunKeepsInv(c, partitions, workers, actions);
    BlockSideIsARun(c, partitions, workers, actions);
    BlockActionsAllowed(actions);
    DeliverySideIsARun(c, partitions, workers, actions);
    var s := Run(c, partitions, workers, actions);
    LogsAgree(c, s);
    hide Run, B.Run, Outcome.Run, BlockActions, Inv;
    var ds: seq<D.Action> :| Outcome.Run(c, partitions, workers, ds) == s.delivery;
    Outcome.RunKeepsInv(c, partitions, workers, ds);
    if i < |s.delivery.finished| && j < |s.delivery.finished| {
      EndsApart(c, s.delivery, i, j);
      var x, y := s.delivery.finished[i].id, s.delivery.finished[j].id;
      Once.OneBlockProcessedPerUrl(c.part, partitions, BlockActions(actions), x.part, x.off, y.part, y.off, b, u);
    }
  }

  /** Different ends are of different messages of the topic. */
  lemma EndsApart(c: D.Config, s: D.State, i: nat, j: nat)
    requires Outcome.Inv(c, s) && i < |s.finished| && j < |s.finished|
    ensures D.InLog(s.log, s.finished[i].id) && D.InLog(s.log, s.finished[j].id)
    ensures s.finished[i].id == s.finished[j].id ==> i == j
  {
    hide Account.PendOk, Account.ChOk, Account.WorkOk, Account.TimerOk, Account.Known, Outcome.Tallied, Account.Jobs,
      Outcome.Backed, D.InLog;
  }

  // ---------------------------------------------------------------- the counter table

  /** The counter rows of the blocks. */
  function Rows(s: B.State): SubtreeCounter.Rows {
    map b | b in s.blocks :: s.blocks[b].remaining
  }

  /** The operation a step performs on the counter table. */
  function CounterOp(s: B.State, a: B.Action): Option<SubtreeCounter.Op> {
    match a
    case Announce(b, n) => if b in s.blocks || n == 0 then None else Some(SubtreeCounter.Init(b, n))
    case DecrementCounter(x, reply, _) =>
      if x in s.work && s.work[x] == B.Publishing([]) && reply != B.Rejected && x.block in s.blocks then
        Some(SubtreeCounter.Decrement(x.block))
      else None
    case _ => None
  }

  /** The protocol's counters are the counter table, and an item reaches 0 exactly when its Decrement computes 0. */
  lemma CounterRefined(part: Url -> nat, s: B.State, a: B.Action)
    ensures var op := CounterOp(s, a);
            var s' := B.Step(part, s, a);
            && Rows(s') == (if op.Some? then SubtreeCounter.Apply(Rows(s), op.value) else Rows(s))
            && (a.DecrementCounter? && op.Some? ==>
                  var zero := SubtreeCounter.ReplyTo(Rows(s), op.value) == SubtreeCounter.Remaining(Some(0));
                  s'.zeroed == s.zeroed + if zero then {a.item} else {})
            && (!(a.DecrementCounter? && op.Some?) ==> s'.zeroed == s.zeroed)
  {
    hide Append;
    var s', op := B.Step(part, s, a), CounterOp(s, a);
    if op.Some? {
      assert Rows(s').Keys == SubtreeCounter.Apply(Rows(s), op.value).Keys;
    } else {
      assert Rows(s').Keys == Rows(s).Keys;
    }
  }

  /** All operations of a run on the counter table. */
  function CounterOps(part: Url -> nat, partitions: nat, actions: seq<B.Action>): seq<SubtreeCounter.Op> {
    if actions == [] then []
    else
      var n := |actions| - 1;
      var op := CounterOp(B.Run(part, partitions, actions[..n]), actions[n]);
      CounterOps(part, partitions, actions[..n]) + if op.Some? then [op.value] else []
  }

  /** Every Init is the first operation on its block, and no row expires. */
  ghost predicate InitsFirst(ops: seq<SubtreeCounter.Op>) {
    forall k | 0 <= k < |ops| :: !ops[k].Expire? && (ops[k].Init? ==> ops[k].block !in SubtreeCounter.After(ops[..k]))
  }

  ghost predicate SomeZero(ops: seq<SubtreeCounter.Op>, b: Block) {
    exists i: nat :: SubtreeCounter.ReturnsZero(ops, i, b)
  }

  /** The zeros among one operation more. */
  lemma ZeroSnoc(ops: seq<SubtreeCounter.Op>, op: SubtreeCounter.Op, b: Block)
    ensures SomeZero(ops + [op], b)
       <==> SomeZero(ops, b)
            || (op == SubtreeCounter.Decrement(b)
                && SubtreeCounter.ReplyTo(SubtreeCounter.After(ops), op) == SubtreeCounter.Remaining(Some(0)))
  {
    hide SubtreeCounter.After, SubtreeCounter.ReplyTo;
    var ops' := ops + [op];
    assert ops'[..|ops|] == ops;
    forall i: nat | i < |ops| ensures ops'[..i] == ops[..i] {
    }
    if SomeZero(ops, b) {
      var i: nat :| SubtreeCounter.ReturnsZero(ops, i, b);
      assert SubtreeCounter.ReturnsZero(ops', i, b);
    }
    if SomeZero(ops', b) {
      var i: nat :| SubtreeCounter.ReturnsZero(ops', i, b);
      assert i < |ops| ==> SubtreeCounter.ReturnsZero(ops, i, b);
    }
    if op == SubtreeCounter.Decrement(b)
       && SubtreeCounter.ReplyTo(SubtreeCounter.After(ops), op) == SubtreeCounter.Remaining(Some(0)) {
      assert SubtreeCounter.ReturnsZero(ops', |ops|, b);
    }
  }

  lemma InitsSnoc(ops: seq<SubtreeCounter.Op>, op: SubtreeCounter.Op)
    requires InitsFirst(ops) && !op.Expire? && (op.Init? ==> op.block !in SubtreeCounter.After(ops))
    ensures InitsFirst(ops + [op])
  {
    var ops' := ops + [op];
    forall k | 0 <= k < |ops'| ensures ops'[..k] == if k < |ops| then ops[..k] else ops {
    }
  }

  lemma AfterSnoc(ops: seq<SubtreeCounter.Op>, op: SubtreeCounter.Op)
    ensures SubtreeCounter.After(ops + [op]) == SubtreeCounter.Apply(SubtreeCounter.After(ops), op)
  {
    assert (ops + [op])[..|ops|] == ops;
  }

  /**
   Over every run of the protocol: its counters are the table after the run's operations, and a block is brought to 0
   where 0 is returned.
   */
  lemma {:induction false} CounterRun(part: Url -> nat, partitions: nat, actions: seq<B.Action>)
    ensures var s, ops := B.Run(part, partitions, actions), CounterOps(part, partitions, actions);
            && Rows(s) == SubtreeCounter.After(ops) && InitsFirst(ops)
            && (forall b: Block :: SomeZero(ops, b) <==> B.ReachedZero(s.zeroed, b))
  {
    if actions == [] {
    } else {
      var n := |actions| - 1;
      CounterRun(part, partitions, actions[..n]);
      var s, ops, a := B.Run(part, partitions, actions[..n]), CounterOps(part, partitions, actions[..n]), actions[n];
      CounterRefined(part, s, a);
      hide B.Run, B.Step, SubtreeCounter.After, SubtreeCounter.Apply, InitsFirst, SomeZero, SubtreeCounter.ReplyTo,
        B.ReachedZero;
      var op := CounterOp(s, a);
      if op.Some? {
        AfterSnoc(ops, op.value);
        InitsSnoc(ops, op.value);
        forall b: Block ensures SomeZero(ops + [op.value], b) <==> B.ReachedZero(B.Step(part, s, a).zeroed, b) {
          ZeroSnoc(ops, op.value, b);
          ReachedZeroMore(s.zeroed, a, b);
        }
      } else {
        assert ops + [] == ops;
      }
    }
  }

  lemma ReachedZeroMore(zeroed: set<B.Item>, a: B.Action, b: Block)
    ensures a.DecrementCounter? ==>
              (B.ReachedZero(zeroed + {a.item}, b) <==> B.ReachedZero(zeroed, b) || a.item.block == b)
    ensures B.ReachedZero(zeroed + {}, b) == B.ReachedZero(zeroed, b)
  {
    assert zeroed + {} == zeroed;
    if a.DecrementCounter? {
      assert forall x :: x in zeroed ==> x in zeroed + {a.item};
      assert a.item in zeroed + {a.item};
    }
  }

  /** Rows stay: without expiry a block once counted is always counted. */
  lemma {:induction false} RowsStay(ops: seq<SubtreeCounter.Op>, i: nat, j: nat, b: Block)
    requires InitsFirst(ops) && i <= j <= |ops| && b in SubtreeCounter.After(ops[..i])
    ensures b in SubtreeCounter.After(ops[..j])
    decreases j - i
  {
    if i == j {
    } else {
      RowsStay(ops, i, j - 1, b);
      assert ops[..j] == ops[..j - 1] + [ops[j - 1]];
      AfterSnoc(ops[..j - 1], ops[j - 1]);
    }
  }

  /** In every run of the protocol at most one Decrement of a block returns 0. */
  lemma {:induction false} OneZeroPerBlock(part: Url -> nat, partitions: nat, actions: seq<B.Action>, b: Block, i: nat,
                                           j: nat)
    ensures var ops := CounterOps(part, partitions, actions);
            SubtreeCounter.ReturnsZero(ops, i, b) && SubtreeCounter.ReturnsZero(ops, j, b) ==> i == j
  {
    CounterRun(part, partitions, actions);
    var ops := CounterOps(part, partitions, actions);
    hide CounterOps, B.Run;
    if SubtreeCounter.ReturnsZero(ops, i, b) && SubtreeCounter.ReturnsZero(ops, j, b) {
      NoSecondZero(ops, i, j, b);
      NoSecondZero(ops, j, i, b);
    }
  }

  lemma NoSecondZero(ops: seq<SubtreeCounter.Op>, i: nat, j: nat, b: Block)
    requires InitsFirst(ops) && SubtreeCounter.ReturnsZero(ops, i, b) && SubtreeCounter.ReturnsZero(ops, j, b)
    ensures !(i < j)
  {
    if i < j {
      SubtreeCounter.AtMostOneZero(ops, i, j, b);
      var k :| i < k < j && ops[k].Init? && ops[k].block == b;
      RowsStay(ops, i, k, b);
      assert false;
    }
  }
}
