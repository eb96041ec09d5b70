/**
 A BLOCK_PROCESSED that waits at its gate is released: the workers it waits for have a bounded amount of work left, no
 step of anyone adds to it while the message waits, and each of their steps takes some away.
 */
module DeliveryProgress {
  import opened Prelude
  import opened CallbackLog
  import opened Delivery
  import opened DeliveryGate

  /** How many steps of `processDelivery` a worker has left at most. */
  function Left(p: Phase): nat {
    match p
    case Idle => 0
    case Exited => 0
    case Returning => 1
    case Arming(_) => 2
    case Retrying(_) => 3
    case InFlight(_) => 4
    case Posting(_) => 5
    case Checking(_) => 6
    case Deleting(_) => 7
    case AtGate(_) => 8
  }

  /** What a worker that owes the gate of `key` a Done has left. */
  function Weight(log: Log, p: Phase, owed: Option<Id>, key: Key): nat {
    if owed.Some? && StumpFor(MsgAt(log, owed.value), key) then Left(p) else 0
  }

  /** The steps left to all workers that owe the gate of `key` a Done. */
  function Work(log: Log, phases: seq<Phase>, owes: seq<Option<Id>>, key: Key): nat
    requires |phases| == |owes|
  {
    if phases == [] then 0
    else
      var n := |phases| - 1;
      Work(log, phases[..n], owes[..n], key) + Weight(log, phases[n], owes[n], key)
  }

  function WorkAt(s: State, key: Key): nat {
    if |s.phases| == |s.owes| then Work(s.log, s.phases, s.owes, key) else 0
  }

  lemma {:induction false} WorkSet(log: Log, phases: seq<Phase>, owes: seq<Option<Id>>, key: Key, w: nat, p: Phase,
                                   owed: Option<Id>)
    requires w < |phases| == |owes|
    ensures Work(log, phases[w := p], owes[w := owed], key) + Weight(log, phases[w], owes[w], key)
         == Work(log, phases, owes, key) + Weight(log, p, owed, key)
  {
    hide Weight;
    var n := |phases| - 1;
    if w == n {
      assert phases[w := p][..n] == phases[..n] && owes[w := owed][..n] == owes[..n];
    } else {
      WorkSet(log, phases[..n], owes[..n], key, w, p, owed);
      assert phases[w := p][..n] == phases[..n][w := p] && owes[w := owed][..n] == owes[..n][w := owed];
    }
  }

  /** The topic's growth does not change what owed messages are. */
  lemma {:induction false} WorkLater(log: Log, log': Log, phases: seq<Phase>, owes: seq<Option<Id>>, key: Key)
    requires |phases| == |owes|
    requires forall w | 0 <= w < |owes| && owes[w].Some? :: MsgAt(log', owes[w].value) == MsgAt(log, owes[w].value)
    ensures Work(log', phases, owes, key) == Work(log, phases, owes, key)
  {
    hide MsgAt;
    if phases == [] {
    } else {
      var n := |phases| - 1;
      WorkLater(log, log', phases[..n], owes[..n], key);
    }
  }

  // ---------------------------------------------------------------- steps

  /** Only worker `v` changes, if anyone: it has fewer steps left, and owes what it owed or nothing. */
  ghost predicate OnlyLess(s: State, s': State, v: nat) {
    && s'.log == s.log
    && ((s'.phases == s.phases && s'.owes == s.owes)
        || (v < |s.phases| && v < |s.owes|
            && s'.phases == s.phases[v := if v < |s'.phases| then s'.phases[v] else Idle]
            && Left(s'.phases[v]) < Left(s.phases[v])
            && (s'.owes == s.owes || s'.owes == s.owes[v := None])))
  }

  lemma GateLess(c: Config, s: State, v: nat)
    requires |s.phases| == |s.owes|
    ensures OnlyLess(s, Step(c, s, PassGate(v)), v)
  {
    hide MsgAt;
  }

  lemma DeleteLess(c: Config, s: State, v: nat)
    requires |s.phases| == |s.owes|
    ensures OnlyLess(s, Step(c, s, DeleteGate(v)), v)
  {
    hide MsgAt;
  }

  lemma CheckLess(c: Config, s: State, v: nat)
    requires |s.phases| == |s.owes|
    ensures OnlyLess(s, Step(c, s, Check(v)), v)
  {
    hide MsgAt, DedupKeyOf;
  }

  lemma CheckFailsLess(c: Config, s: State, v: nat)
    requires |s.phases| == |s.owes|
    ensures OnlyLess(s, Step(c, s, CheckFails(v)), v)
  {
    hide MsgAt, DedupKeyOf;
  }

  lemma PostLess(c: Config, s: State, v: nat, recorded: bool)
    requires |s.phases| == |s.owes|
    ensures OnlyLess(s, Step(c, s, PostSucceeds(v, recorded)), v)
  {
    hide MsgAt, DedupKeyOf;
  }

  lemma BeginLess(c: Config, s: State, v: nat)
    requires |s.phases| == |s.owes|
    ensures OnlyLess(s, Step(c, s, BeginPost(v)), v)
  {
  }

  lemma ForGoodLess(c: Config, s: State, v: nat)
    requires |s.phases| == |s.owes|
    ensures OnlyLess(s, Step(c, s, FailForGood(v)), v)
  {
    hide MsgAt;
  }

  lemma RetryLess(c: Config, s: State, v: nat)
    requires |s.phases| == |s.owes|
    ensures OnlyLess(s, Step(c, s, PostFails(v)), v)
  {
  }

  lemma ScheduleLess(c: Config, s: State, v: nat)
    requires |s.phases| == |s.owes|
    ensures OnlyLess(s, Step(c, s, LoadFlag(v)), v)
  {
  }

  lemma ArmLess(c: Config, s: State, v: nat)
    requires |s.phases| == |s.owes|
    ensures OnlyLess(s, Step(c, s, Arm(v)), v)
  {
  }

  lemma ReturnLess(c: Config, s: State, v: nat)
    requires |s.phases| == |s.owes|
    ensures OnlyLess(s, Step(c, s, Return(v)), v)
  {
    hide MsgAt;
  }

  /** A step of `processDelivery` by worker `v`. */
  predicate StepOf(a: Action, v: nat) {
    match a
    case PassGate(w) => w == v
    case DeleteGate(w) => w == v
    case CheckFails(w) => w == v
    case Check(w) => w == v
    case BeginPost(w) => w == v
    case FailForGood(w) => w == v
    case PostSucceeds(w, _) => w == v
    case PostFails(w) => w == v
    case LoadFlag(w) => w == v
    case Arm(w) => w == v
    case Return(w) => w == v
    case _ => false
  }

  lemma StepLess(c: Config, s: State, a: Action, v: nat)
    requires |s.phases| == |s.owes| && StepOf(a, v)
    ensures OnlyLess(s, Step(c, s, a), v)
  {
    hide OnlyLess, Step;
    match a
    case PassGate(_) => GateLess(c, s, v);
    case DeleteGate(_) => DeleteLess(c, s, v);
    case CheckFails(_) => CheckFailsLess(c, s, v);
    case Check(_) => CheckLess(c, s, v);
    case BeginPost(_) => BeginLess(c, s, v);
    case FailForGood(_) => ForGoodLess(c, s, v);
    case PostSucceeds(_, recorded) => PostLess(c, s, v, recorded);
    case PostFails(_) => RetryLess(c, s, v);
    case LoadFlag(_) => ScheduleLess(c, s, v);
    case Arm(_) => ArmLess(c, s, v);
    case Return(_) => ReturnLess(c, s, v);
  }

  /** A worker's step takes work away or does not matter to the gate. */
  lemma LessWork(s: State, s': State, v: nat, key: Key)
    requires |s.phases| == |s.owes| && OnlyLess(s, s', v)
    ensures |s'.phases| == |s'.owes| == |s.phases| && WorkAt(s', key) <= WorkAt(s, key)
    ensures v < |s.phases| && s'.phases[v] != s.phases[v] && Weight(s.log, s.phases[v], s.owes[v], key) > 0 ==>
              WorkAt(s', key) < WorkAt(s, key)
  {
    hide MsgAt;
    if v < |s.phases| && s'.phases != s.phases {
      var p := s'.phases[v];
      WorkSet(s.log, s.phases, s.owes, key, v, p, s.owes[v]);
      WorkSet(s.log, s.phases, s.owes, key, v, p, None);
      assert s.owes[v := s.owes[v]] == s.owes;
      hide Work;
    }
  }

  /** Steps that touch neither the workers nor the topic. */
  ghost predicate SameWorkers(s: State, s': State) {
    s'.log == s.log && s'.phases == s.phases && s'.owes == s.owes
  }

  lemma ChannelSame(c: Config, s: State, n: nat)
    ensures SameWorkers(s, Step(c, s, Accept(n))) && SameWorkers(s, Step(c, s, Send(n)))
  {
  }

  lemma TimerSame(c: Config, s: State, t: nat)
    ensures SameWorkers(s, Step(c, s, Fire(t))) && SameWorkers(s, Step(c, s, TimerEnd(t)))
  {
  }

  lemma TimerSendSame(c: Config, s: State, t: nat)
    ensures SameWorkers(s, Step(c, s, TimerSend(t)))
  {
  }

  lemma StopSame(c: Config, s: State)
    ensures SameWorkers(s, Step(c, s, StopFlag)) && SameWorkers(s, Step(c, s, StopWait))
            && SameWorkers(s, Step(c, s, StopClose))
  {
  }

  lemma ForgetSame(c: Config, s: State, k: DedupKey)
    ensures SameWorkers(s, Step(c, s, Forget(k)))
  {
  }

  /** An idle worker owes nothing. */
  lemma IdleOwesNothing(c: Config, s: State, v: nat)
    requires Inv(c, s) && v < |s.phases| && (s.phases[v].Idle? || s.phases[v].Exited?)
    ensures |s.owes| == |s.phases| && s.owes[v].None?
  {
    hide LogOk, FifoOk, RetryOk, GateOk, OwedOk, EventsOk, PassedOk, PosOk, HeldOk, BeyondOk;
  }

  /**
   What is taken for the first time while a BLOCK_PROCESSED waits is no STUMP of its pair: it comes later in the topic.
   */
  lemma NoNewStump(c: Config, s: State, w: nat, v: nat)
    requires Inv(c, s) && w < |s.phases| && s.phases[w].AtGate? && IsEndAt(s.log, s.phases[w].id)
    requires s.ch != [] && s.ch[0] in s.jobs && s.jobs[s.ch[0]].retry == 0
    ensures !StumpFor(MsgAt(s.log, s.ch[0]), KeyOf(MsgAt(s.log, s.phases[w].id)))
  {
    hide GateOk, OwedOk, EventsOk, PassedOk, BeyondOk, TieOk, Fresh, Range;
    HeldFacts(c, s, w);
    var id, sid := s.phases[w].id, s.ch[0];
    assert sid in s.ch && InLog(s.log, sid);
    assert c.part(s.log[sid.part][sid.off].url) == sid.part;
    assert c.part(s.log[id.part][id.off].url) == id.part;
    assert sid.part == id.part ==> id.off < sid.off;
  }

  lemma TakeWork(c: Config, s: State, w: nat, v: nat)
    requires Inv(c, s) && w < |s.phases| && s.phases[w].AtGate? && IsEndAt(s.log, s.phases[w].id)
    ensures var key := KeyOf(MsgAt(s.log, s.phases[w].id)); WorkAt(Step(c, s, Take(v)), key) == WorkAt(s, key)
  {
    hide Inv, MsgAt, IsStumpAt, IsEndAt;
    var key := KeyOf(MsgAt(s.log, s.phases[w].id));
    if v < |s.phases| && v < |s.owes| && s.phases[v].Idle? && s.ch != [] && s.ch[0] in s.jobs {
      var id := s.ch[0];
      IdleOwesNothing(c, s, v);
      if s.jobs[id].retry == 0 {
        NoNewStump(c, s, w, v);
      }
      WorkSet(s.log, s.phases, s.owes, key, v, AtGate(id), Some(id));
      WorkSet(s.log, s.phases, s.owes, key, v, AtGate(id), None);
      hide Work;
    }
  }

  lemma ExitWork(c: Config, s: State, v: nat, key: Key)
    requires Inv(c, s)
    ensures WorkAt(Step(c, s, Exit(v)), key) == WorkAt(s, key)
  {
    hide Inv, MsgAt;
    if v < |s.phases| && s.phases[v].Idle? {
      IdleOwesNothing(c, s, v);
      WorkSet(s.log, s.phases, s.owes, key, v, Exited, s.owes[v]);
      assert s.owes[v := s.owes[v]] == s.owes;
      hide Work;
    }
  }

  lemma PublishWork(c: Config, s: State, m: Msg, key: Key)
    requires Inv(c, s) && Ordered(Append(s.log, c.part, m))
    ensures WorkAt(Step(c, s, Publish(m)), key) == WorkAt(s, key)
  {
    hide FifoOk, RetryOk, GateOk, EventsOk, PassedOk, PosOk, HeldOk, BeyondOk, TieOk, Append, Ordered, LogOk;
    if |s.phases| == |s.owes| {
      AppendFacts(c, s.log, m);
      forall w | 0 <= w < |s.owes| && s.owes[w].Some?
        ensures MsgAt(Append(s.log, c.part, m), s.owes[w].value) == MsgAt(s.log, s.owes[w].value)
      {
        assert Owable(s.log, s.taken, s.done, s.owes[w].value);
      }
      hide OwedOk, MsgAt;
      WorkLater(s.log, Append(s.log, c.part, m), s.phases, s.owes, key);
    }
  }

  // ---------------------------------------------------------------- the theorems

  /** While a BLOCK_PROCESSED waits, no step of anyone adds to the work it waits for. */
  lemma {:induction false} WorkNeverGrows(c: Config, s: State, a: Action, w: nat)
    requires Inv(c, s) && Allowed(c, s, a) && w < |s.phases| && s.phases[w].AtGate? && IsEndAt(s.log, s.phases[w].id)
    ensures var key := KeyOf(MsgAt(s.log, s.phases[w].id)); WorkAt(Step(c, s, a), key) <= WorkAt(s, key)
  {
    SameLengths(c, s);
    hide Inv, Step, MsgAt, IsEndAt, Work, OnlyLess, Ordered;
    var key := KeyOf(MsgAt(s.log, s.phases[w].id));
    match a
    case Publish(m) => PublishWork(c, s, m, key);
    case Accept(p) => ChannelSame(c, s, p);
    case Send(p) => ChannelSame(c, s, p);
    case Take(v) => TakeWork(c, s, w, v);
    case Fire(t) => TimerSame(c, s, t);
    case TimerSend(t) => TimerSendSame(c, s, t);
    case TimerEnd(t) => TimerSame(c, s, t);
    case StopFlag => StopSame(c, s);
    case StopWait => StopSame(c, s);
    case StopClose => StopSame(c, s);
    case Exit(v) => ExitWork(c, s, v, key);
    case Forget(k) => ForgetSame(c, s, k);
    case PassGate(v) => LessOf(c, s, a, v, key);
    case DeleteGate(v) => LessOf(c, s, a, v, key);
    case CheckFails(v) => LessOf(c, s, a, v, key);
    case Check(v) => LessOf(c, s, a, v, key);
    case BeginPost(v) => LessOf(c, s, a, v, key);
    case FailForGood(v) => LessOf(c, s, a, v, key);
    case PostSucceeds(v, _) => LessOf(c, s, a, v, key);
    case PostFails(v) => LessOf(c, s, a, v, key);
    case LoadFlag(v) => LessOf(c, s, a, v, key);
    case Arm(v) => LessOf(c, s, a, v, key);
    case Return(v) => LessOf(c, s, a, v, key);
  }

  lemma SameLengths(c: Config, s: State)
    requires Inv(c, s)
    ensures |s.phases| == |s.owes|
  {
  }

  lemma LessOf(c: Config, s: State, a: Action, v: nat, key: Key)
    requires |s.phases| == |s.owes| && StepOf(a, v)
    ensures WorkAt(Step(c, s, a), key) <= WorkAt(s, key)
  {
    hide Step, OnlyLess, WorkAt;
    StepLess(c, s, a, v);
    LessWork(s, Step(c, s, a), v, key);
  }

  /** Every step of a worker that owes the gate a Done takes work away, if it changes where the worker is. */
  lemma {:induction false} OwingStepDecreases(c: Config, s: State, a: Action, v: nat, key: Key)
    requires Inv(c, s) && StepOf(a, v) && v < |s.phases| && v < |s.owes| && s.owes[v].Some?
    requires StumpFor(MsgAt(s.log, s.owes[v].value), key) && Busy(s.phases[v])
    ensures var s' := Step(c, s, a);
            && |s'.phases| == |s.phases| && (forall u | 0 <= u < |s.phases| && u != v :: s'.phases[u] == s.phases[u])
            && s'.log == s.log
            && (s'.phases[v] != s.phases[v] ==> WorkAt(s', key) < WorkAt(s, key))
  {
    SameLengths(c, s);
    hide Inv, Step, MsgAt, WorkAt;
    StepLess(c, s, a, v);
    LessWork(s, Step(c, s, a), v, key);
  }

  /** A worker other than `w` takes its next step. */
  predicate StepOfOther(a: Action, w: nat, workers: nat) {
    exists v: nat :: v < workers && v != w && StepOf(a, v)
  }

  /**
   A waiting BLOCK_PROCESSED is released: a schedule of steps of the workers it waits for, no longer than the work they
   have left, after which its worker stands where it stood and no longer waits.
   */
  lemma {:induction false} GateOpens(c: Config, s: State, w: nat) returns (more: seq<Action>)
    requires Inv(c, s) && w < |s.phases| && s.phases[w].AtGate? && IsEndAt(s.log, s.phases[w].id)
    ensures |more| <= WorkAt(s, KeyOf(MsgAt(s.log, s.phases[w].id)))
    ensures forall a | a in more :: StepOfOther(a, w, |s.phases|)
    ensures var s' := RunFrom(c, s, more);
            Inv(c, s') && w < |s'.phases| && s'.phases[w] == s.phases[w] && !Waiting(s', w)
    decreases WorkAt(s, KeyOf(MsgAt(s.log, s.phases[w].id)))
  {
    hide Inv, Step, MsgAt, IsEndAt, WorkAt, Waiting, Outstanding;
    if !Waiting(s, w) {
      more := [];
    } else {
      var key := KeyOf(MsgAt(s.log, s.phases[w].id));
      var v := WaitedFor(c, s, w);
      var a := NextAction(s, v);
      BusyMoves(c, s, v);
      NextIsStep(s, v);
      OwingStepDecreases(c, s, a, v, key);
      StepKeepsInv(c, s, a);
      var s1 := Step(c, s, a);
      SameEnd(s, s1, w);
      var rest := GateOpens(c, s1, w);
      more := [a] + rest;
      assert more[1..] == rest;
      assert StepOfOther(a, w, |s.phases|);
    }
  }

  lemma SameEnd(s: State, s': State, w: nat)
    requires w < |s.phases| && w < |s'.phases| && s.phases[w].AtGate? && s'.log == s.log && s'.phases[w] == s.phases[w]
    requires IsEndAt(s.log, s.phases[w].id)
    ensures IsEndAt(s'.log, s'.phases[w].id)
  {
  }

  /** A busy worker's next action is a step of `processDelivery`. */
  lemma NextIsStep(s: State, v: nat)
    requires v < |s.phases| && Busy(s.phases[v])
    ensures StepOf(NextAction(s, v), v) && !NextAction(s, v).Publish?
  {
  }

  /** Some worker a waiting BLOCK_PROCESSED waits for. */
  lemma WaitedFor(c: Config, s: State, w: nat) returns (v: nat)
    requires Inv(c, s) && w < |s.phases| && Waiting(s, w)
    ensures v < |s.phases| && v != w && v < |s.owes| && s.owes[v].Some? && Busy(s.phases[v]) && !Waiting(s, v)
    ensures StumpFor(MsgAt(s.log, s.owes[v].value), KeyOf(MsgAt(s.log, s.phases[w].id)))
  {
    SameLengths(c, s);
    var id := s.phases[w].id;
    var key := KeyOf(MsgAt(s.log, id));
    GateCountsExactly(c, s, key);
    var o :| o in Outstanding(c, s.log, s.pos, s.done, key);
    WaitsForRunningWorkers(c, s, w, o);
    PartOfEnd(c, s, w);
    hide Inv, Waiting;
    v :| v < |s.phases| && v != w && s.owes[v] == Some(Id(id.part, o)) && Busy(s.phases[v]) && !Waiting(s, v);
  }

  lemma PartOfEnd(c: Config, s: State, w: nat)
    requires Inv(c, s) && w < |s.phases| && s.phases[w].AtGate? && IsEndAt(s.log, s.phases[w].id)
    ensures InLog(s.log, s.phases[w].id) && c.part(MsgAt(s.log, s.phases[w].id).url) == s.phases[w].id.part
  {
    hide GateOk, OwedOk, EventsOk, PassedOk, BeyondOk, TieOk, Fresh, Range, FifoOk, RetryOk;
    HeldFacts(c, s, w);
  }
}
