/**
 No gate outlives its BLOCK_PROCESSED: once one has passed and its worker has cleaned up, the map has no entry for the
 pair.
 */
module GateCleanup {
  import opened Prelude
  import opened CallbackLog
  import opened Delivery
  import opened DeliveryAccount
  import Gate = DeliveryGate

  ghost predicate BeingDeleted(log: Log, phases: seq<Phase>, key: Key) {
    exists w: nat :: w < |phases| && phases[w].Deleting? && KeyOf(MsgAt(log, phases[w].id)) == key
  }

  /** What has passed is accepted, and its gate is gone or about to go. */
  ghost predicate Clean(s: State) {
    forall id | id in s.passed ::
      id in s.jobs && (KeyOf(MsgAt(s.log, id)) !in s.gates || BeingDeleted(s.log, s.phases, KeyOf(MsgAt(s.log, id))))
  }

  /** A step that opens no gate, passes none, and leaves a deleting worker alone. */
  ghost predicate NoGate(s: State, s': State) {
    && s'.log == s.log && s'.passed == s.passed && s'.gates.Keys <= s.gates.Keys && s.jobs.Keys <= s'.jobs.Keys
    && |s'.phases| == |s.phases|
    && (forall w: nat | w < |s.phases| && s.phases[w].Deleting? :: s'.phases[w] == s.phases[w])
  }

  lemma CleanAfter(s: State, s': State)
    requires Clean(s) && NoGate(s, s')
    ensures Clean(s')
  {
    hide MsgAt;
    forall id | id in s'.passed && KeyOf(MsgAt(s'.log, id)) in s'.gates
      ensures BeingDeleted(s'.log, s'.phases, KeyOf(MsgAt(s'.log, id)))
    {
      var key := KeyOf(MsgAt(s.log, id));
      var w: nat :| w < |s.phases| && s.phases[w].Deleting? && KeyOf(MsgAt(s.log, s.phases[w].id)) == key;
      assert s'.phases[w] == s.phases[w];
    }
  }

  lemma TakeNoGate(c: Config, s: State, w: nat)
    ensures NoGate(s, Step(c, s, Take(w)))
  {
    hide MsgAt;
  }

  lemma SendNoGate(c: Config, s: State, p: nat)
    ensures NoGate(s, Step(c, s, Send(p)))
  {
  }

  lemma CheckNoGate(c: Config, s: State, w: nat)
    ensures NoGate(s, Step(c, s, Check(w)))
  {
    hide MsgAt, DedupKeyOf;
  }

  lemma CheckFailsNoGate(c: Config, s: State, w: nat)
    ensures NoGate(s, Step(c, s, CheckFails(w)))
  {
    hide MsgAt, DedupKeyOf;
  }

  lemma PostNoGate(c: Config, s: State, w: nat)
    ensures NoGate(s, Step(c, s, BeginPost(w))) && NoGate(s, Step(c, s, FailForGood(w)))
  {
    hide MsgAt;
  }

  lemma EndNoGate(c: Config, s: State, w: nat, recorded: bool)
    ensures NoGate(s, Step(c, s, PostSucceeds(w, recorded))) && NoGate(s, Step(c, s, PostFails(w)))
  {
    hide MsgAt, DedupKeyOf;
  }

  lemma RetryNoGate(c: Config, s: State, w: nat)
    ensures NoGate(s, Step(c, s, LoadFlag(w)))
  {
  }

  lemma ArmNoGate(c: Config, s: State, w: nat)
    ensures NoGate(s, Step(c, s, Arm(w)))
  {
  }

  lemma ReturnNoGate(c: Config, s: State, w: nat)
    ensures NoGate(s, Step(c, s, Return(w)))
  {
    hide MsgAt;
  }

  lemma ExitNoGate(c: Config, s: State, w: nat)
    ensures NoGate(s, Step(c, s, Exit(w)))
  {
  }

  lemma TimerNoGate(c: Config, s: State, t: nat)
    ensures NoGate(s, Step(c, s, Fire(t)))
  {
  }

  lemma TimerEndNoGate(c: Config, s: State, t: nat)
    ensures NoGate(s, Step(c, s, TimerEnd(t)))
  {
  }

  lemma TimerSendNoGate(c: Config, s: State, t: nat)
    ensures NoGate(s, Step(c, s, TimerSend(t)))
  {
  }

  lemma StopNoGate(c: Config, s: State, a: Action)
    requires a.StopFlag? || a.StopWait? || a.StopClose? || a.Forget?
    ensures NoGate(s, Step(c, s, a))
  {
  }

  /** The consumer opens no gate that has been passed: a STUMP of the pair would come after its BLOCK_PROCESSED. */
  lemma AcceptClean(c: Config, s: State, p: nat)
    requires Gate.Inv(c, s) && Places(s) && Clean(s)
    ensures Clean(Step(c, s, Accept(p)))
  {
    hide Gate.FifoOk, Gate.RetryOk, Gate.HeldOk, Gate.GateOk, Gate.OwedOk, Gate.TieOk, Gate.EventsOk, Gate.BeyondOk,
      PendOk, ChOk, WorkOk, TimerOk, EndOk;
    if p < |s.pos| && p < |s.log| && s.pos[p] < |s.log[p]| {
      var m := s.log[p][s.pos[p]];
      forall id | id in s.passed && m.kind == StumpMsg ensures KeyOf(MsgAt(s.log, id)) != KeyOf(m) {
        assert id in s.jobs && id.off < s.pos[id.part];
        assert c.part(s.log[p][s.pos[p]].url) == p && c.part(s.log[id.part][id.off].url) == id.part;
      }
      hide Gate.Inv, MsgAt;
    }
  }

  lemma PassClean(c: Config, s: State, w: nat)
    requires Gate.Inv(c, s) && Clean(s)
    ensures Clean(Step(c, s, PassGate(w)))
  {
    hide Gate.Inv, MsgAt;
    var s' := Step(c, s, PassGate(w));
    if w < |s.phases| && s.phases[w].AtGate? {
      Gate.HeldFacts(c, s, w);
    }
    forall id | id in s'.passed && KeyOf(MsgAt(s'.log, id)) in s'.gates
      ensures BeingDeleted(s'.log, s'.phases, KeyOf(MsgAt(s'.log, id)))
    {
      if id in s.passed {
        var v: nat :| v < |s.phases| && s.phases[v].Deleting?
                      && KeyOf(MsgAt(s.log, s.phases[v].id)) == KeyOf(MsgAt(s.log, id));
        assert s'.phases[v] == s.phases[v];
      } else {
        assert s'.phases[w] == Deleting(id);
      }
    }
  }

  lemma DeleteClean(c: Config, s: State, w: nat)
    requires Clean(s)
    ensures Clean(Step(c, s, DeleteGate(w)))
  {
    hide MsgAt;
    var s' := Step(c, s, DeleteGate(w));
    forall id | id in s'.passed && KeyOf(MsgAt(s'.log, id)) in s'.gates
      ensures BeingDeleted(s'.log, s'.phases, KeyOf(MsgAt(s'.log, id)))
    {
      var key := KeyOf(MsgAt(s.log, id));
      var v: nat :| v < |s.phases| && s.phases[v].Deleting? && KeyOf(MsgAt(s.log, s.phases[v].id)) == key;
      assert s'.phases[v] == s.phases[v];
    }
  }

  lemma PublishClean(c: Config, s: State, m: Msg)
    requires Gate.Inv(c, s) && Ordered(Append(s.log, c.part, m)) && Clean(s)
    ensures Clean(Step(c, s, Publish(m)))
  {
    hide Gate.PosOk, Gate.FifoOk, Gate.RetryOk, Gate.HeldOk, Gate.GateOk, Gate.OwedOk, Gate.TieOk, Gate.EventsOk,
      Append, Ordered, Gate.LogOk;
    Gate.AppendFacts(c, s.log, m);
    var s' := Step(c, s, Publish(m));
    forall id | id in s'.passed && KeyOf(MsgAt(s'.log, id)) in s'.gates
      ensures BeingDeleted(s'.log, s'.phases, KeyOf(MsgAt(s'.log, id)))
    {
      assert InLog(s.log, id) && MsgAt(s'.log, id) == MsgAt(s.log, id);
      var key := KeyOf(MsgAt(s.log, id));
      var v: nat :| v < |s.phases| && s.phases[v].Deleting? && KeyOf(MsgAt(s.log, s.phases[v].id)) == key;
      assert Gate.BeyondGate(s.phases[v]) && Holds(s.phases[v]) == Some(s.phases[v].id);
      assert InLog(s.log, s.phases[v].id);
      assert MsgAt(s'.log, s'.phases[v].id) == MsgAt(s.log, s.phases[v].id);
    }
  }

  lemma StepClean(c: Config, s: State, a: Action)
    requires Gate.Inv(c, s) && Places(s) && Clean(s) && Gate.Allowed(c, s, a)
    ensures Clean(Step(c, s, a))
  {
    hide Gate.Inv, Places, Clean, Step, NoGate, Ordered;
    var s' := Step(c, s, a);
    match a {
      case Publish(m) => PublishClean(c, s, m);
      case Accept(p) => AcceptClean(c, s, p);
      case PassGate(w) => PassClean(c, s, w);
      case DeleteGate(w) => DeleteClean(c, s, w);
      case Send(p) => SendNoGate(c, s, p); CleanAfter(s, s');
      case Take(w) => TakeNoGate(c, s, w); CleanAfter(s, s');
      case CheckFails(w) => CheckFailsNoGate(c, s, w); CleanAfter(s, s');
      case Check(w) => CheckNoGate(c, s, w); CleanAfter(s, s');
      case BeginPost(w) => PostNoGate(c, s, w); CleanAfter(s, s');
      case FailForGood(w) => PostNoGate(c, s, w); CleanAfter(s, s');
      case PostSucceeds(w, r) => EndNoGate(c, s, w, r); CleanAfter(s, s');
      case PostFails(w) => EndNoGate(c, s, w, false); CleanAfter(s, s');
      case LoadFlag(w) => RetryNoGate(c, s, w); CleanAfter(s, s');
      case Arm(w) => ArmNoGate(c, s, w); CleanAfter(s, s');
      case Return(w) => ReturnNoGate(c, s, w); CleanAfter(s, s');
      case Exit(w) => ExitNoGate(c, s, w); CleanAfter(s, s');
      case Fire(t) => TimerNoGate(c, s, t); CleanAfter(s, s');
      case TimerEnd(t) => TimerEndNoGate(c, s, t); CleanAfter(s, s');
      case TimerSend(t) => TimerSendNoGate(c, s, t); CleanAfter(s, s');
      case _ => StopNoGate(c, s, a); CleanAfter(s, s');
    }
  }
}
