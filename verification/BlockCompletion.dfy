/**
 A block whose dispatches and decrements are not lost can always be completed, from every state of every run, and then
 all registered URLs are told.
 */
module BlockCompletion {
  import opened Prelude
  import opened CallbackLog
  import opened BlockProtocol
  import opened BlockProgress

  function RunFrom(part: Url -> nat, s: State, actions: seq<Action>): State
    decreases |actions|
  {
    if actions == [] then s else RunFrom(part, Step(part, s, actions[0]), actions[1..])
  }

  lemma {:induction false} RunFromAppend(part: Url -> nat, s: State, a: seq<Action>, b: seq<Action>)
    ensures RunFrom(part, s, a + b) == RunFrom(part, RunFrom(part, s, a), b)
    decreases |a|
  {
    hide Step;
    if a == [] {
      assert a + b == b;
    } else {
      assert (a + b)[1..] == a[1..] + b;
      RunFromAppend(part, Step(part, s, a[0]), a[1..], b);
    }
  }

  lemma {:induction false} RunContinues(part: Url -> nat, partitions: nat, actions: seq<Action>, more: seq<Action>)
    ensures Run(part, partitions, actions + more) == RunFrom(part, Run(part, partitions, actions), more)
    decreases |more|
  {
    hide Step;
    if more == [] {
      assert actions + more == actions;
    } else {
      var next := actions + [more[0]];
      assert next[..|actions|] == actions;
      assert actions + more == next + more[1..];
      RunContinues(part, partitions, next, more[1..]);
    }
  }

  /**
   No item of the block has been lost: what is dispatched is queued or at work, what is past publishing has decremented.
   */
  ghost predicate Intact(s: State, b: Block) {
    && b in s.blocks
    && (forall i: nat | i < s.blocks[b].next :: Item(b, i) in s.queue || Item(b, i) in s.work)
    && (forall x | x in s.work && x.block == b && !s.work[x].Publishing? :: x.index in s.blocks[b].decremented)
  }

  /** The next step that brings item `x` forward. */
  function NextFor(s: State, x: Item, urls: seq<Url>): Action {
    if x in s.work then
      match s.work[x]
      case Publishing(todo) => if todo != [] then PublishStump(x, true) else DecrementCounter(x, Answered, urls)
      case Emitting(_) => PublishBlockProcessed(x, true)
      case Finished => Announce(x.block, 0)
    else if x in s.queue then Start(x, [])
    else Dispatch(x.block, true)
  }

  /** How many such steps it takes at most. */
  function StepsLeft(s: State, x: Item, urls: seq<Url>): nat {
    if x in s.work then
      match s.work[x]
      case Publishing(todo) => |todo| + 2 + |urls|
      case Emitting(todo) => |todo| + 1
      case Finished => 0
    else if x in s.queue then 3 + |urls|
    else 4 + |urls|
  }

  /** Unless the block had reached 0 before, reaching it means that `urls` are being told. */
  ghost predicate Pledged(part: Url -> nat, before: bool, s: State, b: Block, urls: seq<Url>) {
    before || !ReachedZero(s.zeroed, b) || exists x :: x in s.zeroed && x.block == b && Telling(part, s, x, urls)
  }

  /** Every other item of the block that is at work is where it was. */
  ghost predicate OthersStay(s: State, s': State, x: Item) {
    forall y | y in s.work && y.block == x.block && y != x :: y in s'.work && s'.work[y] == s.work[y]
  }

  ghost predicate Ready(part: Url -> nat, before: bool, s: State, x: Item, urls: seq<Url>) {
    && Inv(part, s) && x.block in s.blocks && Intact(s, x.block) && Pledged(part, before, s, x.block, urls)
    && x.index < s.blocks[x.block].total && x.index <= s.blocks[x.block].next
  }

  lemma NextKeepsIntact(part: Url -> nat, s: State, x: Item, urls: seq<Url>)
    requires Inv(part, s) && Intact(s, x.block) && x.index < s.blocks[x.block].total
    requires x.index <= s.blocks[x.block].next
    ensures var s' := Step(part, s, NextFor(s, x, urls));
            && Intact(s', x.block) && OthersStay(s, s', x)
            && s'.blocks[x.block].total == s.blocks[x.block].total && s'.blocks[x.block].next >= s.blocks[x.block].next
            && (StepsLeft(s, x, urls) > 0 ==> StepsLeft(s', x, urls) < StepsLeft(s, x, urls))
  {
    hide Append, Zeros, Emitters, Justified, Ordered, Placed, Counts;
  }

  lemma NextKeepsPledge(part: Url -> nat, before: bool, s: State, x: Item, urls: seq<Url>)
    requires Inv(part, s) && Pledged(part, before, s, x.block, urls)
    ensures Pledged(part, before, Step(part, s, NextFor(s, x, urls)), x.block, urls)
  {
    hide Inv, Step, InTopic, Telling;
    var a := NextFor(s, x, urls);
    var s' := Step(part, s, a);
    NotQueued(part, s, x);
    ZeroSteps(part, s, a);
    if before || !ReachedZero(s'.zeroed, x.block) {
    } else if s'.zeroed == s.zeroed {
      var y :| y in s.zeroed && y.block == x.block && Telling(part, s, y, urls);
      TellingStep(part, s, a, y, urls);
    } else {
      TellingBegins(part, s', x, urls);
      assert x in s'.zeroed;
    }
  }

  lemma TellingBegins(part: Url -> nat, s: State, x: Item, urls: seq<Url>)
    requires x in s.work && x !in s.queue && s.work[x] == Emitting(urls)
    ensures Telling(part, s, x, urls)
  {
    assert urls[|urls| - |urls|..] == urls;
  }

  /** Only a Decrement brings a block to 0, and if it is answered its item emits. */
  lemma ZeroSteps(part: Url -> nat, s: State, a: Action)
    ensures var s' := Step(part, s, a);
            s'.zeroed != s.zeroed ==>
              a.DecrementCounter? && a.item in s'.work && s'.zeroed == s.zeroed + {a.item} && s'.log == s.log
                  && s'.queue == s.queue
              && (a.reply == Answered ==> s'.work[a.item] == Emitting(a.urls))
  {
    hide Append;
  }

  /** Brings one item to its end. */
  lemma {:induction false} FinishItem(part: Url -> nat, before: bool, s: State, x: Item, urls: seq<Url>)
      returns (more: seq<Action>)
    requires Ready(part, before, s, x, urls)
    ensures var s' := RunFrom(part, s, more);
            && Ready(part, before, s', x, urls) && OthersStay(s, s', x)
            && s'.blocks[x.block].total == s.blocks[x.block].total
            && x in s'.work && s'.work[x] == Finished
    decreases StepsLeft(s, x, urls)
  {
    hide Step, Inv, Pledged;
    if StepsLeft(s, x, urls) == 0 {
      more := [];
    } else {
      var a := NextFor(s, x, urls);
      NextKeepsIntact(part, s, x, urls);
      NextKeepsPledge(part, before, s, x, urls);
      StepKeepsInv(part, s, a);
      var rest := FinishItem(part, before, Step(part, s, a), x, urls);
      more := [a] + rest;
      assert more[1..] == rest;
    }
  }

  /** Brings all items from the `i`-th on to their end. */
  lemma {:induction false} FinishFrom(part: Url -> nat, before: bool, s: State, b: Block, i: nat, urls: seq<Url>)
      returns (more: seq<Action>)
    requires Inv(part, s) && b in s.blocks && Intact(s, b) && Pledged(part, before, s, b, urls)
    requires i <= s.blocks[b].total
    requires forall j: nat | j < i :: Item(b, j) in s.work && s.work[Item(b, j)] == Finished
    ensures var s' := RunFrom(part, s, more);
            && Inv(part, s') && b in s'.blocks && Intact(s', b) && Pledged(part, before, s', b, urls)
            && s'.blocks[b].total == s.blocks[b].total
            && forall j: nat | j < s.blocks[b].total :: Item(b, j) in s'.work && s'.work[Item(b, j)] == Finished
    decreases s.blocks[b].total - i
  {
    hide Step, Pledged, Inv, Intact;
    if i == s.blocks[b].total {
      more := [];
    } else {
      NextReaches(part, s, b, i);
      var first := FinishItem(part, before, s, Item(b, i), urls);
      var s1 := RunFrom(part, s, first);
      var rest := FinishFrom(part, before, s1, b, i + 1, urls);
      more := first + rest;
      RunFromAppend(part, s, first, rest);
    }
  }

  /** If the first `i` items are at work they are dispatched. */
  lemma NextReaches(part: Url -> nat, s: State, b: Block, i: nat)
    requires Inv(part, s) && b in s.blocks && forall j: nat | j < i :: Item(b, j) in s.work
    ensures i <= s.blocks[b].next
  {
    if i > 0 {
      assert Item(b, i - 1) in s.work;
    }
  }

  // ---------------------------------------------------------------- over runs

  /** No dispatch and no decrement of the block is lost. */
  predicate Loses(a: Action, b: Block) {
    a == Dispatch(b, false) || (a.DecrementCounter? && a.item.block == b && a.reply == Rejected)
  }

  lemma IntactStep(part: Url -> nat, s: State, a: Action, b: Block)
    requires Inv(part, s) && (b in s.blocks ==> Intact(s, b)) && !Loses(a, b)
    ensures b in Step(part, s, a).blocks ==> Intact(Step(part, s, a), b)
    ensures b in s.blocks ==> b in Step(part, s, a).blocks && Step(part, s, a).blocks[b].total == s.blocks[b].total
  {
    hide Append, Zeros, Emitters, Justified, Ordered, Placed, Counts;
  }

  lemma {:induction false} IntactRun(part: Url -> nat, partitions: nat, actions: seq<Action>, b: Block)
    requires forall k | 0 <= k < |actions| :: !Loses(actions[k], b)
    ensures b in Run(part, partitions, actions).blocks ==> Intact(Run(part, partitions, actions), b)
  {
    if actions == [] {
    } else {
      var n := |actions| - 1;
      IntactRun(part, partitions, actions[..n], b);
      RunKeepsInv(part, partitions, actions[..n]);
      hide Inv, Intact, Step;
      IntactStep(part, Run(part, partitions, actions[..n]), actions[n], b);
    }
  }

  /** An announced block is there, with the number of subtrees it was first announced with. */
  lemma {:induction false} AnnouncedStays(part: Url -> nat, partitions: nat, actions: seq<Action>, k: nat, b: Block,
                                          n: nat)
    requires k < |actions| && actions[k] == Announce(b, n) && n > 0
    ensures b in Run(part, partitions, actions).blocks
    ensures b !in Run(part, partitions, actions[..k]).blocks ==> Run(part, partitions, actions).blocks[b].total == n
  {
    var last := |actions| - 1;
    if k == last {
      hide Append;
    } else {
      AnnouncedStays(part, partitions, actions[..last], k, b, n);
      assert actions[..last][..k] == actions[..k];
      TotalStays(part, Run(part, partitions, actions[..last]), actions[last], b);
      hide Step;
    }
  }

  lemma TotalStays(part: Url -> nat, s: State, a: Action, b: Block)
    requires b in s.blocks
    ensures b in Step(part, s, a).blocks && Step(part, s, a).blocks[b].total == s.blocks[b].total
  {
    hide Append;
  }

  /**
   From every state of every run in which nothing of an announced block was lost there is a continuation in which all
   its items finish and its counter reaches 0; and if it had not before, every URL of the registry is told.
   */
  lemma {:induction false} BlockCanComplete(part: Url -> nat, partitions: nat, actions: seq<Action>, k: nat, b: Block,
                                            n: nat,
                                            urls: seq<Url>) returns (more: seq<Action>)
    requires k < |actions| && actions[k] == Announce(b, n) && n > 0
    requires forall j | 0 <= j < |actions| :: !Loses(actions[j], b)
    ensures var s, s' := Run(part, partitions, actions), Run(part, partitions, actions + more);
            && b in s'.blocks && s'.blocks[b].remaining == 0
            && (forall i: nat | i < s'.blocks[b].total :: Item(b, i) in s'.work && s'.work[Item(b, i)] == Finished)
            && (!ReachedZero(s.zeroed, b) ==>
                  forall u | u in urls && part(u) < partitions :: InTopic(s'.log, Msg(BlockProcessed, b, u, 0)))
  {
    AnnouncedStays(part, partitions, actions, k, b, n);
    IntactRun(part, partitions, actions, b);
    RunKeepsInv(part, partitions, actions);
    var s := Run(part, partitions, actions);
    var before := ReachedZero(s.zeroed, b);
    assert Pledged(part, before, s, b, urls);
    hide Inv, Step, Intact, Run;
    more := FinishFrom(part, before, s, b, 0, urls);
    RunContinues(part, partitions, actions, more);
    RunKeepsInv(part, partitions, actions + more);
    var s' := Run(part, partitions, actions + more);
    AllFinished(part, s', b);
    if !before {
      AllTold(part, s', b, urls);
    }
  }

  lemma AllFinished(part: Url -> nat, s: State, b: Block)
    requires Inv(part, s) && Intact(s, b)
    requires forall i: nat | i < s.blocks[b].total :: Item(b, i) in s.work && s.work[Item(b, i)] == Finished
    ensures s.blocks[b].remaining == 0 && ReachedZero(s.zeroed, b)
  {
    assert RowOk(s.blocks[b]);
    forall i: nat | i < s.blocks[b].total ensures i in s.blocks[b].decremented {
      assert Item(b, i) in s.work && Item(b, i).block == b;
    }
    AllByIndex(s.blocks[b]);
    ZeroIffAll(s.blocks[b]);
  }

  lemma AllTold(part: Url -> nat, s: State, b: Block, urls: seq<Url>)
    requires Inv(part, s) && ReachedZero(s.zeroed, b) && Pledged(part, false, s, b, urls)
    requires forall i: nat | i < s.blocks[b].total :: Item(b, i) in s.work && s.work[Item(b, i)] == Finished
    requires b in s.blocks
    ensures forall u | u in urls && part(u) < |s.log| :: InTopic(s.log, Msg(BlockProcessed, b, u, 0))
  {
    hide InTopic, ReachedZero;
    var x :| x in s.zeroed && x.block == b && Telling(part, s, x, urls);
    InRange(part, s, x);
    assert x == Item(b, x.index) && s.work[x] == Finished;
    forall u | u in urls && part(u) < |s.log| ensures InTopic(s.log, Msg(BlockProcessed, b, u, 0)) {
      var i :| 0 <= i < |urls| && urls[i] == u;
    }
  }

  lemma InRange(part: Url -> nat, s: State, x: Item)
    requires Inv(part, s) && x in s.work
    ensures x.block in s.blocks && x.index < s.blocks[x.block].total
  {
    assert RowOk(s.blocks[x.block]);
  }

  // ---------------------------------------------------------------- a failed publication is passed over

  /** Item `x` has these URLs left to publish STUMPs to, or to tell of the block. */
  predicate HasLeft(s: State, x: Item, kind: Kind, todo: seq<Url>) {
    x in s.work && ((kind == StumpMsg && s.work[x] == Publishing(todo))
                    || (kind == BlockProcessed && s.work[x] == Emitting(todo)))
  }

  function MsgTo(x: Item, kind: Kind, u: Url): Msg {
    Msg(kind, x.block, u, if kind == StumpMsg then x.index else 0)
  }

  /** One publication after the other, each of which may fail. */
  function Publications(x: Item, kind: Kind, oks: seq<bool>): (r: seq<Action>)
    ensures |r| == |oks|
  {
    seq(|oks|, i requires 0 <= i < |oks| =>
      if kind == StumpMsg then PublishStump(x, oks[i]) else PublishBlockProcessed(x, oks[i]))
  }

  /** The message is one of those whose publication succeeds. */
  ghost predicate Succeeds(part: Url -> nat, n: nat, x: Item, kind: Kind, todo: seq<Url>, oks: seq<bool>, m: Msg) {
    exists i :: 0 <= i < |todo| && i < |oks| && oks[i] && part(todo[i]) < n && m == MsgTo(x, kind, todo[i])
  }

  lemma SucceedsFirst(part: Url -> nat, n: nat, x: Item, kind: Kind, todo: seq<Url>, oks: seq<bool>, m: Msg)
    requires |todo| == |oks| > 0
    ensures Succeeds(part, n, x, kind, todo, oks, m)
       <==> (oks[0] && part(todo[0]) < n && m == MsgTo(x, kind, todo[0]))
            || Succeeds(part, n, x, kind, todo[1..], oks[1..], m)
  {
    hide MsgTo;
    if Succeeds(part, n, x, kind, todo, oks, m) {
      var i :| 0 <= i < |todo| && oks[i] && part(todo[i]) < n && m == MsgTo(x, kind, todo[i]);
      assert i > 0 ==> todo[1..][i - 1] == todo[i] && oks[1..][i - 1] == oks[i];
    }
    if Succeeds(part, n, x, kind, todo[1..], oks[1..], m) {
      var i :| 0 <= i < |todo[1..]| && oks[1..][i] && part(todo[1..][i]) < n && m == MsgTo(x, kind, todo[1..][i]);
      assert todo[i + 1] == todo[1..][i] && oks[i + 1] == oks[1..][i];
    }
  }

  lemma OnePublication(part: Url -> nat, s: State, x: Item, kind: Kind, todo: seq<Url>, ok: bool)
    requires todo != [] && HasLeft(s, x, kind, todo)
    ensures var s' := Step(part, s, if kind == StumpMsg then PublishStump(x, ok) else PublishBlockProcessed(x, ok));
            && HasLeft(s', x, kind, todo[1..]) && s' == s.(work := s.work[x := s'.work[x]], log := s'.log)
            && s'.log == if ok then Append(s.log, part, MsgTo(x, kind, todo[0])) else s.log
  {
    hide Append;
  }

  lemma AppendAdds(log: Log, part: Url -> nat, m: Msg, x: Msg)
    ensures InTopic(Append(log, part, m), x) <==> InTopic(log, x) || (part(m.url) < |log| && x == m)
  {
    if InTopic(log, x) {
      AppendKeepsAll(log, part, m, x);
    }
    AppendHas(log, part, m);
    var log' := Append(log, part, m);
    if InTopic(log', x) {
      var p, i :| 0 <= p < |log'| && 0 <= i < |log'[p]| && log'[p][i] == x;
      assert i < |log[p]| ==> log[p][i] == x;
    }
  }

  /**
   The loops over callback URLs: whichever publications fail, the item gets to the end of its list, and exactly the
   messages whose publication succeeded are new in the topic.
   */
  lemma {:induction false} PublishedExactly(part: Url -> nat, s: State, x: Item, kind: Kind, todo: seq<Url>,
                                            oks: seq<bool>)
    requires HasLeft(s, x, kind, todo) && |oks| == |todo|
    ensures var s' := RunFrom(part, s, Publications(x, kind, oks));
            && HasLeft(s', x, kind, []) && s' == s.(work := s.work[x := s'.work[x]], log := s'.log)
            && |s'.log| == |s.log|
            && forall m :: InTopic(s'.log, m) <==> InTopic(s.log, m) || Succeeds(part, |s.log|, x, kind, todo, oks, m)
    decreases |todo|
  {
    hide Step, InTopic, Succeeds, Append, HasLeft, MsgTo;
    if todo == [] {
      assert s.work[x := s.work[x]] == s.work by {
        InWork(s, x, kind, todo);
      }
      forall m ensures !Succeeds(part, |s.log|, x, kind, todo, oks, m) {
        NoneSucceeds(part, |s.log|, x, kind, oks, m);
      }
    } else {
      var a := if kind == StumpMsg then PublishStump(x, oks[0]) else PublishBlockProcessed(x, oks[0]);
      var s1 := Step(part, s, a);
      OnePublication(part, s, x, kind, todo, oks[0]);
      InWork(s, x, kind, todo);
      assert Publications(x, kind, oks)[1..] == Publications(x, kind, oks[1..]);
      PublishedExactly(part, s1, x, kind, todo[1..], oks[1..]);
      var s' := RunFrom(part, s1, Publications(x, kind, oks[1..]));
      forall m ensures InTopic(s'.log, m)
                  <==> InTopic(s.log, m) || Succeeds(part, |s.log|, x, kind, todo, oks, m)
      {
        SucceedsFirst(part, |s.log|, x, kind, todo, oks, m);
        AppendAdds(s.log, part, MsgTo(x, kind, todo[0]), m);
        UrlOf(x, kind, todo[0]);
      }
    }
  }

  lemma InWork(s: State, x: Item, kind: Kind, todo: seq<Url>)
    requires HasLeft(s, x, kind, todo)
    ensures x in s.work
  {
  }

  lemma NoneSucceeds(part: Url -> nat, n: nat, x: Item, kind: Kind, oks: seq<bool>, m: Msg)
    ensures !Succeeds(part, n, x, kind, [], oks, m)
  {
  }

  lemma UrlOf(x: Item, kind: Kind, u: Url)
    ensures MsgTo(x, kind, u).url == u
  {
  }

  // ---------------------------------------------------------------- what is lost is never made up for

  /** The step loses an item of the block in this state: a dispatch or a decrement that would have counted fails. */
  predicate LosesIn(s: State, a: Action, b: Block) {
    Loses(a, b) &&
    if a.Dispatch? then b in s.blocks && s.blocks[b].next < s.blocks[b].total
    else a.item in s.work && s.work[a.item] == Publishing([])
  }

  /** The item is dispatched and will never decrement. */
  ghost predicate Lost(s: State, x: Item) {
    && x.block in s.blocks && x.index < s.blocks[x.block].next && x !in s.queue
    && (x in s.work ==> !s.work[x].Publishing?) && x.index !in s.blocks[x.block].decremented
  }

  lemma LosesItem(part: Url -> nat, s: State, a: Action, b: Block) returns (x: Item)
    requires Inv(part, s) && LosesIn(s, a, b)
    ensures x.block == b && Lost(Step(part, s, a), x)
  {
    hide Append, Zeros, Emitters, Justified, Ordered, Placed;
    if a.Dispatch? {
      x := Item(b, s.blocks[b].next);
      assert x.index in s.blocks[b].decremented ==> x in s.work;
    } else {
      x := a.item;
    }
  }

  lemma LostStays(part: Url -> nat, s: State, a: Action, x: Item)
    requires Inv(part, s) && Lost(s, x)
    ensures Lost(Step(part, s, a), x)
  {
    hide Append, Zeros, Emitters, Justified, Ordered, Placed, Counts;
  }

  lemma LostNotZero(part: Url -> nat, s: State, x: Item)
    requires Inv(part, s) && Lost(s, x)
    ensures s.blocks[x.block].remaining >= 1 && !ReachedZero(s.zeroed, x.block)
    ensures forall u: Url, tag: nat :: !InTopic(s.log, Msg(BlockProcessed, x.block, u, tag))
  {
    assert RowOk(s.blocks[x.block]);
    ZeroIffAll(s.blocks[x.block]);
    assert x.index in Upto(s.blocks[x.block].total);
  }

  lemma {:induction false} LostSince(part: Url -> nat, partitions: nat, actions: seq<Action>, k: nat, b: Block)
    returns (x: Item)
    requires k < |actions| && LosesIn(Run(part, partitions, actions[..k]), actions[k], b)
    ensures x.block == b && Lost(Run(part, partitions, actions), x)
  {
    hide Step, Lost, Inv, LosesIn, Run;
    var last := |actions| - 1;
    RunKeepsInv(part, partitions, actions[..last]);
    RunSnoc(part, partitions, actions, last);
    assert actions[..last + 1] == actions;
    if k == last {
      x := LosesItem(part, Run(part, partitions, actions[..last]), actions[last], b);
    } else {
      assert actions[..last][..k] == actions[..k];
      x := LostSince(part, partitions, actions[..last], k, b);
      LostStays(part, Run(part, partitions, actions[..last]), actions[last], x);
    }
  }

  /**
   In every run: once a dispatch or a decrement of a block has failed, its counter never reaches 0 and no
   BLOCK_PROCESSED of it is ever published.
   */
  lemma {:induction false} LostNeverCompletes(part: Url -> nat, partitions: nat, actions: seq<Action>, k: nat, b: Block)
    requires k < |actions| && LosesIn(Run(part, partitions, actions[..k]), actions[k], b)
    ensures var s := Run(part, partitions, actions);
            && b in s.blocks && s.blocks[b].remaining >= 1
            && forall u: Url, tag: nat :: !InTopic(s.log, Msg(BlockProcessed, b, u, tag))
  {
    var x := LostSince(part, partitions, actions, k, b);
    RunKeepsInv(part, partitions, actions);
    hide Run, Inv, InTopic, LosesIn;
    LostNotZero(part, Run(part, partitions, actions), x);
  }
}
