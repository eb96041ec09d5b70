/**
 What the block protocol gets done: an item publishes a STUMP for every URL it was given, the item that is told of 0
 tells every registered URL, and as long as nothing is lost every announced block can be completed.
 */
module BlockProgress {
  import opened Prelude
  import opened CallbackLog
  import opened BlockProtocol

  ghost predicate InTopic(log: Log, m: Msg) {
    exists p, i :: 0 <= p < |log| && 0 <= i < |log[p]| && log[p][i] == m
  }

  lemma AppendHas(log: Log, part: Url -> nat, m: Msg)
    ensures part(m.url) < |log| ==> InTopic(Append(log, part, m), m)
  {
    var p := part(m.url);
    if p < |log| {
      assert Append(log, part, m)[p][|log[p]|] == m;
    }
  }

  lemma AppendKeepsAll(log: Log, part: Url -> nat, m: Msg, x: Msg)
    requires InTopic(log, x)
    ensures InTopic(Append(log, part, m), x)
  {
    var p, i :| 0 <= p < |log| && 0 <= i < |log[p]| && log[p][i] == x;
    assert Append(log, part, m)[p][i] == x;
  }

  /** Nothing in the topic is ever lost. */
  lemma StepKeepsTopic(part: Url -> nat, s: State, a: Action, x: Msg)
    requires InTopic(s.log, x)
    ensures InTopic(Step(part, s, a).log, x)
  {
    hide InTopic, Append;
    match a
    case PublishStump(item, ok) =>
      if item in s.work && s.work[item].Publishing? && s.work[item].todo != [] {
        AppendKeepsAll(s.log, part, Msg(StumpMsg, item.block, s.work[item].todo[0], item.index), x);
      }
    case PublishBlockProcessed(item, ok) =>
      if item in s.work && s.work[item].Emitting? && s.work[item].todo != [] {
        AppendKeepsAll(s.log, part, Msg(BlockProcessed, item.block, s.work[item].todo[0], 0), x);
      }
    case PublishOther(url, tag) => AppendKeepsAll(s.log, part, Msg(Other, "", url, tag), x);
    case _ =>
  }

  // ---------------------------------------------------------------- what an item has published

  /** The first `n` of `urls` have their message, as far as their partition exists. */
  ghost predicate Sent(part: Url -> nat, log: Log, kind: Kind, b: Block, tag: nat, urls: seq<Url>, n: int) {
    forall i | 0 <= i < n && i < |urls| && part(urls[i]) < |log| :: InTopic(log, Msg(kind, b, urls[i], tag))
  }

  /** What is left to do is the rest of `urls`. */
  ghost predicate RestOf(todo: seq<Url>, urls: seq<Url>) {
    |todo| <= |urls| && todo == urls[|urls| - |todo|..]
  }

  lemma RestNext(todo: seq<Url>, urls: seq<Url>)
    requires RestOf(todo, urls) && todo != []
    ensures RestOf(todo[1..], urls) && todo[0] == urls[|urls| - |todo|]
  {
  }

  lemma StepKeepsSent(part: Url -> nat, s: State, a: Action, kind: Kind, b: Block, tag: nat, urls: seq<Url>, n: int)
    requires Sent(part, s.log, kind, b, tag, urls, n)
    ensures Sent(part, Step(part, s, a).log, kind, b, tag, urls, n)
  {
    SameLogSize(part, s, a);
    hide InTopic, Step;
    forall i | 0 <= i < n && i < |urls| && part(urls[i]) < |s.log|
      ensures InTopic(Step(part, s, a).log, Msg(kind, b, urls[i], tag))
    {
      StepKeepsTopic(part, s, a, Msg(kind, b, urls[i], tag));
    }
  }

  lemma SentNext(part: Url -> nat, log: Log, kind: Kind, b: Block, tag: nat, urls: seq<Url>, n: nat)
    requires Sent(part, log, kind, b, tag, urls, n) && n < |urls|
    ensures Sent(part, Append(log, part, Msg(kind, b, urls[n], tag)), kind, b, tag, urls, n + 1)
  {
    hide InTopic, Append;
    var m := Msg(kind, b, urls[n], tag);
    AppendHas(log, part, m);
    forall i | 0 <= i < n && part(urls[i]) < |log| ensures InTopic(Append(log, part, m), Msg(kind, b, urls[i], tag)) {
      AppendKeepsAll(log, part, m, Msg(kind, b, urls[i], tag));
    }
  }

  /** `x` was given `urls`, and has a STUMP in the topic for each it is done with. */
  ghost predicate Stumping(part: Url -> nat, s: State, x: Item, urls: seq<Url>) {
    x in s.work && x !in s.queue &&
    match s.work[x]
    case Publishing(todo) =>
      RestOf(todo, urls) && Sent(part, s.log, StumpMsg, x.block, x.index, urls, |urls| - |todo|)
    case _ => Sent(part, s.log, StumpMsg, x.block, x.index, urls, |urls|)
  }

  /** `x` was told of 0 with `urls` registered, and has a BLOCK_PROCESSED in the topic for each it is done with. */
  ghost predicate Telling(part: Url -> nat, s: State, x: Item, urls: seq<Url>) {
    x in s.work && x !in s.queue &&
    match s.work[x]
    case Publishing(_) => false
    case Emitting(todo) =>
      RestOf(todo, urls) && Sent(part, s.log, BlockProcessed, x.block, 0, urls, |urls| - |todo|)
    case Finished => Sent(part, s.log, BlockProcessed, x.block, 0, urls, |urls|)
  }

  /** Does this step publish for `x`, and fail to? */
  predicate Fails(a: Action, x: Item) {
    a == PublishStump(x, false) || a == PublishBlockProcessed(x, false)
  }

  /** Who is at work and has left the queue stays so, and only its own steps move it on. */
  lemma OthersLeaveAlone(part: Url -> nat, s: State, a: Action, x: Item)
    requires Inv(part, s) && x in s.work && x !in s.queue
    ensures x in Step(part, s, a).work && x !in Step(part, s, a).queue
    ensures !((a.PublishStump? || a.DecrementCounter? || a.PublishBlockProcessed?) && a.item == x) ==>
              Step(part, s, a).work[x] == s.work[x]
  {
    hide Append, Zeros, Emitters, Justified, Ordered, Placed, Counts;
  }

  lemma StumpingStep(part: Url -> nat, s: State, a: Action, x: Item, urls: seq<Url>)
    requires Inv(part, s) && Stumping(part, s, x, urls) && !Fails(a, x)
    ensures Stumping(part, Step(part, s, a), x, urls)
  {
    hide Inv, Sent, Append, Announced, Dispatched, Started;
    OthersLeaveAlone(part, s, a, x);
    var todo := if s.work[x].Publishing? then s.work[x].todo else [];
    StepKeepsSent(part, s, a, StumpMsg, x.block, x.index, urls, |urls| - |todo|);
    if a == PublishStump(x, true) && todo != [] {
      RestNext(todo, urls);
      SentNext(part, s.log, StumpMsg, x.block, x.index, urls, |urls| - |todo|);
    }
  }

  lemma TellingStep(part: Url -> nat, s: State, a: Action, x: Item, urls: seq<Url>)
    requires Inv(part, s) && Telling(part, s, x, urls) && !Fails(a, x)
    ensures Telling(part, Step(part, s, a), x, urls)
  {
    hide Inv, Sent, Append, Announced, Dispatched, Started;
    OthersLeaveAlone(part, s, a, x);
    var todo := if s.work[x].Emitting? then s.work[x].todo else [];
    StepKeepsSent(part, s, a, BlockProcessed, x.block, 0, urls, |urls| - |todo|);
    if a == PublishBlockProcessed(x, true) && todo != [] {
      RestNext(todo, urls);
      SentNext(part, s.log, BlockProcessed, x.block, 0, urls, |urls| - |todo|);
    }
  }

  // ---------------------------------------------------------------- over runs

  lemma RunSnoc(part: Url -> nat, partitions: nat, actions: seq<Action>, n: nat)
    requires n < |actions|
    ensures Run(part, partitions, actions[..n + 1]) == Step(part, Run(part, partitions, actions[..n]), actions[n])
  {
    hide Step;
    assert actions[..n + 1][..n] == actions[..n];
  }

  lemma StumpingStarts(part: Url -> nat, s: State, x: Item, urls: seq<Url>)
    requires x in s.queue
    ensures Stumping(part, Step(part, s, Start(x, urls)), x, urls)
  {
    hide InTopic;
    assert urls[|urls| - |urls|..] == urls;
  }

  lemma {:induction false} StumpingSince(part: Url -> nat, partitions: nat, actions: seq<Action>, k: nat, n: nat,
                                         x: Item,
                                         urls: seq<Url>)
    requires k < n <= |actions| && actions[k] == Start(x, urls) && x in Run(part, partitions, actions[..k]).queue
    requires forall j | k < j < n :: !Fails(actions[j], x)
    ensures Stumping(part, Run(part, partitions, actions[..n]), x, urls)
  {
    hide Run, Inv, Stumping, Step;
    RunSnoc(part, partitions, actions, n - 1);
    RunKeepsInv(part, partitions, actions[..n - 1]);
    if n == k + 1 {
      StumpingStarts(part, Run(part, partitions, actions[..k]), x, urls);
    } else {
      StumpingSince(part, partitions, actions, k, n - 1, x, urls);
      StumpingStep(part, Run(part, partitions, actions[..n - 1]), actions[n - 1], x, urls);
    }
  }

  /**
   In every run: an item that takes its URLs and is past publishing without a failed publication has a STUMP in the
   topic for every one of them.
   */
  lemma {:induction false} EveryStumpPublished(part: Url -> nat, partitions: nat, actions: seq<Action>, k: nat, x: Item,
                                               urls: seq<Url>, u: Url)
    requires k < |actions| && actions[k] == Start(x, urls) && x in Run(part, partitions, actions[..k]).queue
    requires forall j | k < j < |actions| :: !Fails(actions[j], x)
    requires u in urls && part(u) < partitions
    ensures var s := Run(part, partitions, actions);
            x in s.work && (!s.work[x].Publishing? ==> InTopic(s.log, Msg(StumpMsg, x.block, u, x.index)))
  {
    StumpingSince(part, partitions, actions, k, |actions|, x, urls);
    assert actions[..|actions|] == actions;
    RunKeepsInv(part, partitions, actions);
    hide Run, Inv, InTopic;
    var i :| 0 <= i < |urls| && urls[i] == u;
  }

  lemma {:induction false} TellingSince(part: Url -> nat, partitions: nat, actions: seq<Action>, k: nat, n: nat,
                                        x: Item,
                                        urls: seq<Url>)
    requires k < n <= |actions| && actions[k] == DecrementCounter(x, Answered, urls)
    requires x !in Run(part, partitions, actions[..k]).zeroed && x in Run(part, partitions, actions[..k + 1]).zeroed
    requires forall j | k < j < n :: !Fails(actions[j], x)
    ensures Telling(part, Run(part, partitions, actions[..n]), x, urls)
  {
    hide Run, Inv, Telling, Step;
    RunSnoc(part, partitions, actions, n - 1);
    RunKeepsInv(part, partitions, actions[..n - 1]);
    if n == k + 1 {
      TellingStarts(part, Run(part, partitions, actions[..k]), x, urls);
    } else {
      TellingSince(part, partitions, actions, k, n - 1, x, urls);
      TellingStep(part, Run(part, partitions, actions[..n - 1]), actions[n - 1], x, urls);
    }
  }

  lemma TellingStarts(part: Url -> nat, s: State, x: Item, urls: seq<Url>)
    requires Inv(part, s) && x !in s.zeroed && x in Step(part, s, DecrementCounter(x, Answered, urls)).zeroed
    ensures Telling(part, Step(part, s, DecrementCounter(x, Answered, urls)), x, urls)
  {
    hide Inv, Step, InTopic;
    NotQueued(part, s, x);
    ZeroEmits(part, s, x, urls);
    assert urls[|urls| - |urls|..] == urls;
  }

  /** The Decrement that brings the counter to 0, and is told so, makes its item emit. */
  lemma ZeroEmits(part: Url -> nat, s: State, x: Item, urls: seq<Url>)
    requires x !in s.zeroed && x in Step(part, s, DecrementCounter(x, Answered, urls)).zeroed
    ensures var s' := Step(part, s, DecrementCounter(x, Answered, urls));
            x in s.work && x in s'.work && s'.work[x] == Emitting(urls) && s'.queue == s.queue
  {
  }

  lemma NotQueued(part: Url -> nat, s: State, x: Item)
    requires Inv(part, s)
    ensures x in s.work ==> x !in s.queue
  {
  }

  /**
   In every run: the item whose answered Decrement brings its block to 0, once it is finished without a failed
   publication, has told every URL that was registered then.
   */
  lemma {:induction false} EveryUrlTold(part: Url -> nat, partitions: nat, actions: seq<Action>, k: nat, x: Item,
                                        urls: seq<Url>, u: Url)
    requires k < |actions| && actions[k] == DecrementCounter(x, Answered, urls)
    requires x !in Run(part, partitions, actions[..k]).zeroed && x in Run(part, partitions, actions[..k + 1]).zeroed
    requires forall j | k < j < |actions| :: !Fails(actions[j], x)
    requires u in urls && part(u) < partitions
    ensures var s := Run(part, partitions, actions);
            && x in s.work && !s.work[x].Publishing?
            && (s.work[x].Finished? ==> InTopic(s.log, Msg(BlockProcessed, x.block, u, 0)))
  {
    TellingSince(part, partitions, actions, k, |actions|, x, urls);
    assert actions[..|actions|] == actions;
    RunKeepsInv(part, partitions, actions);
    hide Run, Inv, InTopic;
    var i :| 0 <= i < |urls| && urls[i] == u;
  }
}
