/**
 No URL is told twice that a block is processed: over every run of the block protocol in which the URL registry lists
 every URL once, the topic holds at most one BLOCK_PROCESSED per block and URL.
 */
module BlockOnce {
  import opened CallbackLog
  import opened BlockProtocol

  predicate Tells(m: Msg, b: Block, u: Url) {
    m.kind == BlockProcessed && m.block == b && m.url == u
  }

  ghost predicate Told(log: Log, b: Block, u: Url) {
    exists p, i :: 0 <= p < |log| && 0 <= i < |log[p]| && Tells(log[p][i], b, u)
  }

  ghost predicate Distinct(urls: seq<Url>) {
    forall i, j | 0 <= i < j < |urls| :: urls[i] != urls[j]
  }

  /** Within a partition, where all messages of a URL are. */
  ghost predicate ToldOnce(log: Log) {
    forall p, i, j | 0 <= p < |log| && 0 <= i < j < |log[p]| && log[p][i].kind == BlockProcessed
        && log[p][j].kind == BlockProcessed ::
      log[p][i].block != log[p][j].block || log[p][i].url != log[p][j].url
  }

  /** What is left to tell is not yet told. */
  ghost predicate Untold(log: Log, b: Block, todo: seq<Url>) {
    Distinct(todo) && forall k | 0 <= k < |todo| :: !Told(log, b, todo[k])
  }

  ghost predicate LeftToTell(log: Log, work: map<Item, Phase>) {
    forall x | x in work && work[x].Emitting? :: Untold(log, x.block, work[x].todo)
  }

  /** The registry lists every URL once. */
  ghost predicate Allowed(a: Action) {
    a.DecrementCounter? ==> Distinct(a.urls)
  }

  ghost predicate Once(s: State) {
    ToldOnce(s.log) && LeftToTell(s.log, s.work)
  }

  lemma ToldAfter(part: Url -> nat, log: Log, m: Msg, b: Block, u: Url)
    requires Told(Append(log, part, m), b, u)
    ensures Told(log, b, u) || Tells(m, b, u)
  {
    var log': Log := Append(log, part, m);
    var p, i :| 0 <= p < |log'| && 0 <= i < |log'[p]| && Tells(log'[p][i], b, u);
    if i < |log[p]| {
      assert log'[p][i] == log[p][i];
    }
  }

  lemma UntoldAfter(part: Url -> nat, log: Log, m: Msg, b: Block, todo: seq<Url>)
    requires Untold(log, b, todo) && forall k | 0 <= k < |todo| :: !Tells(m, b, todo[k])
    ensures Untold(Append(log, part, m), b, todo)
  {
    hide Told, Append;
    forall k | 0 <= k < |todo| && Told(Append(log, part, m), b, todo[k]) ensures false {
      ToldAfter(part, log, m, b, todo[k]);
    }
  }

  lemma ToldOnceAfter(part: Url -> nat, log: Log, m: Msg)
    requires ToldOnce(log) && (m.kind == BlockProcessed ==> !Told(log, m.block, m.url))
    ensures ToldOnce(Append(log, part, m))
  {
    var log': Log := Append(log, part, m);
    forall p, i, j | 0 <= p < |log'| && 0 <= i < j < |log'[p]| && log'[p][i].kind == BlockProcessed
        && log'[p][j].kind == BlockProcessed
      ensures log'[p][i].block != log'[p][j].block || log'[p][i].url != log'[p][j].url
    {
      assert log'[p][i] == log[p][i];
      if j < |log[p]| {
        assert log'[p][j] == log[p][j];
      } else {
        assert Tells(log[p][i], log[p][i].block, log[p][i].url);
      }
    }
  }

  /** A message other than BLOCK_PROCESSED changes nothing. */
  lemma OtherAfter(part: Url -> nat, s: State, m: Msg)
    requires Once(s) && m.kind != BlockProcessed
    ensures ToldOnce(Append(s.log, part, m)) && LeftToTell(Append(s.log, part, m), s.work)
  {
    hide Told, Append, Untold;
    ToldOnceAfter(part, s.log, m);
    forall x | x in s.work && s.work[x].Emitting? ensures Untold(Append(s.log, part, m), x.block, s.work[x].todo) {
      UntoldAfter(part, s.log, m, x.block, s.work[x].todo);
    }
  }

  /** The URLs after the first are still to be told once it is told. */
  lemma TellFirst(part: Url -> nat, log: Log, b: Block, todo: seq<Url>)
    requires Untold(log, b, todo) && todo != []
    ensures Untold(Append(log, part, Msg(BlockProcessed, b, todo[0], 0)), b, todo[1..]) && Untold(log, b, todo[1..])
  {
    hide Told, Append;
    UntoldAfter(part, log, Msg(BlockProcessed, b, todo[0], 0), b, todo[1..]);
  }

  /** Nobody else emits for the block, so nothing else changes. */
  lemma EmitOnce(part: Url -> nat, s: State, item: Item)
    requires Inv(part, s) && Once(s) && item in s.work && s.work[item].Emitting? && s.work[item].todo != []
    ensures var todo := s.work[item].todo;
            var log' := Append(s.log, part, Msg(BlockProcessed, item.block, todo[0], 0));
            ToldOnce(log') && LeftToTell(log', s.work[item := Emitting(todo[1..])])
                && LeftToTell(s.log, s.work[item := Emitting(todo[1..])])
  {
    hide Told, Append, Untold, Ordered, Placed, Justified, Counts, Items, Complete, ReachedZero;
    var todo := s.work[item].todo;
    var m := Msg(BlockProcessed, item.block, todo[0], 0);
    FirstUntold(s.log, item.block, todo);
    ToldOnceAfter(part, s.log, m);
    TellFirst(part, s.log, item.block, todo);
    forall x | x in s.work && s.work[x].Emitting? && x != item
        ensures Untold(Append(s.log, part, m), x.block, s.work[x].todo) {
      assert x.block != item.block;
      UntoldAfter(part, s.log, m, x.block, s.work[x].todo);
    }
  }

  lemma FirstUntold(log: Log, b: Block, todo: seq<Url>)
    requires Untold(log, b, todo) && todo != []
    ensures !Told(log, b, todo[0])
  {
  }

  /** Before the last decrement nothing has been told of the block. */
  lemma NothingTold(part: Url -> nat, s: State, item: Item, urls: seq<Url>)
    requires Inv(part, s) && item in s.work && s.work[item].Publishing? && Distinct(urls)
    ensures Untold(s.log, item.block, urls)
  {
    hide Ordered, Placed, Zeros, Emitters, Complete, Counts, Items;
    NotYetComplete(s, item);
  }

  lemma StepOnce(part: Url -> nat, s: State, a: Action)
    requires Inv(part, s) && Once(s) && Allowed(a)
    ensures Once(Step(part, s, a))
  {
    hide Inv, Told, Append, Untold, ToldOnce, Distinct;
    match a
    case Announce(_, _) =>
    case Dispatch(_, _) =>
    case Start(_, _) =>
    case PublishStump(x, ok) =>
      if x in s.work && s.work[x].Publishing? && s.work[x].todo != [] {
        OtherAfter(part, s, Msg(StumpMsg, x.block, s.work[x].todo[0], x.index));
      }
    case DecrementCounter(x, _, urls) =>
      if x in s.work && s.work[x] == Publishing([]) {
        NothingTold(part, s, x, urls);
      }
    case PublishBlockProcessed(x, ok) =>
      if x in s.work && s.work[x].Emitting? && s.work[x].todo != [] {
        EmitOnce(part, s, x);
      }
    case PublishOther(url, tag) => OtherAfter(part, s, Msg(Other, "", url, tag));
  }

  lemma {:induction false} RunOnce(part: Url -> nat, partitions: nat, actions: seq<Action>)
    requires forall i | 0 <= i < |actions| :: Allowed(actions[i])
    ensures Once(Run(part, partitions, actions))
  {
    if actions == [] {
    } else {
      hide Inv, Once, Step, Allowed;
      var before, last := actions[..|actions| - 1], actions[|actions| - 1];
      RunOnce(part, partitions, before);
      RunKeepsInv(part, partitions, before);
      StepOnce(part, Run(part, partitions, before), last);
    }
  }

  /** In every interleaving: two BLOCK_PROCESSED messages for the same block and URL are the same message. */
  lemma OneBlockProcessedPerUrl(part: Url -> nat, partitions: nat, actions: seq<Action>, p: nat, i: nat, q: nat,
                                j: nat, b: Block, u: Url)
    requires forall k | 0 <= k < |actions| :: Allowed(actions[k])
    ensures var log := Run(part, partitions, actions).log;
            p < |log| && i < |log[p]| && Tells(log[p][i], b, u) && q < |log| && j < |log[q]| && Tells(log[q][j], b, u)
            ==> p == q && i == j
  {
    RunOnce(part, partitions, actions);
    NoStumpAfterBlockProcessed(part, partitions, actions);
    hide Run;
  }
}
