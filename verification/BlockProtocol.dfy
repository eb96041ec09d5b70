/**
 The block-completion protocol as a machine of atomic steps: a dispatcher initialises the block's counter and publishes
 one work item per subtree; workers publish STUMP messages and then decrement; the one that sees 0 broadcasts
 BLOCK_PROCESSED.

 Callback messages go to append-only partition logs, all messages of a URL to the same partition. Every publication may
 fail, and so may a decrement, with or without having taken effect; a subtree without result publishes nothing but still
 decrements. Each work item is handled at most once: an assumption, since Kafka may deliver again.
 */
module BlockProtocol {
  import opened Prelude
  import opened CallbackLog

  datatype Item = Item(block: Block, index: nat)

  datatype Phase = Publishing(todo: seq<Url>) | Emitting(todo: seq<Url>) | Finished

  /**
   A block: its counter row, how many subtrees it has and how many are dispatched, and (history) which have decremented.
   */
  datatype Progress = Progress(remaining: int, total: nat, next: nat, decremented: set<nat>)

  datatype State = State(
    log: Log,
    blocks: map<Block, Progress>,
    queue: set<Item>,
    work: map<Item, Phase>,
    /** History: the items whose Decrement brought the counter to 0, and those of them that were not told. */
    zeroed: set<Item>,
    unheard: set<Item>)

  /** A Decrement answers, has no effect and fails, or takes effect and still fails. */
  datatype Reply = Answered | Rejected | AnswerLost

  datatype Action =
    | Announce(block: Block, count: nat)
    | Dispatch(block: Block, ok: bool)
    | Start(item: Item, urls: seq<Url>)
    | PublishStump(item: Item, ok: bool)
    | DecrementCounter(item: Item, reply: Reply, urls: seq<Url>)
    | PublishBlockProcessed(item: Item, ok: bool)
    | PublishOther(url: Url, tag: nat)

  function Announced(s: State, b: Block, n: nat): State {
    if b in s.blocks || n == 0 then s else s.(blocks := s.blocks[b := Progress(n, n, 0, {})])
  }

  function Dispatched(s: State, b: Block, ok: bool): State {
    if b in s.blocks && s.blocks[b].next < s.blocks[b].total then
      var i := s.blocks[b].next;
      s.(blocks := s.blocks[b := s.blocks[b].(next := i + 1)], queue := s.queue + if ok then {Item(b, i)} else {})
    else s
  }

  function Started(s: State, item: Item, urls: seq<Url>): State {
    if item in s.queue then s.(queue := s.queue - {item}, work := s.work[item := Publishing(urls)]) else s
  }

  function StumpPublished(part: Url -> nat, s: State, item: Item, ok: bool): State {
    if item in s.work && s.work[item].Publishing? && s.work[item].todo != [] then
      var todo := s.work[item].todo;
      s.(work := s.work[item := Publishing(todo[1..])],
         log := if ok then Append(s.log, part, Msg(StumpMsg, item.block, todo[0], item.index)) else s.log)
    else s
  }

  function Decremented(s: State, item: Item, reply: Reply, urls: seq<Url>): State {
    if item in s.work && s.work[item] == Publishing([]) then
      if reply != Rejected && item.block in s.blocks then
        var row := s.blocks[item.block];
        var left := row.remaining - 1;
        s.(blocks := s.blocks[item.block := row.(remaining := left, decremented := row.decremented + {item.index})],
           zeroed := s.zeroed + (if left == 0 then {item} else {}),
           unheard := s.unheard + (if left == 0 && reply == AnswerLost then {item} else {}),
           work := s.work[item := if left == 0 && reply == Answered then Emitting(urls) else Finished])
      else s.(work := s.work[item := Finished])
    else s
  }

  function Emitted(part: Url -> nat, s: State, item: Item, ok: bool): State {
    if item in s.work && s.work[item].Emitting? then
      var todo := s.work[item].todo;
      if todo == [] then s.(work := s.work[item := Finished])
      else s.(work := s.work[item := Emitting(todo[1..])],
              log := if ok then Append(s.log, part, Msg(BlockProcessed, item.block, todo[0], 0)) else s.log)
    else s
  }

  /** A step; one that is not enabled changes nothing. */
  function Step(part: Url -> nat, s: State, a: Action): State {
    match a
    case Announce(b, n) => Announced(s, b, n)
    case Dispatch(b, ok) => Dispatched(s, b, ok)
    case Start(item, urls) => Started(s, item, urls)
    case PublishStump(item, ok) => StumpPublished(part, s, item, ok)
    case DecrementCounter(item, reply, urls) => Decremented(s, item, reply, urls)
    case PublishBlockProcessed(item, ok) => Emitted(part, s, item, ok)
    case PublishOther(url, tag) => s.(log := Append(s.log, part, Msg(Other, "", url, tag)))
  }

  function Initial(partitions: nat): State {
    State(seq(partitions, _ => []), map[], {}, map[], {}, {})
  }

  function Run(part: Url -> nat, partitions: nat, actions: seq<Action>): State {
    if actions == [] then Initial(partitions)
    else Step(part, Run(part, partitions, actions[..|actions| - 1]), actions[|actions| - 1])
  }

  // ---------------------------------------------------------------- the invariant

  function Upto(n: nat): (r: set<nat>)
    ensures forall i: nat :: i in r <==> i < n
  {
    if n == 0 then {} else Upto(n - 1) + {n - 1}
  }

  type Blocks = map<Block, Progress>

  /** Every item of the block has decremented. */
  ghost predicate Complete(bs: Blocks, b: Block) {
    b in bs && bs[b].decremented == Upto(bs[b].total)
  }

  /** The counter is what the items that have not decremented still owe. */
  ghost predicate RowOk(r: Progress) {
    1 <= r.total && r.next <= r.total && r.decremented <= Upto(r.total) && r.remaining == r.total - |r.decremented|
  }

  ghost predicate Counts(bs: Blocks) {
    forall b | b in bs :: RowOk(bs[b])
  }

  /**
   An item is in one place: not yet dispatched, queued, or at work; it has decremented only once it is past publishing.
   */
  ghost predicate Items(bs: Blocks, queue: set<Item>, work: map<Item, Phase>) {
    && (forall x | x in queue :: x.block in bs && x.index < bs[x.block].next && x !in work)
    && (forall x | x in work :: x.block in bs && x.index < bs[x.block].next
                                && (work[x].Publishing? ==> x.index !in bs[x.block].decremented))
    && (forall b, i | b in bs && i in bs[b].decremented :: Item(b, i) in work)
  }

  ghost predicate ReachedZero(zeroed: set<Item>, b: Block) {
    exists x :: x in zeroed && x.block == b
  }

  /** Reaching 0 means the block is complete, and is the doing of one item of it. */
  ghost predicate Zeros(bs: Blocks, zeroed: set<Item>) {
    && (forall x | x in zeroed :: Complete(bs, x.block))
    && (forall x, y | x in zeroed && y in zeroed && x.block == y.block :: x == y)
    && (forall b | Complete(bs, b) :: ReachedZero(zeroed, b))
  }

  /** Only an item that was told of 0 emits. */
  ghost predicate Emitters(work: map<Item, Phase>, zeroed: set<Item>, unheard: set<Item>) {
    && unheard <= zeroed && zeroed <= work.Keys
    && (forall x | x in work && work[x].Emitting? :: x in zeroed && x !in unheard)
    && (forall x | x in work && work[x].Publishing? :: x !in zeroed)
  }

  /** Every BLOCK_PROCESSED in the log is of a complete block. */
  ghost predicate Justified(bs: Blocks, log: Log) {
    forall p, i | 0 <= p < |log| && 0 <= i < |log[p]| && log[p][i].kind == BlockProcessed ::
        Complete(bs, log[p][i].block)
  }

  ghost predicate Inv(part: Url -> nat, s: State) {
    && Counts(s.blocks)
    && Items(s.blocks, s.queue, s.work)
    && Zeros(s.blocks, s.zeroed)
    && Emitters(s.work, s.zeroed, s.unheard)
    && Justified(s.blocks, s.log)
    && Ordered(s.log)
    && Placed(part, s.log)
  }

  // ---------------------------------------------------------------- preservation

  lemma {:induction false} UptoSize(n: nat)
    ensures |Upto(n)| == n
  {
    if n == 0 {
    } else {
      UptoSize(n - 1);
    }
  }

  /** The counter stands at 0 exactly when everyone has decremented. */
  lemma ZeroIffAll(r: Progress)
    requires RowOk(r)
    ensures r.remaining >= 0 && (r.remaining == 0 <==> r.decremented == Upto(r.total))
  {
    UptoSize(r.total);
    SubsetSize(r.decremented, Upto(r.total));
  }

  /** A block with an item still publishing is not complete, so nobody has seen 0. */
  lemma NotYetComplete(s: State, item: Item)
    requires Counts(s.blocks) && Items(s.blocks, s.queue, s.work) && item in s.work && s.work[item].Publishing?
    ensures item.block in s.blocks && !Complete(s.blocks, item.block)
  {
    assert RowOk(s.blocks[item.block]);
    assert item.index in Upto(s.blocks[item.block].total);
  }

  /**
   Appending a STUMP of an incomplete block, a BLOCK_PROCESSED of a complete one, or anything else, keeps the log in
   order.
   */
  lemma AppendKeeps(part: Url -> nat, bs: Blocks, log: Log, m: Msg)
    requires Justified(bs, log) && Ordered(log) && Placed(part, log)
    requires m.kind == StumpMsg ==> !Complete(bs, m.block)
    requires m.kind == BlockProcessed ==> Complete(bs, m.block)
    ensures var log' := Append(log, part, m); Justified(bs, log') && Ordered(log') && Placed(part, log')
  {
    hide Complete;
    var log': Log := Append(log, part, m);
    forall p, i | 0 <= p < |log'| && 0 <= i < |log'[p]| && log'[p][i].kind == BlockProcessed
        ensures Complete(bs, log'[p][i].block) {
      if i < |log[p]| {
        assert log'[p][i] == log[p][i];
      }
    }
    forall p, i, j | 0 <= p < |log'| && 0 <= i < j < |log'[p]| && log'[p][i].kind == BlockProcessed
        && log'[p][j].kind == StumpMsg
      ensures log'[p][i].block != log'[p][j].block
    {
      assert log'[p][i] == log[p][i];
      if j < |log[p]| {
        assert log'[p][j] == log[p][j];
      }
    }
  }

  lemma AnnouncedKeeps(part: Url -> nat, s: State, b: Block, n: nat)
    requires Inv(part, s)
    ensures Inv(part, Announced(s, b, n))
  {
    hide Ordered, Placed, Complete, RowOk, ReachedZero;
    var s' := Announced(s, b, n);
    if b !in s.blocks && n > 0 {
      NewRow(s.blocks, b, n);
    }
  }

  lemma NewRow(bs: Blocks, b: Block, n: nat)
    requires b !in bs && n > 0
    ensures var bs' := bs[b := Progress(n, n, 0, {})];
            RowOk(bs'[b]) && forall c :: Complete(bs', c) == Complete(bs, c)
  {
    assert 0 in Upto(n);
  }

  lemma DispatchedKeeps(part: Url -> nat, s: State, b: Block, ok: bool)
    requires Inv(part, s)
    ensures Inv(part, Dispatched(s, b, ok))
  {
    hide Ordered, Placed, Emitters, ReachedZero, RowOk, Complete, Items;
    if b in s.blocks && s.blocks[b].next < s.blocks[b].total {
      var i := s.blocks[b].next;
      NextRow(s.blocks, b);
      DispatchedItems(s.blocks, s.queue, s.work, b, ok);
    }
  }

  lemma NextRow(bs: Blocks, b: Block)
    requires b in bs && RowOk(bs[b]) && bs[b].next < bs[b].total
    ensures var bs' := bs[b := bs[b].(next := bs[b].next + 1)];
            RowOk(bs'[b]) && forall c :: Complete(bs', c) == Complete(bs, c)
  {
  }

  lemma DispatchedItems(bs: Blocks, queue: set<Item>, work: map<Item, Phase>, b: Block, ok: bool)
    requires Items(bs, queue, work) && b in bs
    ensures Items(bs[b := bs[b].(next := bs[b].next + 1)], queue + (if ok then {Item(b, bs[b].next)} else {}), work)
  {
  }

  lemma StartedKeeps(part: Url -> nat, s: State, item: Item, urls: seq<Url>)
    requires Inv(part, s)
    ensures Inv(part, Started(s, item, urls))
  {
    hide Ordered, Placed, Zeros, Justified, Counts;
  }

  /** A work item moves on within publishing or emitting, or finishes. */
  lemma PhaseKeeps(s: State, item: Item, phase: Phase)
    requires Items(s.blocks, s.queue, s.work) && Emitters(s.work, s.zeroed, s.unheard) && item in s.work
    requires phase.Publishing? ==> s.work[item].Publishing?
    requires phase.Emitting? ==> s.work[item].Emitting?
    ensures Items(s.blocks, s.queue, s.work[item := phase]) && Emitters(s.work[item := phase], s.zeroed, s.unheard)
  {
  }

  lemma StumpPublishedKeeps(part: Url -> nat, s: State, item: Item, ok: bool)
    requires Inv(part, s)
    ensures Inv(part, StumpPublished(part, s, item, ok))
  {
    hide Ordered, Placed, Zeros, Justified, Counts, Items, Emitters, Complete, Append;
    if item in s.work && s.work[item].Publishing? && s.work[item].todo != [] {
      var todo := s.work[item].todo;
      NotYetComplete(s, item);
      PhaseKeeps(s, item, Publishing(todo[1..]));
      AppendKeeps(part, s.blocks, s.log, Msg(StumpMsg, item.block, todo[0], item.index));
    }
  }

  lemma EmittedKeeps(part: Url -> nat, s: State, item: Item, ok: bool)
    requires Inv(part, s)
    ensures Inv(part, Emitted(part, s, item, ok))
  {
    hide Ordered, Placed, Justified, Counts, Items, Complete, Append;
    if item in s.work && s.work[item].Emitting? {
      var todo := s.work[item].todo;
      assert Complete(s.blocks, item.block);
      PhaseKeeps(s, item, if todo == [] then Finished else Emitting(todo[1..]));
      if todo != [] {
        AppendKeeps(part, s.blocks, s.log, Msg(BlockProcessed, item.block, todo[0], 0));
      }
    }
  }

  lemma DecrementedKeeps(part: Url -> nat, s: State, item: Item, reply: Reply, urls: seq<Url>)
    requires Inv(part, s)
    ensures Inv(part, Decremented(s, item, reply, urls))
  {
    hide Ordered, Placed, Zeros, Justified, Counts, Items, Emitters, Complete;
    if item in s.work && s.work[item] == Publishing([]) {
      NotYetComplete(s, item);
      PhaseKeeps(s, item, Finished);
      if reply != Rejected {
        CountedKeeps(part, s, item, reply, urls);
      }
    }
  }

  /** The Decrement takes effect. */
  lemma CountedKeeps(part: Url -> nat, s: State, item: Item, reply: Reply, urls: seq<Url>)
    requires Inv(part, s) && item in s.work && s.work[item] == Publishing([]) && reply != Rejected
    ensures Inv(part, Decremented(s, item, reply, urls))
  {
    hide Ordered, Placed, Zeros, Justified, Counts, Items, Emitters, Complete;
    NotYetComplete(s, item);
    DecrementRow(s.blocks, s.queue, s.work, item);
    DecrementItems(s.blocks, s.queue, s.work, item, urls);
    DecrementZeros(s.blocks, s.zeroed, item);
    DecrementLog(s.blocks, s.log, item);
    DecrementEmitters(s.work, s.zeroed, s.unheard, item, urls);
  }

  /** The block's row once `item` has decremented. */
  function Taken(bs: Blocks, item: Item): Blocks
    requires item.block in bs
  {
    var row := bs[item.block];
    bs[item.block := row.(remaining := row.remaining - 1, decremented := row.decremented + {item.index})]
  }

  lemma DecrementRow(bs: Blocks, queue: set<Item>, work: map<Item, Phase>, item: Item)
    requires Counts(bs) && Items(bs, queue, work) && item in work && work[item].Publishing?
    ensures Counts(Taken(bs, item))
    ensures Complete(Taken(bs, item), item.block) <==> Taken(bs, item)[item.block].remaining == 0
  {
    assert RowOk(bs[item.block]);
    assert RowOk(Taken(bs, item)[item.block]);
    ZeroIffAll(Taken(bs, item)[item.block]);
  }

  lemma DecrementItems(bs: Blocks, queue: set<Item>, work: map<Item, Phase>, item: Item, urls: seq<Url>)
    requires Items(bs, queue, work) && item in work && work[item].Publishing?
    ensures Items(Taken(bs, item), queue, work[item := Emitting(urls)])
    ensures Items(Taken(bs, item), queue, work[item := Finished])
  {
  }

  lemma OthersComplete(bs: Blocks, item: Item)
    requires item.block in bs
    ensures forall c | c != item.block :: Complete(Taken(bs, item), c) == Complete(bs, c)
  {
  }

  lemma DecrementZeros(bs: Blocks, zeroed: set<Item>, item: Item)
    requires Zeros(bs, zeroed) && item.block in bs && !Complete(bs, item.block)
    requires Complete(Taken(bs, item), item.block) <==> Taken(bs, item)[item.block].remaining == 0
    ensures Zeros(Taken(bs, item), zeroed + (if Taken(bs, item)[item.block].remaining == 0 then {item} else {}))
  {
    hide Complete;
    OthersComplete(bs, item);
    var bs' := Taken(bs, item);
    var saw' := zeroed + (if bs'[item.block].remaining == 0 then {item} else {});
    forall b | Complete(bs', b) ensures ReachedZero(saw', b) {
      if b == item.block {
        assert item in saw';
      } else {
        assert ReachedZero(zeroed, b);
        var x :| x in zeroed && x.block == b;
        assert x in saw';
      }
    }
  }

  lemma DecrementLog(bs: Blocks, log: Log, item: Item)
    requires Justified(bs, log) && item.block in bs && !Complete(bs, item.block)
    ensures Justified(Taken(bs, item), log)
  {
    hide Complete;
    OthersComplete(bs, item);
  }

  lemma DecrementEmitters(work: map<Item, Phase>, zeroed: set<Item>, unheard: set<Item>, item: Item, urls: seq<Url>)
    requires Emitters(work, zeroed, unheard) && item in work && work[item].Publishing?
    ensures Emitters(work[item := Emitting(urls)], zeroed + {item}, unheard + {})
    ensures Emitters(work[item := Finished], zeroed + {item}, unheard + {item})
    ensures Emitters(work[item := Finished], zeroed + {}, unheard + {})
  {
  }

  lemma {:induction false} StepKeepsInv(part: Url -> nat, s: State, a: Action)
    requires Inv(part, s)
    ensures Inv(part, Step(part, s, a)) && |Step(part, s, a).log| == |s.log|
  {
    hide Inv, Announced, Dispatched, Started, StumpPublished, Decremented, Emitted, Append;
    SameLogSize(part, s, a);
    match a
    case Announce(b, n) => AnnouncedKeeps(part, s, b, n);
    case Dispatch(b, ok) => DispatchedKeeps(part, s, b, ok);
    case Start(item, urls) => StartedKeeps(part, s, item, urls);
    case PublishStump(item, ok) => StumpPublishedKeeps(part, s, item, ok);
    case DecrementCounter(item, reply, urls) => DecrementedKeeps(part, s, item, reply, urls);
    case PublishBlockProcessed(item, ok) => EmittedKeeps(part, s, item, ok);
    case PublishOther(url, tag) => OtherKeeps(part, s, Msg(Other, "", url, tag));
  }

  lemma OtherKeeps(part: Url -> nat, s: State, m: Msg)
    requires Inv(part, s) && m.kind == Other
    ensures Inv(part, s.(log := Append(s.log, part, m)))
  {
    hide Ordered, Placed, Justified, Append, Complete;
    AppendKeeps(part, s.blocks, s.log, m);
  }

  lemma SameLogSize(part: Url -> nat, s: State, a: Action)
    ensures |Step(part, s, a).log| == |s.log|
  {
    hide Append;
  }

  lemma {:induction false} RunKeepsInv(part: Url -> nat, partitions: nat, actions: seq<Action>)
    ensures var s := Run(part, partitions, actions);
            Inv(part, s) && |s.log| == partitions
  {
    if actions == [] {
    } else {
      hide Inv, Step;
      RunKeepsInv(part, partitions, actions[..|actions| - 1]);
      StepKeepsInv(part, Run(part, partitions, actions[..|actions| - 1]), actions[|actions| - 1]);
    }
  }

  // ---------------------------------------------------------------- the theorems

  /**
   In every interleaving: a block's counter stands at 0 exactly when all its items have published and decremented; then
   one item, and only one, brought it to 0, and no item of the block is still to publish a STUMP. That item is told and
   goes on to emit, and no other does, unless the answer of its Decrement was lost; then none does.
   */
  lemma OneEmitter(part: Url -> nat, partitions: nat, actions: seq<Action>, b: Block)
    ensures var s := Run(part, partitions, actions);
            b in s.blocks ==>
              && (s.blocks[b].remaining == 0 <==> ReachedZero(s.zeroed, b))
              && (forall x, y | x in s.zeroed && y in s.zeroed && x.block == b && y.block == b :: x == y)
              && (forall x | x in s.work && x.block == b && s.work[x].Emitting? :: x in s.zeroed && x !in s.unheard)
              && (forall x | x in s.zeroed && x.block == b :: x in s.work && !s.work[x].Publishing?)
              && (s.blocks[b].remaining == 0 <==> forall i: nat | i < s.blocks[b].total :: i in s.blocks[b].decremented)
              && (s.blocks[b].remaining == 0 ==> forall x | x in s.work && x.block == b :: !s.work[x].Publishing?)
              && (s.blocks[b].remaining == 0 ==> forall x | x in s.queue :: x.block != b)
              && (s.blocks[b].remaining == 0 ==> s.blocks[b].next == s.blocks[b].total)
  {
    RunKeepsInv(part, partitions, actions);
    var s := Run(part, partitions, actions);
    hide Run;
    if b in s.blocks {
      ZeroIffAll(s.blocks[b]);
      forall x | x in s.work && x.block == b && s.work[x].Publishing? ensures s.blocks[b].remaining != 0 {
        NotYetComplete(s, x);
      }
      forall x | x in s.queue && x.block == b ensures s.blocks[b].remaining != 0 {
        QueuedNotComplete(s, x);
      }
      if s.blocks[b].remaining == 0 {
        var last := s.blocks[b].total - 1;
        assert last in s.blocks[b].decremented;
        assert Item(b, last) in s.work;
      }
      AllByIndex(s.blocks[b]);
    }
  }

  lemma AllByIndex(r: Progress)
    requires RowOk(r)
    ensures r.decremented == Upto(r.total) <==> forall i: nat | i < r.total :: i in r.decremented
  {
  }

  lemma QueuedNotComplete(s: State, x: Item)
    requires Counts(s.blocks) && Items(s.blocks, s.queue, s.work) && x in s.queue
    ensures !Complete(s.blocks, x.block)
  {
    assert RowOk(s.blocks[x.block]);
    assert x.index in Upto(s.blocks[x.block].total);
    assert x == Item(x.block, x.index);
  }

  /** In every interleaving no STUMP of a block is published after a BLOCK_PROCESSED of that block. */
  lemma {:induction false} NoStumpAfterBlockProcessed(part: Url -> nat, partitions: nat, actions: seq<Action>)
    ensures Ordered(Run(part, partitions, actions).log) && Placed(part, Run(part, partitions, actions).log)
  {
    RunKeepsInv(part, partitions, actions);
  }
}
