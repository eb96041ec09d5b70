/** The callback topic: append-only logs, all messages of a URL in the same partition. */
module CallbackLog {
  type Block = string
  type Url = string

  datatype Kind = StumpMsg | BlockProcessed | Other

  datatype Msg = Msg(kind: Kind, block: Block, url: Url, tag: nat)

  /** One sequence of messages per partition. */
  type Log = seq<seq<Msg>>

  /** Appends to the partition of the message's URL. */
  function Append(log: Log, part: Url -> nat, m: Msg): (r: Log)
    ensures |r| == |log|
  {
    var p := part(m.url);
    if p < |log| then log[p := log[p] + [m]] else log
  }

  /** In no partition does a STUMP follow a BLOCK_PROCESSED of the same block. */
  ghost predicate Ordered(log: Log) {
    forall p, i, j | 0 <= p < |log| && 0 <= i < j < |log[p]| && log[p][i].kind == BlockProcessed
        && log[p][j].kind == StumpMsg ::
      log[p][i].block != log[p][j].block
  }

  /** A message is in the partition of its URL. */
  ghost predicate Placed(part: Url -> nat, log: Log) {
    forall p, i | 0 <= p < |log| && 0 <= i < |log[p]| :: part(log[p][i].url) == p
  }
}
