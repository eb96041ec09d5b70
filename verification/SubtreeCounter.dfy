/**
 The per-block counter row: Init upserts it, Decrement takes one off and returns what remains. Each is one atomic step.
 */
module SubtreeCounter {
  import opened Prelude

  type Rows = map<string, int>

  datatype Op = Init(block: string, count: int) | Decrement(block: string) | Expire(block: string)

  /** None stands for an error: there is no row. */
  datatype Reply = Done | Remaining(count: Option<int>)

  function Apply(rows: Rows, op: Op): Rows {
    match op
    case Init(b, n) => rows[b := n]
    case Decrement(b) => if b in rows then rows[b := rows[b] - 1] else rows
    case Expire(b) => rows - {b}
  }

  function ReplyTo(rows: Rows, op: Op): Reply {
    match op
    case Init(_, _) => Done
    case Decrement(b) => Remaining(if b in rows then Some(rows[b] - 1) else None)
    case Expire(_) => Done
  }

  /** The table after a sequence of operations: since each is atomic, any interleaving is such a sequence. */
  function After(ops: seq<Op>): Rows {
    if ops == [] then map[] else Apply(After(ops[..|ops| - 1]), ops[|ops| - 1])
  }

  /** Operation `i` is a Decrement of `b` that returned 0. */
  ghost predicate ReturnsZero(ops: seq<Op>, i: nat, b: string) {
    i < |ops| && ops[i] == Decrement(b) && ReplyTo(After(ops[..i]), ops[i]) == Remaining(Some(0))
  }

  /** Without a new Init a row that reached 0 stays at or below 0, if it is there at all. */
  lemma {:induction false} StaysSpent(ops: seq<Op>, i: nat, j: nat, b: string)
    requires ReturnsZero(ops, i, b) && i < j <= |ops|
    requires forall k | i < k < j :: !(ops[k].Init? && ops[k].block == b)
    ensures b in After(ops[..j]) ==> After(ops[..j])[b] <= 0
  {
    assert ops[..j][..j - 1] == ops[..j - 1];
    if j == i + 1 {
    } else {
      StaysSpent(ops, i, j - 1, b);
    }
  }

  /** Between two Inits of a block's counter at most one Decrement returns 0, whatever else happens in between. */
  lemma AtMostOneZero(ops: seq<Op>, i: nat, j: nat, b: string)
    requires ReturnsZero(ops, i, b) && ReturnsZero(ops, j, b) && i < j
    ensures exists k :: i < k < j && ops[k].Init? && ops[k].block == b
  {
    if forall k | i < k < j :: !(ops[k].Init? && ops[k].block == b) {
      StaysSpent(ops, i, j, b);
      assert false;
    }
  }

  /** How many Decrements of `b` there are among the operations. */
  function Decrements(ops: seq<Op>, b: string): nat {
    if ops == [] then 0
    else Decrements(ops[..|ops| - 1], b) + if ops[|ops| - 1] == Decrement(b) then 1 else 0
  }

  /**
   After Init with `n`, and as long as the row lives, it is `n` less the Decrements: the n-th of them, and only it,
   returns 0.
   */
  lemma {:induction false} CountsDown(before: seq<Op>, n: int, rest: seq<Op>, b: string)
    requires forall k | 0 <= k < |rest| :: rest[k].Decrement? || rest[k].block != b
    ensures var rows := After(before + [Init(b, n)] + rest);
            b in rows && rows[b] == n - Decrements(rest, b)
  {
    var ops := before + [Init(b, n)] + rest;
    if rest == [] {
      assert ops == before + [Init(b, n)];
      assert ops[..|ops| - 1] == before;
    } else {
      var most := rest[..|rest| - 1];
      CountsDown(before, n, most, b);
      assert ops[..|ops| - 1] == before + [Init(b, n)] + most;
    }
  }

  class Store {
    var rows: Rows
    ghost var log: seq<Op>

    ghost predicate Valid()
      reads this
    {
      rows == After(log)
    }

    constructor ()
      ensures Valid() && log == []
    {
      rows, log := map[], [];
    }

    method Init(block: string, count: int)
      requires Valid()
      modifies this
      ensures Valid() && log == old(log) + [Op.Init(block, count)] && rows == Apply(old(rows), Op.Init(block, count))
    {
      rows := rows[block := count];
      log := log + [Op.Init(block, count)];
    }

    /** Read, subtract, write in one transaction. */
    method Decrement(block: string) returns (remaining: Option<int>)
      requires Valid()
      modifies this
      ensures Valid() && log == old(log) + [Op.Decrement(block)]
      ensures Remaining(remaining) == ReplyTo(old(rows), Op.Decrement(block))
              && rows == Apply(old(rows), Op.Decrement(block))
    {
      log := log + [Op.Decrement(block)];
      if block !in rows {
        return None;
      }
      var left := rows[block] - 1;
      rows := rows[block := left];
      return Some(left);
    }
  }
}
