/**
 `ImprovedCache` over 32 on-demand buckets, and the batched SetMulti with one goroutine per bucket.
 The hash is an arbitrary function.
 */
module ShardedCache {
  import opened Prelude
  import opened RingLedger
  import opened UnallocatedBucket
  import opened GenerationTags

  const BUCKETS: nat := 32

  // ---------------------------------------------------------------- schedules

  /** The effect on one bucket of the pairs `order`, one after the other. */
  function RunBucket<B>(step: (B, nat) -> B, b: B, order: seq<nat>): B {
    if order == [] then b
    else step(RunBucket(step, b, order[..|order| - 1]), order[|order| - 1])
  }

  /** The effect on all buckets when pair `i` goes to bucket `shard(i)`. */
  function RunAll<B>(step: (B, nat) -> B, shard: nat -> nat, bs: seq<B>, order: seq<nat>): (r: seq<B>)
    requires forall i | i in order :: shard(i) < |bs|
    ensures |r| == |bs|
  {
    if order == [] then bs
    else
      var last := order[|order| - 1];
      var before := RunAll(step, shard, bs, order[..|order| - 1]);
      before[shard(last) := step(before[shard(last)], last)]
  }

  /** The pairs of `order` that go to bucket `b`, in that order: its batch. */
  function Only(shard: nat -> nat, order: seq<nat>, b: nat): (r: seq<nat>)
    ensures forall i :: i in r <==> i in order && shard(i) == b
  {
    if order == [] then []
    else
      var last := order[|order| - 1];
      Only(shard, order[..|order| - 1], b) + if shard(last) == b then [last] else []
  }

  function ListOrder(n: nat): (r: seq<nat>)
    ensures |r| == n && forall i | 0 <= i < n :: r[i] == i
  {
    seq(n, i => i)
  }

  /** A bucket ends as its own batch leaves it, whatever happens to the others in between. */
  lemma {:induction false} BucketSeesItsBatch<B>(step: (B, nat) -> B, shard: nat -> nat, bs: seq<B>, order: seq<nat>,
                                                 b: nat)
    requires b < |bs| && forall i | i in order :: shard(i) < |bs|
    ensures RunAll(step, shard, bs, order)[b] == RunBucket(step, bs[b], Only(shard, order, b))
  {
    if order == [] {
    } else {
      var before, last := order[..|order| - 1], order[|order| - 1];
      BucketSeesItsBatch(step, shard, bs, before, b);
      if shard(last) == b {
        var batch := Only(shard, before, b) + [last];
        assert batch[..|batch| - 1] == Only(shard, before, b);
      } else {
        assert Only(shard, order, b) == Only(shard, before, b);
      }
    }
  }

  /**
   Under any interleaving in which every bucket receives its own batch in list order, all buckets end
   exactly as if the pairs had been set one by one in list order.
   */
  lemma InterleavingIrrelevant<B>(step: (B, nat) -> B, shard: nat -> nat, bs: seq<B>, n: nat, order: seq<nat>)
    requires forall i | 0 <= i < n :: shard(i) < |bs|
    requires forall i | i in order :: shard(i) < |bs|
    requires forall b | 0 <= b < |bs| :: Only(shard, order, b) == Only(shard, ListOrder(n), b)
    ensures RunAll(step, shard, bs, order) == RunAll(step, shard, bs, ListOrder(n))
  {
    forall b | 0 <= b < |bs|
      ensures RunAll(step, shard, bs, order)[b] == RunAll(step, shard, bs, ListOrder(n))[b]
    {
      BucketSeesItsBatch(step, shard, bs, order, b);
      BucketSeesItsBatch(step, shard, bs, ListOrder(n), b);
    }
  }

  // ---------------------------------------------------------------- the cache

  /** Which bucket pair `i` of a batch goes to. */
  function ShardOf(hash: Bytes -> nat, keys: seq<Bytes>): nat -> nat {
    (i: nat) => if i < |keys| then hash(keys[i]) % BUCKETS else 0
  }

  /** The effect of pair `i` on a bucket's ledger, given which pairs were stored. */
  function StepOf(hash: Bytes -> nat, keys: seq<Bytes>, values: seq<Bytes>, oks: map<nat, bool>)
      : (Ledger, nat) -> Ledger
  {
    (l: Ledger, i: nat) =>
      if i < |keys| && i < |values| && i in oks && oks[i] then Store(l, hash(keys[i]), keys[i], values[i]) else l
  }

  /** Every pair that was stored is one that fits. */
  ghost predicate StoredFit(keys: seq<Bytes>, values: seq<Bytes>, oks: map<nat, bool>) {
    forall i | i in oks && oks[i] && i < |keys| && i < |values| :: Fits(keys[i], values[i])
  }

  /** The outcomes when no mapping is refused: exactly the pairs that fit are stored. */
  function Fitting(keys: seq<Bytes>, values: seq<Bytes>): map<nat, bool>
    requires |keys| == |values|
  {
    map i: nat | i < |keys| :: Fits(keys[i], values[i])
  }

  /** The successful Sets among the pairs `order`. */
  function StoredIn(hash: Bytes -> nat, keys: seq<Bytes>, values: seq<Bytes>, oks: map<nat, bool>,
                    order: seq<nat>): seq<Event> {
    if order == [] then []
    else
      var i := order[|order| - 1];
      StoredIn(hash, keys, values, oks, order[..|order| - 1])
      + if i < |keys| && i < |values| && i in oks && oks[i] then [Stored(hash(keys[i]), keys[i], values[i])] else []
  }

  /** Only the outcomes of a bucket's own pairs matter to it. */
  lemma {:induction false} OwnOutcomesMatter(hash: Bytes -> nat, keys: seq<Bytes>, values: seq<Bytes>,
                                             oks: map<nat, bool>, oks': map<nat, bool>, l: Ledger, order: seq<nat>)
    requires forall i | i in order :: i in oks && i in oks' && oks[i] == oks'[i]
    ensures RunBucket(StepOf(hash, keys, values, oks), l, order) ==
            RunBucket(StepOf(hash, keys, values, oks'), l, order)
    ensures StoredIn(hash, keys, values, oks, order) == StoredIn(hash, keys, values, oks', order)
  {
    if order == [] {
    } else {
      OwnOutcomesMatter(hash, keys, values, oks, oks', l, order[..|order| - 1]);
      assert order[|order| - 1] in order;
    }
  }

  /**
   What a bucket shows to the cache: its ledger, its calls, its refused mappings, and whether all its chunks are mapped.
   */
  datatype Snap = Snap(ledger: Ledger, history: seq<Event>, refused: nat, full: bool)

  ghost function Snapshot(b: Bucket): Snap
    reads b
  {
    Snap(b.ledger, b.history, b.refused, b.allocatedChunks == |b.chunks|)
  }

  /** Every fitting pair of the batch is stored, and no other. */
  ghost predicate AllFittingStored(keys: seq<Bytes>, values: seq<Bytes>, oks: map<nat, bool>, order: seq<nat>) {
    forall i | i in order && i < |keys| && i < |values| :: i in oks && (oks[i] <==> Fits(keys[i], values[i]))
  }

  ghost predicate OnlyFittingStored(keys: seq<Bytes>, values: seq<Bytes>, oks: map<nat, bool>, order: seq<nat>) {
    forall i | i in order && i < |keys| && i < |values| && i in oks && oks[i] :: Fits(keys[i], values[i])
  }

  /** A fitting pair that was not stored would have opened a chunk, in the ledger the pairs before it left. */
  ghost predicate LeftOutOpening(hash: Bytes -> nat, keys: seq<Bytes>, values: seq<Bytes>, oks: map<nat, bool>,
                                 order: seq<nat>, l: Ledger) {
    forall j | 0 <= j < |order| && order[j] < |keys| && order[j] < |values| && order[j] in oks && !oks[order[j]] ::
      Fits(keys[order[j]], values[order[j]]) ==>
        OpensChunk(RunBucket(StepOf(hash, keys, values, oks), l, order[..j]),
            RecordLen(keys[order[j]], values[order[j]]))
  }

  lemma LeftOutExtends(hash: Bytes -> nat, keys: seq<Bytes>, values: seq<Bytes>, oks: map<nat, bool>, order: seq<nat>,
                       l: Ledger, i: nat, ok: bool)
    requires i < |keys| == |values| && i !in order && (forall j | j in order :: j in oks)
    requires LeftOutOpening(hash, keys, values, oks, order, l)
    requires Fits(keys[i], values[i]) && !ok ==>
               OpensChunk(RunBucket(StepOf(hash, keys, values, oks), l, order), RecordLen(keys[i], values[i]))
    ensures LeftOutOpening(hash, keys, values, oks[i := ok], order + [i], l)
  {
    hide Fits, OpensChunk;
    var order', oks' := order + [i], oks[i := ok];
    forall j | 0 <= j < |order'|
      ensures order'[..j] == order[..j]
      ensures RunBucket(StepOf(hash, keys, values, oks'), l, order'[..j]) ==
              RunBucket(StepOf(hash, keys, values, oks), l, order[..j])
      ensures j < |order| ==> oks'[order'[j]] == oks[order[j]]
    {
      assert order'[..j] == order[..j];
      assert forall x | x in order[..j] :: x in order;
      OwnOutcomesMatter(hash, keys, values, oks, oks', l, order[..j]);
      if j < |order| {
        assert order[j] in order;
      }
    }
    assert order[..|order|] == order;
    hide RunBucket;
  }

  lemma LeftOutOwn(hash: Bytes -> nat, keys: seq<Bytes>, values: seq<Bytes>, oks: map<nat, bool>, oks': map<nat, bool>,
                   order: seq<nat>, l: Ledger)
    requires forall i | i in order :: i in oks && i in oks' && oks[i] == oks'[i]
    requires LeftOutOpening(hash, keys, values, oks, order, l)
    ensures LeftOutOpening(hash, keys, values, oks', order, l)
  {
    hide Fits, OpensChunk;
    forall j | 0 <= j < |order|
      ensures RunBucket(StepOf(hash, keys, values, oks'), l, order[..j]) ==
              RunBucket(StepOf(hash, keys, values, oks), l, order[..j])
      ensures order[j] in order
    {
      OwnOutcomesMatter(hash, keys, values, oks, oks', l, order[..j]);
    }
    hide RunBucket;
  }

  /**
   A batch has been run on a bucket: its stored pairs are in the ledger and in the history, in order; a fitting pair is
   left out only for a refused mapping, which takes a pair that opens a chunk and a bucket whose chunks are not all
   mapped.
   */
  ghost predicate BatchDone(hash: Bytes -> nat, keys: seq<Bytes>, values: seq<Bytes>, oks: map<nat, bool>,
                            order: seq<nat>, was: Snap, now: Snap) {
    && now.ledger == RunBucket(StepOf(hash, keys, values, oks), was.ledger, order)
    && now.history == was.history + StoredIn(hash, keys, values, oks, order)
    && was.refused <= now.refused
    && (now.refused == was.refused <==> AllFittingStored(keys, values, oks, order))
    && OnlyFittingStored(keys, values, oks, order)
    && LeftOutOpening(hash, keys, values, oks, order, was.ledger)
    && (was.full ==> now.full && now.refused == was.refused)
  }

  lemma BatchNotBegun(hash: Bytes -> nat, keys: seq<Bytes>, values: seq<Bytes>, oks: map<nat, bool>, was: Snap)
    ensures BatchDone(hash, keys, values, oks, [], was, was)
  {
  }

  /** What Set of one pair does to a bucket. */
  ghost predicate SetDone(h: nat, k: Bytes, v: Bytes, ok: bool, was: Snap, now: Snap) {
    && now.ledger == (if ok then Store(was.ledger, h, k, v) else was.ledger)
    && now.history == (if ok then was.history + [Stored(h, k, v)] else was.history)
    && now.refused == was.refused + (if Fits(k, v) && !ok then 1 else 0)
    && (ok ==> Fits(k, v))
    && (now.refused != was.refused ==> OpensChunk(was.ledger, RecordLen(k, v)))
    && (was.full ==> now.full && now.refused == was.refused)
  }

  /** One more pair at the end of a batch. */
  lemma BatchExtends(hash: Bytes -> nat, keys: seq<Bytes>, values: seq<Bytes>, oks: map<nat, bool>, order: seq<nat>,
                     was: Snap, mid: Snap, now: Snap, i: nat, ok: bool)
    requires i < |keys| == |values| && i !in order && forall j | j in order :: j in oks
    requires BatchDone(hash, keys, values, oks, order, was, mid)
             && SetDone(hash(keys[i]), keys[i], values[i], ok, mid, now)
    ensures BatchDone(hash, keys, values, oks[i := ok], order + [i], was, now)
  {
    hide Store, Fits, OpensChunk, LeftOutOpening;
    OwnOutcomesMatter(hash, keys, values, oks, oks[i := ok], was.ledger, order);
    LeftOutExtends(hash, keys, values, oks, order, was.ledger, i, ok);
    assert (order + [i])[..|order|] == order;
    OthersFit(keys, values, oks, order, i, ok);
  }

  lemma OthersFit(keys: seq<Bytes>, values: seq<Bytes>, oks: map<nat, bool>, order: seq<nat>, i: nat, ok: bool)
    requires i < |keys| == |values| && i !in order && forall j | j in order :: j in oks
    ensures AllFittingStored(keys, values, oks[i := ok], order + [i])
       <==> AllFittingStored(keys, values, oks, order) && (ok <==> Fits(keys[i], values[i]))
    ensures OnlyFittingStored(keys, values, oks[i := ok], order + [i])
       <==> OnlyFittingStored(keys, values, oks, order) && (ok ==> Fits(keys[i], values[i]))
  {
    hide Fits;
    var oks' := oks[i := ok];
    assert i in order + [i];
    assert forall j | j in order :: j in order + [i] && oks'[j] == oks[j];
  }

  function Pick<T>(s: seq<T>, idxs: seq<nat>): (r: seq<T>)
    requires forall i | i in idxs :: i < |s|
    ensures |r| == |idxs|
  {
    seq(|idxs|, j requires 0 <= j < |idxs| => assert idxs[j] in idxs; s[idxs[j]])
  }

  lemma PickAt<T>(s: seq<T>, idxs: seq<nat>, j: nat)
    requires j < |idxs| && forall i | i in idxs :: i < |s|
    ensures |Pick(s, idxs)| == |idxs| && idxs[j] < |s| && Pick(s, idxs)[j] == s[idxs[j]]
  {
    assert idxs[j] in idxs;
  }

  /** One pair of a batch. */
  method SetOne(b: Bucket, k: Bytes, v: Bytes, h: nat) returns (ok: bool)
    requires b.Valid()
    modifies b, b.Mem
    ensures b.Valid() && fresh(b.Mem - old(b.Mem))
    ensures SetDone(h, k, v, ok, old(Snapshot(b)), Snapshot(b))
  {
    hide Bucket.Valid, Store, Fits, OpensChunk;
    ok := b.Set(k, v, h);
  }

  /**
   `bucket.SetMulti`: its batch in order, errors ignored.  The ghost parameters say which pairs of the
   whole call the batch consists of and collect which of them were stored.
   */
  method SetBatch(b: Bucket, hash: Bytes -> nat, ks: seq<Bytes>, vs: seq<Bytes>,
                  ghost keys: seq<Bytes>, ghost values: seq<Bytes>, ghost idxs: seq<nat>, ghost oks: map<nat, bool>)
      returns (ghost oks': map<nat, bool>)
    requires b.Valid() && |keys| == |values|
    requires forall i | i in idxs :: i < |keys| && i !in oks
    requires forall i, j | 0 <= i < j < |idxs| :: idxs[i] != idxs[j]
    requires ks == Pick(keys, idxs) && vs == Pick(values, idxs)
    modifies b, b.Mem
    ensures b.Valid() && fresh(b.Mem - old(b.Mem))
    ensures oks'.Keys == oks.Keys + set i | i in idxs
    ensures forall i | i in oks :: oks'[i] == oks[i]
    ensures BatchDone(hash, keys, values, oks', idxs, old(Snapshot(b)), Snapshot(b))
  {
    hide Bucket.Valid, BatchDone, SetDone, Pick, Snapshot;
    oks' := oks;
    BatchNotBegun(hash, keys, values, oks, Snapshot(b));
    var n := 0;
    while n < |ks|
      invariant 0 <= n <= |ks|
      invariant b.Valid() && fresh(b.Mem - old(b.Mem))
      invariant oks'.Keys == oks.Keys + set i | i in idxs[..n]
      invariant forall i | i in oks :: oks'[i] == oks[i]
      invariant BatchDone(hash, keys, values, oks', idxs[..n], old(Snapshot(b)), Snapshot(b))
    {
      ghost var mid, i := Snapshot(b), idxs[n];
      PickAt(keys, idxs, n);
      PickAt(values, idxs, n);
      var ok := SetOne(b, ks[n], vs[n], hash(ks[n]));
      assert i !in idxs[..n] && i in idxs;
      BatchExtends(hash, keys, values, oks', idxs[..n], old(Snapshot(b)), mid, Snapshot(b), i, ok);
      assert idxs[..n + 1] == idxs[..n] + [i];
      oks' := oks'[i := ok];
      n := n + 1;
    }
    assert idxs[..n] == idxs;
  }

  /** The distinct elements of a batch: list order has no repetitions, and neither has a part of it. */
  lemma {:induction false} OnlyDistinct(shard: nat -> nat, n: nat, b: nat)
    ensures var r := Only(shard, ListOrder(n), b);
            (forall i | i in r :: i < n) && (forall i, j | 0 <= i < j < |r| :: r[i] != r[j])
  {
    if n == 0 {
    } else {
      assert ListOrder(n)[..n - 1] == ListOrder(n - 1);
      OnlyDistinct(shard, n - 1, b);
      OnlyNext(shard, n - 1, b);
      var before := Only(shard, ListOrder(n - 1), b);
      assert forall i | 0 <= i < |before| :: before[i] in before;
    }
  }

  lemma OnlyNext(shard: nat -> nat, n: nat, b: nat)
    ensures Only(shard, ListOrder(n + 1), b) == Only(shard, ListOrder(n), b) + if shard(n) == b then [n] else []
  {
    assert ListOrder(n + 1)[..n] == ListOrder(n);
  }

  /** The bucket of a key. */
  function HomeOf(hash: Bytes -> nat, k: Bytes): (b: nat)
    ensures b < BUCKETS && b == hash(k) % 32
  {
    hash(k) % BUCKETS
  }

  /** The batch of bucket `b`: which pairs go to it. */
  function BatchOf(hash: Bytes -> nat, keys: seq<Bytes>, b: nat): seq<nat> {
    Only(ShardOf(hash, keys), ListOrder(|keys|), b)
  }

  lemma BatchFacts(hash: Bytes -> nat, keys: seq<Bytes>, b: nat)
    ensures forall i: nat :: i in BatchOf(hash, keys, b) <==> i < |keys| && HomeOf(hash, keys[i]) == b
    ensures forall i, j | 0 <= i < j < |BatchOf(hash, keys, b)| ::
              BatchOf(hash, keys, b)[i] != BatchOf(hash, keys, b)[j]
  {
    OnlyDistinct(ShardOf(hash, keys), |keys|, b);
    assert BatchOf(hash, keys, b) == Only(ShardOf(hash, keys), ListOrder(|keys|), b);
    forall i: nat | i < |keys| && HomeOf(hash, keys[i]) == b ensures i in BatchOf(hash, keys, b) {
      assert ListOrder(|keys|)[i] in ListOrder(|keys|);
    }
  }

  /** The batch of bucket `b` has been run on it. */
  ghost predicate Done(hash: Bytes -> nat, keys: seq<Bytes>, values: seq<Bytes>, oks: map<nat, bool>, was: Snap,
                       now: Snap, b: nat) {
    BatchDone(hash, keys, values, oks, BatchOf(hash, keys, b), was, now)
  }

  lemma NothingToDo(hash: Bytes -> nat, keys: seq<Bytes>, values: seq<Bytes>, oks: map<nat, bool>, was: Snap, b: nat)
    requires BatchOf(hash, keys, b) == []
    ensures Done(hash, keys, values, oks, was, was, b)
  {
    BatchNotBegun(hash, keys, values, oks, was);
  }

  lemma DoneOwn(hash: Bytes -> nat, keys: seq<Bytes>, values: seq<Bytes>, oks: map<nat, bool>, oks': map<nat, bool>,
                was: Snap, now: Snap, b: nat)
    requires Done(hash, keys, values, oks, was, now, b)
    requires forall i: nat | i < |keys| && HomeOf(hash, keys[i]) == b :: i in oks && i in oks' && oks[i] == oks'[i]
    ensures Done(hash, keys, values, oks', was, now, b)
  {
    hide Fits, LeftOutOpening;
    BatchFacts(hash, keys, b);
    LeftOutOwn(hash, keys, values, oks, oks', BatchOf(hash, keys, b), was.ledger);
    OwnOutcomesMatter(hash, keys, values, oks, oks', was.ledger, BatchOf(hash, keys, b));
  }

  /** `ks` and `vs` are those of the first `n` pairs that go to bucket `b`, in list order. */
  ghost predicate IsBatch(hash: Bytes -> nat, ks: seq<Bytes>, vs: seq<Bytes>, keys: seq<Bytes>, values: seq<Bytes>,
                          n: nat, b: nat) {
    var idxs := Only(ShardOf(hash, keys), ListOrder(n), b);
    n <= |keys| == |values| && |ks| == |vs| == |idxs|
    && (forall j | 0 <= j < |idxs| :: idxs[j] < |keys| && ks[j] == keys[idxs[j]] && vs[j] == values[idxs[j]])
  }

  lemma BatchStart(hash: Bytes -> nat, keys: seq<Bytes>, values: seq<Bytes>, b: nat)
    requires |keys| == |values|
    ensures IsBatch(hash, [], [], keys, values, 0, b)
  {
  }

  lemma BatchNext(hash: Bytes -> nat, ks: seq<Bytes>, vs: seq<Bytes>, keys: seq<Bytes>, values: seq<Bytes>, n: nat,
                  b: nat)
    requires n < |keys| && IsBatch(hash, ks, vs, keys, values, n, b)
    ensures var mine := HomeOf(hash, keys[n]) == b;
            IsBatch(hash, ks + (if mine then [keys[n]] else []), vs + (if mine then [values[n]] else []),
                    keys, values, n + 1, b)
  {
    OnlyNext(ShardOf(hash, keys), n, b);
  }

  // ---------------------------------------------------------------- the calls on the cache

  predicate Concerns(e: Event, b: nat) {
    e.Cleared? || e.h % BUCKETS == b
  }

  /** The calls that concern bucket `b`. */
  function Mine(hist: seq<Event>, b: nat): seq<Event> {
    if hist == [] then []
    else
      var e := hist[|hist| - 1];
      Mine(hist[..|hist| - 1], b) + if Concerns(e, b) then [e] else []
  }

  lemma MineSnoc(hist: seq<Event>, e: Event, b: nat)
    ensures Mine(hist + [e], b) == Mine(hist, b) + if Concerns(e, b) then [e] else []
  {
    assert (hist + [e])[..|hist|] == hist;
  }

  lemma {:induction false} MineAppend(a: seq<Event>, d: seq<Event>, b: nat)
    ensures Mine(a + d, b) == Mine(a, b) + Mine(d, b)
  {
    if d == [] {
      assert a + d == a;
    } else {
      hide Mine;
      var n := |d| - 1;
      MineAppend(a, d[..n], b);
      assert a + d == (a + d[..n]) + [d[n]] && d == d[..n] + [d[n]];
      MineSnoc(a + d[..n], d[n], b);
      MineSnoc(d[..n], d[n], b);
    }
  }

  /** A batch of bucket `b` concerns that bucket only. */
  lemma {:induction false} MineOfBatch(hash: Bytes -> nat, keys: seq<Bytes>, values: seq<Bytes>, oks: map<nat, bool>,
                                       order: seq<nat>, b: nat, c: nat)
    requires forall i | i in order && i < |keys| :: HomeOf(hash, keys[i]) == b
    ensures var es := StoredIn(hash, keys, values, oks, order);
            Mine(es, c) == (if c == b then es else []) && HashedBy(es, hash)
  {
    if order == [] {
    } else {
      var n := |order| - 1;
      MineOfBatch(hash, keys, values, oks, order[..n], b, c);
      var i, before := order[n], StoredIn(hash, keys, values, oks, order[..n]);
      assert i in order;
      hide Mine, HomeOf;
      if i < |keys| && i < |values| && i in oks && oks[i] {
        var e := Stored(hash(keys[i]), keys[i], values[i]);
        assert StoredIn(hash, keys, values, oks, order) == before + [e];
        assert e.h % BUCKETS == HomeOf(hash, keys[i]) by {
          HomeIs(hash, keys[i]);
        }
        MineSnoc(before, e, c);
      } else {
        assert StoredIn(hash, keys, values, oks, order) == before;
      }
    }
  }

  lemma HomeIs(hash: Bytes -> nat, k: Bytes)
    ensures HomeOf(hash, k) == hash(k) % BUCKETS
  {
  }

  /** What a call does to the latest value of a key. */
  lemma LatestSnoc(hist: seq<Event>, e: Event, h: nat, k: Bytes)
    ensures LatestSet(hist + [e], h, k)
         == match e
            case Stored(_, key, val) => if key == k then Some(val) else LatestSet(hist, h, k)
            case Deleted(g) => if g == h then None else LatestSet(hist, h, k)
            case Cleared => None
  {
    assert (hist + [e])[..|hist|] == hist;
  }

  /** A call that does not concern the home of a key leaves its latest value alone. */
  lemma Unconcerned(e: Event, hash: Bytes -> nat, k: Bytes)
    requires (e.Stored? ==> e.h == hash(e.key)) && !Concerns(e, HomeOf(hash, k))
    ensures !e.Cleared? && (e.Stored? ==> e.key != k) && (e.Deleted? ==> e.h != hash(k))
  {
  }

  /** For a key, its home bucket has seen all that matters. */
  lemma {:induction false} LatestAtHome(hist: seq<Event>, hash: Bytes -> nat, k: Bytes)
    requires HashedBy(hist, hash)
    ensures LatestSet(Mine(hist, HomeOf(hash, k)), hash(k), k) == LatestSet(hist, hash(k), k)
    ensures HashedBy(Mine(hist, HomeOf(hash, k)), hash)
  {
    if hist == [] {
    } else {
      hide Concerns, HomeOf, LatestSet, Mine;
      var n, b := |hist| - 1, HomeOf(hash, k);
      var before, e := hist[..n], hist[n];
      LatestAtHome(before, hash, k);
      assert hist == before + [e];
      MineSnoc(before, e, b);
      LatestSnoc(before, e, hash(k), k);
      if Concerns(e, b) {
        LatestSnoc(Mine(before, b), e, hash(k), k);
      } else {
        Unconcerned(e, hash, k);
        assert Mine(hist, b) == Mine(before, b);
      }
    }
  }

  class Cache {
    /** xxhash. */
    const hash: Bytes -> nat
    const buckets: seq<Bucket>

    /** The chunks of all buckets. */
    ghost var Mem: set<array<byte>>

    /** The calls on the cache, in an order that every bucket agrees with. */
    ghost var history: seq<Event>

    /** 32 valid buckets that share nothing. */
    ghost predicate Apart()
      reads this, buckets, Mem
    {
      && |buckets| == BUCKETS
      && (forall i | 0 <= i < BUCKETS :: buckets[i].Mem <= Mem && buckets[i].Valid())
      && (forall i, j | 0 <= i < j < BUCKETS :: buckets[i] != buckets[j] && buckets[i].Mem !! buckets[j].Mem)
    }

    /** Every bucket has seen exactly the calls that concern it, and records are stored under the hash of their key. */
    ghost predicate Valid()
      reads this, buckets, Mem
    {
      && Apart()
      && HashedBy(history, hash)
      && (forall i | 0 <= i < BUCKETS :: buckets[i].history == Mine(history, i))
    }

    /** What Get returns for a key. */
    ghost function View(k: Bytes): Option<Bytes>
      requires |buckets| == BUCKETS
      reads buckets
    {
      Lookup(buckets[hash(k) % BUCKETS].ledger, hash(k), k)
    }

    /** Every bucket but number `i` is as it was. */
    twostate predicate Others(i: nat)
      reads buckets
    {
      forall j | 0 <= j < |buckets| && j != i :: Snapshot(buckets[j]) == old(Snapshot(buckets[j]))
    }

    /** No bucket has had a mapping refused. */
    twostate predicate Unrefused()
      reads buckets
    {
      forall j | 0 <= j < |buckets| :: buckets[j].refused == old(buckets[j].refused)
    }

    constructor (hash: Bytes -> nat, buckets: seq<Bucket>, ghost mem: set<array<byte>>)
      requires |buckets| == BUCKETS
      requires forall i | 0 <= i < BUCKETS :: buckets[i].Mem <= mem && buckets[i].Valid() && buckets[i].history == []
      requires forall i, j | 0 <= i < j < BUCKETS :: buckets[i] != buckets[j] && buckets[i].Mem !! buckets[j].Mem
      ensures Valid() && this.hash == hash && this.buckets == buckets && Mem == mem && history == []
    {
      this.hash, this.buckets, Mem, history := hash, buckets, mem, [];
    }

    /** Reset: every bucket is emptied. */
    method Reset()
      requires Valid()
      modifies this`history, buckets
      ensures Valid() && history == old(history) + [Cleared] && Unrefused()
      ensures forall b | 0 <= b < BUCKETS :: buckets[b].ledger.index == map[] && buckets[b].ledger.epoch == 1
    {
      hide Bucket.Valid, Mine, HashedBy;
      var i := 0;
      while i < BUCKETS
        invariant 0 <= i <= BUCKETS
        invariant Apart() && Unrefused() && history == old(history)
        invariant forall b | 0 <= b < i :: buckets[b].ledger.index == map[] && buckets[b].ledger.epoch == 1
        invariant forall b | 0 <= b < BUCKETS ::
                    buckets[b].history == old(buckets[b].history) + if b < i then [Cleared] else []
      {
        buckets[i].Reset();
        i := i + 1;
      }
      Log(Cleared);
    }

    /** Notes a call that every bucket it concerns has already seen. */
    ghost method Log(e: Event)
      requires Apart() && HashedBy(history, hash) && (e.Stored? ==> e.h == hash(e.key))
      requires forall b | 0 <= b < BUCKETS ::
                 buckets[b].history == Mine(history, b) + if Concerns(e, b) then [e] else []
      modifies this`history
      ensures Valid() && history == old(history) + [e]
    {
      hide Bucket.Valid;
      forall b: nat | b < BUCKETS ensures Mine(history + [e], b) == buckets[b].history {
        MineSnoc(history, e, b);
      }
      HashedMore(history, [e], hash);
      history := history + [e];
    }

    /** Set: stores exactly the pairs that fit, unless the key's bucket has a mapping refused. */
    method Set(k: Bytes, v: Bytes) returns (ok: bool)
      requires Valid()
      modifies this, buckets, Mem
      ensures Valid() && fresh(Mem - old(Mem))
      ensures var i := hash(k) % BUCKETS;
              && Others(i) && SetDone(hash(k), k, v, ok, old(Snapshot(buckets[i])), Snapshot(buckets[i]))
              && (!old(buckets[i].NeedsMap(RecordLen(k, v))) ==> buckets[i].refused == old(buckets[i].refused))
              && (ok <==> Fits(k, v) && buckets[i].refused == old(buckets[i].refused))
      ensures history == if ok then old(history) + [Stored(hash(k), k, v)] else old(history)
    {
      hide Bucket.Valid, Store, Fits, Mine, HashedBy, OpensChunk;
      var h := hash(k);
      var idx := h % BUCKETS;
      NonEmpty(idx);
      ok := buckets[idx].Set(k, v, h);
      Mem := Mem + buckets[idx].Mem;
      if ok {
        Log(Stored(h, k, v));
      }
    }

    lemma NonEmpty(i: nat)
      requires Apart() && i < BUCKETS
      ensures |buckets[i].chunks| >= 1
    {
      buckets[i].LedgerIsReplay();
    }

    /** Get. */
    method Get(dst: Bytes, k: Bytes) returns (found: bool, dst': Bytes)
      requires Valid()
      ensures found == View(k).Some?
      ensures dst' == if found then dst + View(k).value else dst
    {
      var h := hash(k);
      found, dst' := buckets[h % BUCKETS].Get(dst, k, h);
    }

    /**
     Never stale, for any run of Set, SetMulti, Del and Reset: a hit of Get is the value of the key's latest successful
     Set, and a pair is found exactly while some Set of it is retained by the key's bucket.
     */
    lemma {:induction false} GetByHistory(k: Bytes, v: Bytes)
      requires Valid()
      ensures View(k) == Some(v) ==> LatestSet(history, hash(k), k) == Some(v)
      ensures var b := buckets[HomeOf(hash, k)];
              (View(k) == Some(v) <==>
                 exists i: nat :: Retained(|b.chunks|, b.history, i) && b.history[i] == Stored(hash(k), k, v))
    {
      hide Bucket.Valid, Mine, HashedBy, LatestSet, Retained;
      LatestAtHome(history, hash, k);
      buckets[HomeOf(hash, k)].GetByHistory(hash, k, v);
    }

    /** Del. */
    method Del(k: Bytes)
      requires Valid()
      modifies this`history, buckets
      ensures Valid() && Mem == old(Mem) && history == old(history) + [Deleted(hash(k))] && Unrefused()
      ensures var i := hash(k) % BUCKETS;
              Others(i) && buckets[i].ledger == Delete(old(buckets[i].ledger), hash(k))
    {
      hide Bucket.Valid, Delete, Mine, HashedBy;
      var h := hash(k);
      buckets[h % BUCKETS].Del(h);
      Log(Deleted(h));
    }

    /** The batches of SetMulti: the keys and values of every bucket, in list order. */
    method Batches(keys: seq<Bytes>, values: seq<Bytes>) returns (bk: seq<seq<Bytes>>, bv: seq<seq<Bytes>>)
      requires |keys| == |values|
      ensures |bk| == |bv| == BUCKETS
      ensures forall b | 0 <= b < BUCKETS :: IsBatch(hash, bk[b], bv[b], keys, values, |keys|, b)
    {
      hide IsBatch;
      bk, bv := seq(BUCKETS, _ => []), seq(BUCKETS, _ => []);
      forall b | 0 <= b < BUCKETS ensures IsBatch(hash, bk[b], bv[b], keys, values, 0, b) {
        BatchStart(hash, keys, values, b);
      }
      var i := 0;
      while i < |keys|
        invariant 0 <= i <= |keys| && |bk| == |bv| == BUCKETS
        invariant forall b | 0 <= b < BUCKETS :: IsBatch(hash, bk[b], bv[b], keys, values, i, b)
      {
        forall c | 0 <= c < BUCKETS
          ensures IsBatch(hash, bk[c] + (if c == HomeOf(hash, keys[i]) then [keys[i]] else []),
                          bv[c] + (if c == HomeOf(hash, keys[i]) then [values[i]] else []), keys, values, i + 1, c)
        {
          BatchNext(hash, bk[c], bv[c], keys, values, i, c);
        }
        var b := hash(keys[i]) % BUCKETS;
        bk := bk[b := bk[b] + [keys[i]]];
        bv := bv[b := bv[b] + [values[i]]];
        forall c | 0 <= c < BUCKETS ensures IsBatch(hash, bk[c], bv[c], keys, values, i + 1, c) {
          if c != b {
            assert bk[c] == bk[c] + [] && bv[c] == bv[c] + [];
          }
        }
        i := i + 1;
      }
    }

    /** The goroutine of bucket `b`. */
    method RunGoroutine(b: nat, ks: seq<Bytes>, vs: seq<Bytes>,
                        ghost keys: seq<Bytes>, ghost values: seq<Bytes>, ghost oks: map<nat, bool>)
        returns (ghost oks': map<nat, bool>)
      requires Valid() && b < BUCKETS && IsBatch(hash, ks, vs, keys, values, |keys|, b)
      requires forall i | i in oks :: i < |keys| && HomeOf(hash, keys[i]) != b
      modifies this, buckets, Mem
      ensures Valid() && fresh(Mem - old(Mem)) && Others(b)
      ensures forall i: nat :: i in oks' <==> i in oks || (i < |keys| && HomeOf(hash, keys[i]) == b)
      ensures forall i | i in oks :: oks'[i] == oks[i]
      ensures Done(hash, keys, values, oks', old(Snapshot(buckets[b])), Snapshot(buckets[b]), b)
    {
      hide Bucket.Valid, RunBucket, StepOf, Fits, Mine, HashedBy, StoredIn, AllFittingStored, OnlyFittingStored;
      BatchFacts(hash, keys, b);
      ghost var order := BatchOf(hash, keys, b);
      oks' := SetBatch(buckets[b], hash, ks, vs, keys, values, order, oks);
      Mem := Mem + buckets[b].Mem;
      LogBatch(StoredIn(hash, keys, values, oks', order), b, keys, values, oks', order);
    }

    /** Notes the stored pairs of a batch. */
    ghost method LogBatch(es: seq<Event>, b: nat, keys: seq<Bytes>, values: seq<Bytes>, oks: map<nat, bool>,
                          order: seq<nat>)
      requires Apart() && HashedBy(history, hash) && es == StoredIn(hash, keys, values, oks, order)
      requires forall i | i in order && i < |keys| :: HomeOf(hash, keys[i]) == b
      requires forall c | 0 <= c < BUCKETS :: buckets[c].history == Mine(history, c) + if c == b then es else []
      modifies this`history
      ensures Valid() && history == old(history) + es
    {
      hide Bucket.Valid, Mine, StoredIn;
      forall c: nat | c < BUCKETS ensures Mine(history + es, c) == buckets[c].history && HashedBy(es, hash) {
        MineOfBatch(hash, keys, values, oks, order, b, c);
        MineAppend(history, es, c);
      }
      assert HashedBy(es, hash) by {
        MineOfBatch(hash, keys, values, oks, order, b, 0);
      }
      HashedMore(history, es, hash);
      history := history + es;
    }

    /**
     SetMulti: every bucket ends as its pairs, set in list order, leave it.  The goroutines run in any order; `oks` says
     which pairs were stored, and those are exactly the pairs that fit unless a bucket has a mapping refused.
     */
    method SetMulti(keys: seq<Bytes>, values: seq<Bytes>) returns (ghost oks: map<nat, bool>)
      requires Valid() && |keys| == |values|
      modifies this, buckets, Mem
      ensures Valid() && fresh(Mem - old(Mem))
      ensures forall i: nat :: i in oks <==> i < |keys|
      ensures forall b: nat | b < BUCKETS ::
                Done(hash, keys, values, oks, old(Snapshots(buckets))[b], Snapshots(buckets)[b], b)
      ensures SameRefusals(old(Snapshots(buckets)), Snapshots(buckets)) ==> oks == Fitting(keys, values)
    {
      hide Bucket.Valid, Done, BatchOf, IsBatch, Progress, Fits, Mine, HashedBy, HomeOf, Fitting, SameRefusals,
        Snapshot;
      ghost var was := Snapshots(buckets);
      var bk, bv := Batches(keys, values);
      var todo := set b: nat | b < BUCKETS && |bk[b]| > 0;
      ProgressAtStart(bk, bv, keys, values, todo, was);
      oks := RunGoroutines(todo, bk, bv, keys, values, was);
      ProgressDone(hash, keys, values, oks, was, Snapshots(buckets));
    }

    /** The goroutines of the buckets `start`, in any order. */
    method RunGoroutines(start: set<nat>, bk: seq<seq<Bytes>>, bv: seq<seq<Bytes>>,
                         ghost keys: seq<Bytes>, ghost values: seq<Bytes>, ghost was: seq<Snap>)
        returns (ghost oks: map<nat, bool>)
      requires Valid() && |bk| == |bv| == BUCKETS && |keys| == |values|
      requires forall b | 0 <= b < BUCKETS :: IsBatch(hash, bk[b], bv[b], keys, values, |keys|, b)
      requires Progress(hash, keys, values, map[], start, was, Snapshots(buckets))
      modifies this, buckets, Mem
      ensures Valid() && fresh(Mem - old(Mem))
      ensures Progress(hash, keys, values, oks, {}, was, Snapshots(buckets))
    {
      hide Bucket.Valid, Done, BatchOf, IsBatch, Progress, Fits, Mine, HashedBy, HomeOf;
      var todo := start;
      oks := map[];
      while todo != {}
        invariant Valid() && fresh(Mem - old(Mem))
        invariant Progress(hash, keys, values, oks, todo, was, Snapshots(buckets))
      {
        var b :| b in todo;
        ghost var oks0, before := oks, Snapshots(buckets);
        ProgressFacts(hash, keys, values, oks, todo, was, before);
        oks := RunGoroutine(b, bk[b], bv[b], keys, values, oks);
        ProgressAfter(hash, keys, values, oks0, oks, todo, b, was, before, Snapshots(buckets));
        todo := todo - {b};
      }
    }

    /** At the start no bucket without a goroutine has any pairs. */
    lemma ProgressAtStart(bk: seq<seq<Bytes>>, bv: seq<seq<Bytes>>, keys: seq<Bytes>, values: seq<Bytes>,
                          todo: set<nat>, was: seq<Snap>)
      requires |bk| == |bv| == BUCKETS == |was|
      requires forall b | 0 <= b < BUCKETS :: IsBatch(hash, bk[b], bv[b], keys, values, |keys|, b)
      requires todo == set b: nat | b < BUCKETS && |bk[b]| > 0
      ensures Progress(hash, keys, values, map[], todo, was, was)
    {
      hide RunBucket, StepOf;
      forall b: nat | b < BUCKETS && b !in todo ensures Done(hash, keys, values, map[], was[b], was[b], b) {
        NothingToDo(hash, keys, values, map[], was[b], b);
      }
      hide Done;
      forall i: nat | i < |keys| ensures HomeOf(hash, keys[i]) in todo {
        BatchFacts(hash, keys, HomeOf(hash, keys[i]));
      }
    }
  }

  lemma HashedMore(a: seq<Event>, d: seq<Event>, hash: Bytes -> nat)
    requires HashedBy(a, hash) && HashedBy(d, hash)
    ensures HashedBy(a + d, hash)
  {
  }

  /** Every bucket outside `todo` has its pairs, every other is still as it was. */
  ghost predicate Progress(hash: Bytes -> nat, keys: seq<Bytes>, values: seq<Bytes>, oks: map<nat, bool>,
                           todo: set<nat>, was: seq<Snap>, now: seq<Snap>) {
    && |was| == |now| == BUCKETS
    && (forall b | b in todo :: b < BUCKETS && now[b] == was[b])
    && (forall b: nat | b < BUCKETS && b !in todo :: Done(hash, keys, values, oks, was[b], now[b], b))
    && (forall i: nat :: i in oks <==> i < |keys| && HomeOf(hash, keys[i]) !in todo)
  }

  lemma ProgressFacts(hash: Bytes -> nat, keys: seq<Bytes>, values: seq<Bytes>, oks: map<nat, bool>,
                      todo: set<nat>, was: seq<Snap>, now: seq<Snap>)
    requires Progress(hash, keys, values, oks, todo, was, now)
    ensures forall i | i in oks :: i < |keys| && HomeOf(hash, keys[i]) !in todo
    ensures forall b | b in todo :: b < BUCKETS
  {
  }

  lemma ProgressDone(hash: Bytes -> nat, keys: seq<Bytes>, values: seq<Bytes>, oks: map<nat, bool>,
                     was: seq<Snap>, now: seq<Snap>)
    requires Progress(hash, keys, values, oks, {}, was, now) && |keys| == |values|
    ensures |was| == |now| == BUCKETS
    ensures forall b: nat | b < BUCKETS :: Done(hash, keys, values, oks, was[b], now[b], b)
    ensures forall i: nat :: i in oks <==> i < |keys|
    ensures SameRefusals(was, now) ==> oks == Fitting(keys, values)
  {
    hide Fits, Done;
    if SameRefusals(was, now) {
      forall i: nat | i < |keys| ensures oks[i] <==> Fits(keys[i], values[i]) {
        var b := HomeOf(hash, keys[i]);
        StoredIffFits(hash, keys, values, oks, was[b], now[b], b, i);
      }
    }
  }

  /** A batch without a refused mapping stores exactly what fits. */
  lemma StoredIffFits(hash: Bytes -> nat, keys: seq<Bytes>, values: seq<Bytes>, oks: map<nat, bool>, was: Snap,
                      now: Snap, b: nat, i: nat)
    requires Done(hash, keys, values, oks, was, now, b) && now.refused == was.refused
    requires i < |keys| == |values| && HomeOf(hash, keys[i]) == b
    ensures i in oks && (oks[i] <==> Fits(keys[i], values[i]))
  {
    hide Fits, RunBucket, StoredIn;
    BatchFacts(hash, keys, b);
  }

  /** What is stored fits, in every batch. */
  lemma DoneStoredFit(hash: Bytes -> nat, keys: seq<Bytes>, values: seq<Bytes>, oks: map<nat, bool>, was: seq<Snap>,
                      now: seq<Snap>)
    requires |was| == |now| == BUCKETS && |keys| == |values|
    requires forall b: nat | b < BUCKETS :: Done(hash, keys, values, oks, was[b], now[b], b)
    ensures StoredFit(keys, values, oks)
  {
    hide Fits, RunBucket, StoredIn, AllFittingStored;
    forall i: nat | i in oks && oks[i] && i < |keys| ensures Fits(keys[i], values[i]) {
      var b := HomeOf(hash, keys[i]);
      BatchFacts(hash, keys, b);
      assert Done(hash, keys, values, oks, was[b], now[b], b);
    }
  }

  /** One goroutine more: the buckets that were done keep their outcome. */
  lemma ProgressAfter(hash: Bytes -> nat, keys: seq<Bytes>, values: seq<Bytes>, oks: map<nat, bool>,
                      oks': map<nat, bool>,
                      todo: set<nat>, b: nat, was: seq<Snap>, now: seq<Snap>, now': seq<Snap>)
    requires Progress(hash, keys, values, oks, todo, was, now) && b in todo && |now'| == BUCKETS
    requires forall i: nat :: i in oks' <==> i in oks || (i < |keys| && HomeOf(hash, keys[i]) == b)
    requires forall i | i in oks :: oks'[i] == oks[i]
    requires forall c | 0 <= c < BUCKETS && c != b :: now'[c] == now[c]
    requires Done(hash, keys, values, oks', now[b], now'[b], b)
    ensures Progress(hash, keys, values, oks', todo - {b}, was, now')
  {
    hide Done;
    forall c: nat | c < BUCKETS && c !in todo ensures Done(hash, keys, values, oks', was[c], now'[c], c) {
      DoneOwn(hash, keys, values, oks, oks', was[c], now[c], c);
    }
  }

  /** No bucket has had a mapping refused in between. */
  ghost predicate SameRefusals(was: seq<Snap>, now: seq<Snap>) {
    |was| == |now| && forall b | 0 <= b < |was| :: now[b].refused == was[b].refused
  }

  ghost function Snapshots(buckets: seq<Bucket>): (r: seq<Snap>)
    reads buckets
    ensures |r| == |buckets| && forall i | 0 <= i < |r| :: r[i] == Snapshot(buckets[i])
  {
    if buckets == [] then [] else Snapshots(buckets[..|buckets| - 1]) + [Snapshot(buckets[|buckets| - 1])]
  }

  ghost function Ledgers(buckets: seq<Bucket>): (r: seq<Ledger>)
    reads buckets
    ensures |r| == |buckets| && forall i | 0 <= i < |r| :: r[i] == buckets[i].ledger
  {
    if buckets == [] then [] else Ledgers(buckets[..|buckets| - 1]) + [buckets[|buckets| - 1].ledger]
  }

  /** The bytes a bucket gets: an even share, or eight chunks if that is less than one. */
  function BucketBytes(maxBytes: nat): (r: nat)
    ensures maxBytes < 32768 ==> r == 8192
    ensures maxBytes >= 32768 ==> 32 * r <= maxBytes < 32 * (r + 1)
    ensures r >= CHUNK
  {
    var share := maxBytes / BUCKETS;
    if share < CHUNK then CHUNK * 8 else share
  }

  /** New for on-demand buckets: refuses a size that is not positive or too big for the index word. */
  method New(hash: Bytes -> nat, maxBytes: int) returns (c: Option<Cache>)
    ensures c.Some? <==> maxBytes > 0 && BucketBytes(maxBytes) < OFFSETS
    ensures c.Some? ==>
              c.value.Valid() && fresh(c.value) && fresh(c.value.buckets) && fresh(c.value.Mem) && c.value.hash == hash
    ensures c.Some? ==> forall b | 0 <= b < BUCKETS ::
                          && c.value.buckets[b].history == [] && c.value.buckets[b].refused == 0
                          && |c.value.buckets[b].chunks| == BucketBytes(maxBytes) / 1024
    ensures c.Some? ==> c.value.history == []
  {
    hide Bucket.Valid;
    if maxBytes <= 0 {
      return None;
    }
    var share := BucketBytes(maxBytes);
    var buckets: seq<Bucket> := [];
    ghost var mem: set<array<byte>> := {};
    while |buckets| < BUCKETS
      invariant |buckets| <= BUCKETS && (|buckets| > 0 ==> share < OFFSETS)
      invariant fresh(buckets) && fresh(mem)
      invariant forall i | 0 <= i < |buckets| :: buckets[i].Mem <= mem && buckets[i].Valid()
                                                 && buckets[i].history == [] && buckets[i].refused == 0
                                                 && |buckets[i].chunks| == share / 1024
      invariant forall i, j | 0 <= i < j < |buckets| :: buckets[i] != buckets[j] && buckets[i].Mem !! buckets[j].Mem
      decreases BUCKETS - |buckets|
    {
      var b := Init(share);
      if b.None? {
        return None;
      }
      buckets := buckets + [b.value];
      mem := mem + b.value.Mem;
    }
    var cache := new Cache(hash, buckets, mem);
    c := Some(cache);
  }

  /** What SetMulti leaves in bucket `b` is what setting all pairs one by one, in list order, leaves there. */
  lemma DoneIsListOrder(hash: Bytes -> nat, keys: seq<Bytes>, values: seq<Bytes>, oks: map<nat, bool>, ls: seq<Ledger>,
                        was: Snap, now: Snap, b: nat)
    requires |ls| == BUCKETS && b < BUCKETS && ls[b] == was.ledger && Done(hash, keys, values, oks, was, now, b)
    ensures forall i | i in ListOrder(|keys|) :: ShardOf(hash, keys)(i) < |ls|
    ensures RunAll(StepOf(hash, keys, values, oks), ShardOf(hash, keys), ls, ListOrder(|keys|))[b] == now.ledger
  {
    BucketSeesItsBatch(StepOf(hash, keys, values, oks), ShardOf(hash, keys), ls, ListOrder(|keys|), b);
  }

  /** What a batch can make visible: a pair of the batch, or what was visible before. */
  lemma {:induction false} BatchIsLossy(hash: Bytes -> nat, keys: seq<Bytes>, values: seq<Bytes>, oks: map<nat, bool>,
                                        l: Ledger, order: seq<nat>, k: Bytes)
    requires Ok(l) && |keys| == |values| && StoredFit(keys, values, oks)
    ensures var l' := RunBucket(StepOf(hash, keys, values, oks), l, order);
            && Ok(l')
            && var r := Lookup(l', hash(k), k);
            r.None? || r == Lookup(l, hash(k), k)
                || (exists i :: 0 <= i < |keys| && keys[i] == k && r == Some(values[i]))
  {
    if order == [] {
    } else {
      var before, i := order[..|order| - 1], order[|order| - 1];
      BatchIsLossy(hash, keys, values, oks, l, before, k);
      var l1 := RunBucket(StepOf(hash, keys, values, oks), l, before);
      if i < |keys| && i in oks && oks[i] {
        StoreOk(l1, hash(keys[i]), keys[i], values[i]);
        StoreIsLossy(l1, hash, keys[i], values[i], k);
      }
    }
  }

  lemma StoreIsLossy(l: Ledger, hash: Bytes -> nat, k: Bytes, v: Bytes, k': Bytes)
    requires Ok(l) && Fits(k, v)
    ensures var r := Lookup(Store(l, hash(k), k, v), hash(k'), k');
            r.None? || r == Lookup(l, hash(k'), k') || (k' == k && r == Some(v))
  {
    var h' := hash(k');
    if h' in l.index && h' != hash(k) && Readable(Store(l, hash(k), k, v), l.index[h']) {
      assert EntryOk(l, l.index[h']);
      StoreOnlyExpires(l, hash(k), k, v, l.index[h']);
    }
  }
}
