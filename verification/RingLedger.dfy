/**
 The specification of one ring-buffer cache bucket.

 A `Ledger` keeps, for every hash, the last record stored under it, with the generation
 (`epoch`, counted without bound) and the byte position it was written at, and the write
 cursor.  There are no bytes, no 24-bit tags and no map cleaning here: those belong to the
 bucket, which is proved to agree with its ledger.  The theorems at the end speak of the
 history of calls only.
 */
module RingLedger {
  import opened Prelude

  const CHUNK: nat := 1024
  const MAX_FIELD: nat := 2048

  datatype Entry = Entry(key: Bytes, val: Bytes, epoch: nat, pos: nat)

  datatype Ledger = Ledger(slots: nat, index: map<nat, Entry>, epoch: nat, cursor: nat)

  datatype Spot = Spot(epoch: nat, pos: nat)

  function RecordLen(k: Bytes, v: Bytes): nat {
    4 + |k| + |v|
  }

  /** Set refuses a pair that is too long for its two length fields or for one chunk. */
  predicate Fits(k: Bytes, v: Bytes) {
    |k| < MAX_FIELD && |v| < MAX_FIELD && RecordLen(k, v) < CHUNK
  }

  /** Where a record of `n` bytes goes: never across a chunk boundary, and back to 0 after the last chunk. */
  function NextSpot(l: Ledger, n: nat): Spot {
    var here := l.cursor / CHUNK;
    var there := (l.cursor + n) / CHUNK;
    if there <= here then Spot(l.epoch, l.cursor)
    else if there >= l.slots then Spot(l.epoch + 1, 0)
    else Spot(l.epoch, there * CHUNK)
  }

  /** Does a record of `n` bytes go to a chunk that nothing has been written to since the last Reset? */
  predicate OpensChunk(l: Ledger, n: nat) {
    var s := NextSpot(l, n);
    s.epoch == 1 && (l.cursor == 0 || s.pos / CHUNK > l.cursor / CHUNK)
  }

  function Empty(slots: nat): Ledger {
    Ledger(slots, map[], 1, 0)
  }

  function Store(l: Ledger, h: nat, k: Bytes, v: Bytes): Ledger {
    var n := RecordLen(k, v);
    var s := NextSpot(l, n);
    Ledger(l.slots, l.index[h := Entry(k, v, s.epoch, s.pos)], s.epoch, s.pos + n)
  }

  function Delete(l: Ledger, h: nat): Ledger {
    l.(index := l.index - {h})
  }

  /** Written in this generation, or in the one before at or past the cursor. */
  predicate Readable(l: Ledger, e: Entry) {
    e.epoch == l.epoch || (e.epoch + 1 == l.epoch && e.pos >= l.cursor)
  }

  function Lookup(l: Ledger, h: nat, k: Bytes): Option<Bytes> {
    if h in l.index && Readable(l, l.index[h]) && l.index[h].key == k then Some(l.index[h].val) else None
  }

  ghost predicate EntryOk(l: Ledger, e: Entry) {
    && Fits(e.key, e.val)
    && 1 <= e.epoch <= l.epoch
    && e.pos < l.slots * CHUNK
    && e.pos % CHUNK + RecordLen(e.key, e.val) < CHUNK
    && (e.epoch == l.epoch ==> e.pos + RecordLen(e.key, e.val) <= l.cursor)
  }

  ghost predicate Ok(l: Ledger) {
    && 1 <= l.slots
    && 1 <= l.epoch
    && l.cursor < l.slots * CHUNK
    && (forall h | h in l.index :: EntryOk(l, l.index[h]))
  }

  /** The spot lies inside one chunk of the ring, at or past the cursor unless the ring wrapped. */
  lemma SpotInRing(l: Ledger, n: nat)
    requires Ok(l) && 1 <= n < CHUNK
    ensures var s := NextSpot(l, n);
            && s.pos % CHUNK + n < CHUNK
            && s.pos + n < l.slots * CHUNK
            && s.pos / CHUNK < l.slots
            && (s.epoch == l.epoch ==> s.pos >= l.cursor)
            && (s.epoch != l.epoch ==> s == Spot(l.epoch + 1, 0) && l.cursor > 0
                                       && l.cursor / CHUNK == l.slots - 1)
            && (s.epoch == l.epoch && s.pos != l.cursor ==>
                  s.pos == (l.cursor / CHUNK + 1) * CHUNK && l.cursor > 0)
  {
    var here, there := l.cursor / CHUNK, (l.cursor + n) / CHUNK;
    assert here <= there <= here + 1;
    var s := NextSpot(l, n);
    if s.epoch == l.epoch {
      assert s.pos % CHUNK + n < CHUNK;
      assert s.pos / CHUNK == there;
    }
  }

  /** Set refuses exactly the pairs of 1020 bytes or more: with its four length bytes a record ends inside a chunk. */
  lemma FitsExactly(k: Bytes, v: Bytes)
    ensures Fits(k, v) <==> |k| + |v| <= 1019
  {
  }

  /**
   Where a record goes, exactly: to the cursor if it ends before the end of the chunk, else to the start of the next
   chunk, and from the last chunk to the start of the ring in the next generation.
   */
  lemma SpotExact(l: Ledger, n: nat)
    requires Ok(l) && 1 <= n < 1024
    ensures l.cursor % 1024 + n < 1024 ==> NextSpot(l, n) == Spot(l.epoch, l.cursor)
    ensures l.cursor % 1024 + n >= 1024 && l.cursor / 1024 + 1 < l.slots ==>
              NextSpot(l, n) == Spot(l.epoch, (l.cursor / 1024 + 1) * 1024)
    ensures l.cursor % 1024 + n >= 1024 && l.cursor / 1024 + 1 >= l.slots ==> NextSpot(l, n) == Spot(l.epoch + 1, 0)
  {
    var c, r := l.cursor / 1024, l.cursor % 1024;
    assert l.cursor == c * 1024 + r;
    if r + n < 1024 {
      assert (l.cursor + n) / 1024 == c;
    } else {
      assert (l.cursor + n) / 1024 == c + 1;
    }
  }

  lemma StoreOk(l: Ledger, h: nat, k: Bytes, v: Bytes)
    requires Ok(l) && Fits(k, v)
    ensures Ok(Store(l, h, k, v))
  {
    SpotInRing(l, RecordLen(k, v));
    var l' := Store(l, h, k, v);
    forall g | g in l'.index ensures EntryOk(l', l'.index[g]) {
      if g != h {
        assert EntryOk(l, l.index[g]);
      }
    }
  }

  /** A store never makes an unreadable record readable. */
  lemma StoreOnlyExpires(l: Ledger, h: nat, k: Bytes, v: Bytes, e: Entry)
    requires Ok(l) && Fits(k, v) && EntryOk(l, e)
    requires Readable(Store(l, h, k, v), e)
    ensures Readable(l, e)
  {
    SpotInRing(l, RecordLen(k, v));
  }

  // ---------------------------------------------------------------- histories

  /** The calls that change a bucket: a Set that succeeded, a Del, a Reset. */
  datatype Event = Stored(h: nat, key: Bytes, val: Bytes) | Deleted(h: nat) | Cleared

  ghost predicate HistoryOk(hist: seq<Event>) {
    forall i | 0 <= i < |hist| && hist[i].Stored? :: Fits(hist[i].key, hist[i].val)
  }

  function Apply(l: Ledger, e: Event): Ledger {
    match e
    case Stored(h, k, v) => Store(l, h, k, v)
    case Deleted(h) => Delete(l, h)
    case Cleared => Empty(l.slots)
  }

  function Replay(slots: nat, hist: seq<Event>): Ledger {
    if hist == [] then Empty(slots)
    else Apply(Replay(slots, hist[..|hist| - 1]), hist[|hist| - 1])
  }

  lemma {:induction false} ReplayOk(slots: nat, hist: seq<Event>)
    requires 1 <= slots && HistoryOk(hist)
    ensures Ok(Replay(slots, hist)) && Replay(slots, hist).slots == slots
  {
    if hist == [] {
    } else {
      var before := hist[..|hist| - 1];
      ReplayOk(slots, before);
      match hist[|hist| - 1]
      case Stored(h, k, v) => StoreOk(Replay(slots, before), h, k, v);
      case Deleted(h) =>
        var l := Replay(slots, before);
        forall g | g in Delete(l, h).index ensures EntryOk(Delete(l, h), Delete(l, h).index[g]) {
          assert EntryOk(l, l.index[g]);
        }
      case Cleared =>
    }
  }

  /** The value of the last Set of `k` with no later Del of its hash and no later Reset. */
  function LatestSet(hist: seq<Event>, h: nat, k: Bytes): Option<Bytes> {
    if hist == [] then None
    else
      var last := hist[|hist| - 1];
      match last
      case Stored(g, key, val) =>
        if key == k then Some(val) else LatestSet(hist[..|hist| - 1], h, k)
      case Deleted(g) => if g == h then None else LatestSet(hist[..|hist| - 1], h, k)
      case Cleared => None
  }

  /** Every record was stored under the hash of its key. */
  ghost predicate HashedBy(hist: seq<Event>, hash: Bytes -> nat) {
    forall i | 0 <= i < |hist| && hist[i].Stored? :: hist[i].h == hash(hist[i].key)
  }

  /** Never stale, for any hash function, collisions included: a hit returns the value of the latest Set. */
  lemma {:induction false} HitIsLatest(slots: nat, hist: seq<Event>, hash: Bytes -> nat, k: Bytes)
    requires 1 <= slots && HistoryOk(hist) && HashedBy(hist, hash)
    ensures var r := Lookup(Replay(slots, hist), hash(k), k);
            r.Some? ==> r == LatestSet(hist, hash(k), k)
  {
    if hist == [] {
    } else {
      var before, last := hist[..|hist| - 1], hist[|hist| - 1];
      HitIsLatest(slots, before, hash, k);
      ReplayOk(slots, before);
      var l := Replay(slots, before);
      match last
      case Stored(h, key, val) =>
        if hash(k) in l.index && hash(k) != h && Readable(Store(l, h, key, val), l.index[hash(k)]) {
          StoreOnlyExpires(l, h, key, val, l.index[hash(k)]);
        }
      case Deleted(h) =>
      case Cleared =>
    }
  }

  /** Does `e` end the life of every record stored under `h`? */
  predicate Touches(e: Event, h: nat) {
    match e
    case Stored(g, _, _) => g == h
    case Deleted(g) => g == h
    case Cleared => true
  }

  /** Where event `i` wrote its record. */
  function SpotOf(slots: nat, hist: seq<Event>, i: nat): Spot
    requires i < |hist| && hist[i].Stored?
  {
    NextSpot(Replay(slots, hist[..i]), RecordLen(hist[i].key, hist[i].val))
  }

  /** The cursor has not passed `s` in the generation after the one `s` belongs to. */
  predicate NotOverrun(l: Ledger, s: Spot) {
    l.epoch == s.epoch || (l.epoch == s.epoch + 1 && l.cursor <= s.pos)
  }

  /** The record of Set `i` is still there: no later Set or Del of its hash, no Reset, cursor not past it. */
  ghost predicate Retained(slots: nat, hist: seq<Event>, i: nat) {
    && i < |hist| && hist[i].Stored?
    && (forall j | i < j < |hist| :: !Touches(hist[j], hist[i].h))
    && NotOverrun(Replay(slots, hist), SpotOf(slots, hist, i))
  }

  /** The index entry of `h` is the record of the last event that touched `h`, at that event's spot. */
  lemma {:induction false} IndexIsLastTouch(slots: nat, hist: seq<Event>, h: nat) returns (i: nat)
    requires 1 <= slots && HistoryOk(hist) && h in Replay(slots, hist).index
    ensures i < |hist| && hist[i].Stored? && hist[i].h == h
    ensures forall j | i < j < |hist| :: !Touches(hist[j], h)
    ensures var s := SpotOf(slots, hist, i);
            Replay(slots, hist).index[h] == Entry(hist[i].key, hist[i].val, s.epoch, s.pos)
  {
    var before, last := hist[..|hist| - 1], hist[|hist| - 1];
    if last.Stored? && last.h == h {
      i := |hist| - 1;
    } else {
      i := IndexIsLastTouch(slots, before, h);
      assert before[..i] == hist[..i];
      forall j | i < j < |hist| ensures !Touches(hist[j], h) {
        if j < |before| {
          assert hist[j] == before[j];
        }
      }
    }
  }

  /** An untouched record stays in the index. */
  lemma {:induction false} UntouchedStaysIndexed(slots: nat, hist: seq<Event>, i: nat)
    requires 1 <= slots && i < |hist| && hist[i].Stored?
    requires forall j | i < j < |hist| :: !Touches(hist[j], hist[i].h)
    ensures hist[i].h in Replay(slots, hist).index
  {
    var before := hist[..|hist| - 1];
    if i == |before| {
    } else {
      assert forall j | i < j < |before| :: before[j] == hist[j];
      UntouchedStaysIndexed(slots, before, i);
      assert !Touches(hist[|hist| - 1], hist[i].h);
    }
  }

  /** Retention is exact: `k` is found with `v` if and only if some Set of exactly that pair is still retained. */
  lemma {:induction false} FoundIffRetained(slots: nat, hist: seq<Event>, h: nat, k: Bytes, v: Bytes)
    requires 1 <= slots && HistoryOk(hist)
    ensures Lookup(Replay(slots, hist), h, k) == Some(v)
       <==> exists i: nat :: Retained(slots, hist, i) && hist[i] == Stored(h, k, v)
  {
    var l := Replay(slots, hist);
    ReplayOk(slots, hist);
    if h in l.index {
      var last := IndexIsLastTouch(slots, hist, h);
      if Lookup(l, h, k) == Some(v) {
        assert Retained(slots, hist, last) && hist[last] == Stored(h, k, v);
      }
      forall i: nat | Retained(slots, hist, i) && hist[i] == Stored(h, k, v) ensures i == last {
        if i < last {
          assert Touches(hist[last], h);
        } else if last < i {
          assert Touches(hist[i], h);
        }
      }
    } else {
      forall i: nat | Retained(slots, hist, i) && hist[i] == Stored(h, k, v) ensures false {
        UntouchedStaysIndexed(slots, hist, i);
      }
    }
  }

  /** Without a Reset the cursor only moves forward, generation by generation. */
  lemma CursorAdvances(slots: nat, hist: seq<Event>, e: Event)
    requires 1 <= slots && HistoryOk(hist + [e]) && !e.Cleared?
    ensures var a, b := Replay(slots, hist), Replay(slots, hist + [e]);
            a.epoch < b.epoch || (a.epoch == b.epoch && a.cursor <= b.cursor)
  {
    assert (hist + [e])[..|hist|] == hist;
    assert HistoryOk(hist) by {
      forall i | 0 <= i < |hist| && hist[i].Stored? ensures Fits(hist[i].key, hist[i].val) {
        assert (hist + [e])[i] == hist[i];
      }
    }
    ReplayOk(slots, hist);
    if e.Stored? {
      assert (hist + [e])[|hist|] == e;
      SpotInRing(Replay(slots, hist), RecordLen(e.key, e.val));
    }
  }

  /** Once a record is gone it is never found again: retention after one more call implies retention before it. */
  lemma GoneStaysGone(slots: nat, hist: seq<Event>, e: Event, i: nat)
    requires 1 <= slots && HistoryOk(hist + [e]) && i < |hist|
    requires Retained(slots, hist + [e], i)
    ensures Retained(slots, hist, i)
  {
    var more := hist + [e];
    assert more[i] == hist[i] && more[..i] == hist[..i] && more[..|hist|] == hist && more[|hist|] == e;
    assert !Touches(more[|hist|], more[i].h);
    forall j | i < j < |hist| ensures !Touches(hist[j], hist[i].h) {
      assert more[j] == hist[j];
    }
    CursorAdvances(slots, hist, e);
    EpochBound(slots, hist, i);
  }

  /** A record's generation is never ahead of the cursor's while no Reset intervenes. */
  lemma {:induction false} EpochBound(slots: nat, hist: seq<Event>, i: nat)
    requires 1 <= slots && HistoryOk(hist) && i < |hist| && hist[i].Stored?
    requires forall j | i < j < |hist| :: !Touches(hist[j], hist[i].h)
    ensures SpotOf(slots, hist, i).epoch <= Replay(slots, hist).epoch
  {
    UntouchedStaysIndexed(slots, hist, i);
    var last := IndexIsLastTouch(slots, hist, hist[i].h);
    if i < last {
      assert Touches(hist[last], hist[i].h);
    } else if last < i {
      assert Touches(hist[i], hist[i].h);
    }
    ReplayOk(slots, hist);
    assert EntryOk(Replay(slots, hist), Replay(slots, hist).index[hist[i].h]);
  }
}
