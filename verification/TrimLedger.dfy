/**
 The specification of a trim-and-shift bucket: an append-only log of records at absolute byte
 positions, of which everything from `floor` on is readable.  Shifting chunks down and
 rebasing offsets, which is what the bucket does, is invisible here: a trim only raises the floor.
 */
module TrimLedger {
  import opened Prelude
  import opened RingLedger

  datatype Item = Item(key: Bytes, val: Bytes, pos: nat)

  /** `remove` is the number of chunks one trim drops. */
  datatype Shelf = Shelf(slots: nat, remove: nat, index: map<nat, Item>, floor: nat, end: nat)

  /** The end of the log if the record fits the chunk there, else the next chunk. */
  function PutPos(l: Shelf, n: nat): nat {
    if (l.end + n) / CHUNK <= l.end / CHUNK then l.end else (l.end / CHUNK + 1) * CHUNK
  }

  /** The floor rises by whole chunks when the log would run past the ring. */
  function PutFloor(l: Shelf, n: nat): nat {
    if PutPos(l, n) >= l.floor + l.slots * CHUNK then l.floor + l.remove * CHUNK else l.floor
  }

  function NewShelf(slots: nat, remove: nat): Shelf {
    Shelf(slots, remove, map[], 0, 0)
  }

  function Put(l: Shelf, h: nat, k: Bytes, v: Bytes): Shelf {
    var n := RecordLen(k, v);
    Shelf(l.slots, l.remove, l.index[h := Item(k, v, PutPos(l, n))], PutFloor(l, n), PutPos(l, n) + n)
  }

  function Find(l: Shelf, h: nat, k: Bytes): Option<Bytes> {
    if h in l.index && l.index[h].pos >= l.floor && l.index[h].key == k then Some(l.index[h].val) else None
  }

  ghost predicate ItemOk(l: Shelf, e: Item) {
    Fits(e.key, e.val) && e.pos % CHUNK + RecordLen(e.key, e.val) < CHUNK && e.pos + RecordLen(e.key, e.val) <= l.end
  }

  ghost predicate ShelfOk(l: Shelf) {
    && 1 <= l.remove <= l.slots
    && l.floor % CHUNK == 0
    && l.floor <= l.end < l.floor + l.slots * CHUNK
    && (forall h | h in l.index :: ItemOk(l, l.index[h]))
  }

  /** The record lies in one chunk, past everything written so far, and inside the ring after the trim. */
  lemma PutInRing(l: Shelf, n: nat)
    requires ShelfOk(l) && 1 <= n < CHUNK
    ensures var p, f := PutPos(l, n), PutFloor(l, n);
            && l.end <= p && p % CHUNK + n < CHUNK
            && f % CHUNK == 0 && l.floor <= f <= p && p + n < f + l.slots * CHUNK
            && (f != l.floor ==> p == l.floor + l.slots * CHUNK)
            && (p == l.end || p == (l.end / CHUNK + 1) * CHUNK)
  {
    var p := PutPos(l, n);
    if p != l.end {
      assert (l.end + n) / CHUNK == l.end / CHUNK + 1;
      assert p % CHUNK == 0;
      var q := l.floor / CHUNK;
      assert l.floor == q * CHUNK;
      assert l.end / CHUNK < q + l.slots;
      if p >= l.floor + l.slots * CHUNK {
        assert p == l.floor + l.slots * CHUNK;
        assert (l.floor + l.remove * CHUNK) % CHUNK == 0;
      } else {
        assert p / CHUNK < q + l.slots;
      }
    } else {
      assert p % CHUNK + n < CHUNK;
      assert (p + n) / CHUNK == p / CHUNK;
      var q := l.floor / CHUNK;
      assert l.floor == q * CHUNK;
    }
  }

  /** Where a record goes, exactly: to the end of the log if it fits the chunk there, else to the next chunk. */
  lemma PutExact(l: Shelf, n: nat)
    requires ShelfOk(l) && 1 <= n < 1024
    ensures l.end % 1024 + n < 1024 ==> PutPos(l, n) == l.end
    ensures l.end % 1024 + n >= 1024 ==> PutPos(l, n) == (l.end / 1024 + 1) * 1024
    ensures PutFloor(l, n)
         == if PutPos(l, n) == l.floor + l.slots * 1024 then l.floor + l.remove * 1024 else l.floor
  {
    var c, r := l.end / 1024, l.end % 1024;
    assert l.end == c * 1024 + r;
    if r + n < 1024 {
      assert (l.end + n) / 1024 == c;
    } else {
      assert (l.end + n) / 1024 == c + 1;
    }
    PutInRing(l, n);
  }

  lemma PutOk(l: Shelf, h: nat, k: Bytes, v: Bytes)
    requires ShelfOk(l) && Fits(k, v)
    ensures ShelfOk(Put(l, h, k, v))
  {
    PutInRing(l, RecordLen(k, v));
    var l' := Put(l, h, k, v);
    forall g | g in l'.index ensures ItemOk(l', l'.index[g]) {
      if g != h {
        assert ItemOk(l, l.index[g]);
      }
    }
  }

  function ApplyTo(l: Shelf, e: Event): Shelf {
    match e
    case Stored(h, k, v) => Put(l, h, k, v)
    case Deleted(h) => l.(index := l.index - {h})
    case Cleared => NewShelf(l.slots, l.remove)
  }

  function Rerun(slots: nat, remove: nat, hist: seq<Event>): Shelf {
    if hist == [] then NewShelf(slots, remove)
    else ApplyTo(Rerun(slots, remove, hist[..|hist| - 1]), hist[|hist| - 1])
  }

  lemma DropOk(l: Shelf, h: nat)
    requires ShelfOk(l)
    ensures ShelfOk(l.(index := l.index - {h}))
  {
    var l' := l.(index := l.index - {h});
    forall g | g in l'.index ensures ItemOk(l', l'.index[g]) {
      assert ItemOk(l, l.index[g]);
    }
  }

  lemma {:induction false} RerunOk(slots: nat, remove: nat, hist: seq<Event>)
    requires 1 <= remove <= slots && HistoryOk(hist)
    ensures var l := Rerun(slots, remove, hist);
            ShelfOk(l) && l.slots == slots && l.remove == remove
  {
    if hist == [] {
    } else {
      var before := hist[..|hist| - 1];
      RerunOk(slots, remove, before);
      var l := Rerun(slots, remove, before);
      match hist[|hist| - 1]
      case Stored(h, k, v) => PutOk(l, h, k, v);
      case Deleted(h) => DropOk(l, h);
      case Cleared =>
    }
  }

  /** Never stale over any run, trims included. */
  lemma {:induction false} FoundIsLatest(slots: nat, remove: nat, hist: seq<Event>, hash: Bytes -> nat, k: Bytes)
    requires 1 <= remove <= slots && HistoryOk(hist) && HashedBy(hist, hash)
    ensures var r := Find(Rerun(slots, remove, hist), hash(k), k);
            r.Some? ==> r == LatestSet(hist, hash(k), k)
  {
    if hist == [] {
    } else {
      var before := hist[..|hist| - 1];
      FoundIsLatest(slots, remove, before, hash, k);
      RerunOk(slots, remove, before);
      if hist[|hist| - 1].Stored? {
        PutInRing(Rerun(slots, remove, before), RecordLen(hist[|hist| - 1].key, hist[|hist| - 1].val));
      }
    }
  }

  /** A store drops exactly the other records below the new floor, and nothing at all unless it trims. */
  lemma TrimDropsExactly(l: Shelf, h: nat, k: Bytes, v: Bytes, g: nat, key: Bytes)
    requires ShelfOk(l) && Fits(k, v) && g != h
    ensures var l' := Put(l, h, k, v);
            Find(l', g, key) == if g in l.index && l.index[g].pos < l'.floor then None else Find(l, g, key)
    ensures Put(l, h, k, v).floor == l.floor || Put(l, h, k, v).floor == l.floor + l.remove * CHUNK
  {
    PutInRing(l, RecordLen(k, v));
  }

  /** Where event `i` put its record. */
  function PosOf(slots: nat, remove: nat, hist: seq<Event>, i: nat): nat
    requires i < |hist| && hist[i].Stored?
  {
    PutPos(Rerun(slots, remove, hist[..i]), RecordLen(hist[i].key, hist[i].val))
  }

  /** The record of Set `i` is still there: no later Set or Del of its hash, no Reset, and no trim has passed it. */
  ghost predicate StillThere(slots: nat, remove: nat, hist: seq<Event>, i: nat) {
    && i < |hist| && hist[i].Stored?
    && (forall j | i < j < |hist| :: !Touches(hist[j], hist[i].h))
    && PosOf(slots, remove, hist, i) >= Rerun(slots, remove, hist).floor
  }

  /** The index entry of `h` is the record of the last event that touched `h`. */
  lemma {:induction false} ItemIsLastTouch(slots: nat, remove: nat, hist: seq<Event>, h: nat) returns (i: nat)
    requires h in Rerun(slots, remove, hist).index
    ensures i < |hist| && hist[i].Stored? && hist[i].h == h
    ensures forall j | i < j < |hist| :: !Touches(hist[j], h)
    ensures Rerun(slots, remove, hist).index[h] == Item(hist[i].key, hist[i].val, PosOf(slots, remove, hist, i))
  {
    var before, last := hist[..|hist| - 1], hist[|hist| - 1];
    if last.Stored? && last.h == h {
      i := |hist| - 1;
    } else {
      i := ItemIsLastTouch(slots, remove, before, h);
      assert before[..i] == hist[..i];
      forall j | i < j < |hist| ensures !Touches(hist[j], h) {
        if j < |before| {
          assert hist[j] == before[j];
        }
      }
    }
  }

  /** An untouched record stays in the index. */
  lemma {:induction false} UntouchedStaysShelved(slots: nat, remove: nat, hist: seq<Event>, i: nat)
    requires i < |hist| && hist[i].Stored?
    requires forall j | i < j < |hist| :: !Touches(hist[j], hist[i].h)
    ensures hist[i].h in Rerun(slots, remove, hist).index
  {
    var before := hist[..|hist| - 1];
    if i == |before| {
    } else {
      assert forall j | i < j < |before| :: before[j] == hist[j];
      UntouchedStaysShelved(slots, remove, before, i);
      assert !Touches(hist[|hist| - 1], hist[i].h);
    }
  }

  /** Retention is exact: `k` is found with `v` if and only if some Set of exactly that pair is still there. */
  lemma {:induction false} FoundIffStillThere(slots: nat, remove: nat, hist: seq<Event>, h: nat, k: Bytes, v: Bytes)
    ensures Find(Rerun(slots, remove, hist), h, k) == Some(v)
       <==> exists i: nat :: StillThere(slots, remove, hist, i) && hist[i] == Stored(h, k, v)
  {
    var l := Rerun(slots, remove, hist);
    hide Rerun;
    if h in l.index {
      var last := ItemIsLastTouch(slots, remove, hist, h);
      if Find(l, h, k) == Some(v) {
        assert StillThere(slots, remove, hist, last) && hist[last] == Stored(h, k, v);
      }
      forall i: nat | StillThere(slots, remove, hist, i) && hist[i] == Stored(h, k, v) ensures i == last {
        assert Touches(hist[last], h) && Touches(hist[i], h);
      }
    } else {
      forall i: nat | StillThere(slots, remove, hist, i) && hist[i] == Stored(h, k, v) ensures false {
        UntouchedStaysShelved(slots, remove, hist, i);
      }
    }
  }
}
