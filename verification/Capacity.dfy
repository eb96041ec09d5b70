/**
 What a bucket is sure to hold, stated without where it writes: a value stays until later Sets have brought as many
 bytes as the ring has room for.
 */
module Capacity {
  import opened Prelude
  import opened RingLedger
  import opened TrimLedger

  /** The bytes that the Sets of a history write, with their length fields. */
  function Volume(hist: seq<Event>): nat {
    if hist == [] then 0
    else
      var e := hist[|hist| - 1];
      Volume(hist[..|hist| - 1]) + if e.Stored? then 4 + |e.key| + |e.val| else 0
  }

  /** Every record is at most `m` bytes long. */
  ghost predicate Small(hist: seq<Event>, m: nat) {
    forall i | 0 <= i < |hist| && hist[i].Stored? :: 4 + |hist[i].key| + |hist[i].val| <= m
  }

  lemma VolumeSnoc(hist: seq<Event>, e: Event)
    ensures Volume(hist + [e]) == Volume(hist) + if e.Stored? then 4 + |e.key| + |e.val| else 0
  {
    assert (hist + [e])[..|hist|] == hist;
  }

  lemma ProductGrows(a: nat, b: nat, c: nat)
    requires a <= b
    ensures a * c <= b * c
  {
    assert b * c == a * c + (b - a) * c;
  }

  // ---------------------------------------------------------------- the ring

  /** How many chunks the cursor is ahead of a record, counted over generations. */
  function Ahead(l: Ledger, s: Spot): int {
    (l.epoch - s.epoch) * l.slots + l.cursor / CHUNK - s.pos / CHUNK
  }

  /** Every chunk that has been left since then holds at least `CHUNK - m` of the `used` bytes written since. */
  ghost predicate Spaced(l: Ledger, s: Spot, used: nat, m: nat) {
    && l.epoch >= s.epoch && Ahead(l, s) >= 0
    && (Ahead(l, s) >= 1 ==> l.cursor % CHUNK > 0 && used >= (Ahead(l, s) - 1) * (CHUNK - m) + l.cursor % CHUNK)
  }

  lemma SpacedAfterStore(l: Ledger, s: Spot, used: nat, m: nat, h: nat, k: Bytes, v: Bytes)
    requires Ok(l) && Fits(k, v) && RecordLen(k, v) <= m < CHUNK && Spaced(l, s, used, m)
    ensures Spaced(Store(l, h, k, v), s, used + RecordLen(k, v), m)
  {
    var n := RecordLen(k, v);
    var l', d := Store(l, h, k, v), Ahead(l, s);
    SpotExact(l, n);
    SpotInRing(l, n);
    hide NextSpot, Fits;
    var p := NextSpot(l, n).pos;
    assert l'.cursor / CHUNK == p / CHUNK && l'.cursor % CHUNK == p % CHUNK + n;
    if l.cursor % CHUNK + n < CHUNK {
      assert Ahead(l', s) == d;
    } else {
      assert p % CHUNK == 0;
      StepAhead(l, l', s);
      if d >= 1 {
        assert d * (CHUNK - m) == (d - 1) * (CHUNK - m) + (CHUNK - m);
      }
    }
  }

  /** Leaving a chunk is one chunk further, also across the end of the ring. */
  lemma StepAhead(l: Ledger, l': Ledger, s: Spot)
    requires l'.slots == l.slots
    requires (l'.epoch == l.epoch && l'.cursor / CHUNK == l.cursor / CHUNK + 1)
          || (l'.epoch == l.epoch + 1 && l'.cursor / CHUNK == 0 && l.cursor / CHUNK == l.slots - 1)
    ensures Ahead(l', s) == Ahead(l, s) + 1
  {
    if l'.epoch == l.epoch + 1 {
      assert (l'.epoch - s.epoch) * l.slots == (l.epoch - s.epoch) * l.slots + l.slots;
    }
  }

  lemma SpacedAtFirst(l: Ledger, h: nat, k: Bytes, v: Bytes, m: nat)
    requires Ok(l) && Fits(k, v)
    ensures Spaced(Store(l, h, k, v), NextSpot(l, RecordLen(k, v)), 0, m)
  {
    var n := RecordLen(k, v);
    SpotInRing(l, n);
    var p := NextSpot(l, n).pos;
    assert (p + n) / CHUNK == p / CHUNK;
  }

  /** What is known of the calls after `i` when the last of them is taken away. */
  lemma LaterPart(hist: seq<Event>, i: nat, m: nat)
    requires i < |hist| - 1 && Small(hist[i + 1..], m)
    requires hist[i].Stored? && forall j | i < j < |hist| :: !Touches(hist[j], hist[i].h)
    ensures var n := |hist| - 1;
            var before, e := hist[..n], hist[n];
            && before[i] == hist[i] && before[..i] == hist[..i] && Small(before[i + 1..], m)
            && (forall j | i < j < n :: !Touches(before[j], hist[i].h)) && !Touches(e, hist[i].h)
            && Volume(hist[i + 1..]) == Volume(before[i + 1..]) + (if e.Stored? then 4 + |e.key| + |e.val| else 0)
            && (e.Stored? ==> 4 + |e.key| + |e.val| <= m)
  {
    hide Volume;
    var n := |hist| - 1;
    var before, e := hist[..n], hist[n];
    assert before[i + 1..] == hist[i + 1..][..n - i - 1] && hist[i + 1..] == before[i + 1..] + [e];
    assert hist[i + 1..][n - i - 1] == e;
    VolumeSnoc(before[i + 1..], e);
  }

  lemma {:induction false} SpacedThroughout(slots: nat, hist: seq<Event>, i: nat, m: nat)
    requires 1 <= slots && HistoryOk(hist) && i < |hist| && hist[i].Stored? && m < CHUNK && Small(hist[i + 1..], m)
    requires forall j | i < j < |hist| :: !Touches(hist[j], hist[i].h)
    ensures Spaced(Replay(slots, hist), SpotOf(slots, hist, i), Volume(hist[i + 1..]), m)
  {
    var n := |hist| - 1;
    ReplayOk(slots, hist[..n]);
    if i == n {
      SpacedAtFirst(Replay(slots, hist[..n]), hist[i].h, hist[i].key, hist[i].val, m);
    } else {
      var before, e := hist[..n], hist[n];
      LaterPart(hist, i, m);
      SpacedThroughout(slots, before, i, m);
      hide NextSpot, Spaced, Fits;
      if e.Stored? {
        SpacedAfterStore(Replay(slots, before), SpotOf(slots, hist, i), Volume(before[i + 1..]), m, e.h, e.key, e.val);
      }
    }
  }

  /**
   The ring holds what it has room for: a Set that no later call touches is found as long as the Sets after it, each of
   at most `m` bytes, take together no more than the other chunks have room for.
   */
  lemma {:induction false} RingHolds(slots: nat, hist: seq<Event>, i: nat, m: nat)
    requires 1 <= slots && HistoryOk(hist) && i < |hist| && hist[i].Stored? && m < 1024 && Small(hist[i + 1..], m)
    requires forall j | i < j < |hist| :: !Touches(hist[j], hist[i].h)
    requires Volume(hist[i + 1..]) <= (slots - 1) * (1024 - m)
    ensures Lookup(Replay(slots, hist), hist[i].h, hist[i].key) == Some(hist[i].val)
  {
    SpacedThroughout(slots, hist, i, m);
    ReplayOk(slots, hist);
    ReplayOk(slots, hist[..i]);
    var l, s := Replay(slots, hist), SpotOf(slots, hist, i);
    SpotInRing(Replay(slots, hist[..i]), RecordLen(hist[i].key, hist[i].val));
    hide Replay, Volume, NextSpot;
    StillInside(l, s, Volume(hist[i + 1..]), m);
    assert Retained(slots, hist, i);
    FoundIffRetained(slots, hist, hist[i].h, hist[i].key, hist[i].val);
  }

  lemma StillInside(l: Ledger, s: Spot, used: nat, m: nat)
    requires Ok(l) && s.pos / CHUNK < l.slots && m < CHUNK && Spaced(l, s, used, m)
    requires used <= (l.slots - 1) * (CHUNK - m)
    ensures NotOverrun(l, s)
  {
    var d := Ahead(l, s);
    if d >= l.slots {
      ProductGrows(l.slots - 1, d - 1, CHUNK - m);
      assert false;
    }
    if l.epoch >= s.epoch + 2 {
      ProductGrows(2, l.epoch - s.epoch, l.slots);
      assert false;
    }
  }

  // ---------------------------------------------------------------- the trimmed log

  ghost predicate Shelved(l: Shelf, p: nat, used: nat, m: nat) {
    var d := l.end / CHUNK - p / CHUNK;
    && d >= 0
    && (d >= 1 ==> l.end % CHUNK > 0 && used >= (d - 1) * (CHUNK - m) + l.end % CHUNK)
    && (l.floor <= p || l.floor / CHUNK + l.slots <= l.end / CHUNK + l.remove)
  }

  lemma ShelvedAfterPut(l: Shelf, p: nat, used: nat, m: nat, h: nat, k: Bytes, v: Bytes)
    requires ShelfOk(l) && Fits(k, v) && RecordLen(k, v) <= m < CHUNK && Shelved(l, p, used, m)
    ensures Shelved(Put(l, h, k, v), p, used + RecordLen(k, v), m)
  {
    var n := RecordLen(k, v);
    var l', d := Put(l, h, k, v), l.end / CHUNK - p / CHUNK;
    PutExact(l, n);
    PutInRing(l, n);
    hide PutPos, PutFloor, Fits, ItemOk;
    var q := PutPos(l, n);
    assert l'.end / CHUNK == q / CHUNK && l'.end % CHUNK == q % CHUNK + n;
    if l.end % CHUNK + n >= CHUNK && d >= 1 {
      assert d * (CHUNK - m) == (d - 1) * (CHUNK - m) + (CHUNK - m);
    }
    FloorAfterPut(l, q, PutFloor(l, n));
  }

  lemma FloorAfterPut(l: Shelf, q: nat, f: nat)
    requires l.floor % CHUNK == 0
    requires f == l.floor || (q == l.floor + l.slots * CHUNK && f == l.floor + l.remove * CHUNK)
    ensures f != l.floor ==> f / CHUNK + l.slots == q / CHUNK + l.remove
  {
    var c := l.floor / CHUNK;
    assert l.floor == c * CHUNK;
    if f != l.floor {
      assert q == (c + l.slots) * CHUNK && f == (c + l.remove) * CHUNK;
    }
  }

  lemma ShelvedAtFirst(l: Shelf, h: nat, k: Bytes, v: Bytes, m: nat)
    requires ShelfOk(l) && Fits(k, v)
    ensures Shelved(Put(l, h, k, v), PutPos(l, RecordLen(k, v)), 0, m)
  {
    var n := RecordLen(k, v);
    PutInRing(l, n);
    var p := PutPos(l, n);
    assert (p + n) / CHUNK == p / CHUNK;
  }

  lemma {:induction false} ShelvedThroughout(slots: nat, remove: nat, hist: seq<Event>, i: nat, m: nat)
    requires 1 <= remove <= slots && HistoryOk(hist) && i < |hist| && hist[i].Stored? && m < CHUNK
    requires Small(hist[i + 1..], m) && forall j | i < j < |hist| :: !Touches(hist[j], hist[i].h)
    ensures Shelved(Rerun(slots, remove, hist), PosOf(slots, remove, hist, i), Volume(hist[i + 1..]), m)
  {
    var n := |hist| - 1;
    RerunOk(slots, remove, hist[..n]);
    if i == n {
      ShelvedAtFirst(Rerun(slots, remove, hist[..n]), hist[i].h, hist[i].key, hist[i].val, m);
    } else {
      var before, e := hist[..n], hist[n];
      LaterPart(hist, i, m);
      ShelvedThroughout(slots, remove, before, i, m);
      hide PutPos, PutFloor, Shelved, Fits;
      if e.Stored? {
        ShelvedAfterPut(Rerun(slots, remove, before), PosOf(slots, remove, hist, i), Volume(before[i + 1..]), m,
                        e.h, e.key, e.val);
      }
    }
  }

  /** The same for the trimmed bucket, which gives up `remove` chunks at a time. */
  lemma {:induction false} TrimHolds(slots: nat, remove: nat, hist: seq<Event>, i: nat, m: nat)
    requires 1 <= remove <= slots && HistoryOk(hist) && i < |hist| && hist[i].Stored? && m < 1024
    requires Small(hist[i + 1..], m) && forall j | i < j < |hist| :: !Touches(hist[j], hist[i].h)
    requires Volume(hist[i + 1..]) <= (slots - remove) * (1024 - m)
    ensures Find(Rerun(slots, remove, hist), hist[i].h, hist[i].key) == Some(hist[i].val)
  {
    ShelvedThroughout(slots, remove, hist, i, m);
    RerunOk(slots, remove, hist);
    var l, p := Rerun(slots, remove, hist), PosOf(slots, remove, hist, i);
    hide Rerun, Volume, PutPos;
    AboveFloor(l, p, Volume(hist[i + 1..]), m);
    assert StillThere(slots, remove, hist, i);
    FoundIffStillThere(slots, remove, hist, hist[i].h, hist[i].key, hist[i].val);
  }

  lemma AboveFloor(l: Shelf, p: nat, used: nat, m: nat)
    requires ShelfOk(l) && m < CHUNK && Shelved(l, p, used, m) && used <= (l.slots - l.remove) * (CHUNK - m)
    ensures l.floor <= p
  {
    var d := l.end / CHUNK - p / CHUNK;
    if d >= l.slots - l.remove + 1 {
      ProductGrows(l.slots - l.remove, d - 1, CHUNK - m);
      assert false;
    }
    assert l.floor == l.floor / CHUNK * CHUNK;
  }
}
