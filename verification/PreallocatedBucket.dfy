/**
 `bucketPreallocated`: every chunk is mapped up front; when the ring is full the oldest chunks
 are dropped, the others shift down, and the index is rebased.  Proved to agree with a `Shelf`.
 */
module PreallocatedBucket {
  import opened Prelude
  import opened RingLedger
  import opened RecordLayout
  import opened GenerationTags
  import opened TrimLedger
  import Capacity

  /** `ceil(chunks * ratio / 100)`; the division in floating point is exact enough below 2^31 chunks. */
  function ChunksToRemove(slots: nat, ratio: nat): (r: nat)
    ensures 1 <= slots && 1 <= ratio <= 100 ==> 1 <= r <= slots
    ensures slots * ratio <= r * 100 < slots * ratio + 100
  {
    (slots * ratio + 99) / 100
  }

  /** The word of every readable record, and no other. */
  ghost predicate Mapped(m: map<nat, nat>, l: Shelf) {
    && (forall h :: h in m <==> h in l.index && l.index[h].pos >= l.floor)
    && (forall h | h in m :: m[h] == l.index[h].pos - l.floor + OFFSETS)
  }

  ghost predicate HoldsItem(image: Image, floor: nat, e: Item) {
    e.pos >= floor && (e.pos - floor) / CHUNK < |image|
    && HoldsAt(image[(e.pos - floor) / CHUNK], (e.pos - floor) % CHUNK, e.key, e.val)
  }

  /** Chunk `i` of the image holds the log from `floor + i * CHUNK` on. */
  ghost predicate Shelved(image: Image, l: Shelf) {
    && |image| == l.slots
    && (forall i | 0 <= i < |image| :: |image[i]| == CHUNK)
    && (forall h | h in l.index && l.index[h].pos >= l.floor :: HoldsItem(image, l.floor, l.index[h]))
  }

  ghost predicate Agreement(m: map<nat, nat>, idx: nat, image: Image, history: seq<Event>, l: Shelf) {
    && Accounted(history, l)
    && idx == l.end - l.floor
    && Mapped(m, l)
    && Shelved(image, l)
  }

  /** The words cleanLockedMap keeps, moved down by the bytes removed. */
  function Rebased(m: map<nat, nat>, removed: nat): map<nat, nat> {
    map h | h in m && WordOffset(m[h]) >= removed :: WordOffset(m[h]) - removed + OFFSETS
  }

  /** Raising the floor by whole chunks: shift the image and every surviving record is in place. */
  lemma ShiftShelved(image: Image, l: Shelf, tail: Image)
    requires ShelfOk(l) && Shelved(image, l)
    requires |tail| == l.remove && forall i | 0 <= i < |tail| :: |tail[i]| == CHUNK
    ensures Shelved(image[l.remove..] + tail, l.(floor := l.floor + l.remove * CHUNK))
  {
    var l' := l.(floor := l.floor + l.remove * CHUNK);
    forall h | h in l'.index && l'.index[h].pos >= l'.floor
      ensures HoldsItem(image[l.remove..] + tail, l'.floor, l'.index[h])
    {
      var e := l.index[h];
      assert HoldsItem(image, l.floor, e);
      assert (e.pos - l'.floor) / CHUNK == (e.pos - l.floor) / CHUNK - l.remove;
      assert (e.pos - l'.floor) % CHUNK == (e.pos - l.floor) % CHUNK;
    }
  }

  /** Rebasing the map keeps exactly the records at or above the new floor. */
  lemma RebasedMapped(m: map<nat, nat>, l: Shelf)
    requires ShelfOk(l) && l.slots * CHUNK <= OFFSETS && Mapped(m, l)
    ensures Mapped(Rebased(m, l.remove * CHUNK), l.(floor := l.floor + l.remove * CHUNK))
  {
    forall h | h in m ensures WordOffset(m[h]) == l.index[h].pos - l.floor {
      assert ItemOk(l, l.index[h]);
    }
  }

  /** The ring offset of a record that lies above the floor. */
  lemma OffsetParts(floor: nat, pos: nat)
    requires floor % CHUNK == 0 && floor <= pos
    ensures (pos - floor) % CHUNK == pos % CHUNK
    ensures (pos - floor) / CHUNK == pos / CHUNK - floor / CHUNK
  {
  }

  /** Writing a record above everything written so far disturbs none of it. */
  lemma WriteShelved(image: Image, l: Shelf, h: nat, k: Bytes, v: Bytes, pos: nat)
    requires 1 <= l.slots && l.floor % CHUNK == 0 && Fits(k, v)
    requires forall g | g in l.index :: ItemOk(l, l.index[g])
    requires Shelved(image, l)
    requires l.floor <= pos && l.end <= pos && pos % CHUNK + RecordLen(k, v) < CHUNK
    requires pos + RecordLen(k, v) < l.floor + l.slots * CHUNK
    ensures var l' := l.(index := l.index[h := Item(k, v, pos)], end := pos + RecordLen(k, v));
            var c, o := (pos - l.floor) / CHUNK, (pos - l.floor) % CHUNK;
            && c < |image| && o + RecordLen(k, v) < CHUNK
            && Shelved(image[c := Splice(image[c], o, Record(k, v))], l')
  {
    var n := RecordLen(k, v);
    var c, o := (pos - l.floor) / CHUNK, (pos - l.floor) % CHUNK;
    OffsetParts(l.floor, pos);
    var image' := image[c := Splice(image[c], o, Record(k, v))];
    var l' := l.(index := l.index[h := Item(k, v, pos)], end := pos + n);
    assert HoldsAt(image'[c], o, k, v);
    forall g | g in l'.index && l'.index[g].pos >= l'.floor ensures HoldsItem(image', l'.floor, l'.index[g]) {
      if g != h {
        var e := l.index[g];
        assert HoldsItem(image, l.floor, e) && ItemOk(l, e);
        WriteApart(image, image', l.floor, c, o, n, pos, e);
      }
    }
  }

  lemma WriteApart(image: Image, image': Image, floor: nat, c: nat, o: nat, n: nat, pos: nat, e: Item)
    requires floor <= pos && c == (pos - floor) / CHUNK && o == (pos - floor) % CHUNK
    requires c < |image| && |image[c]| == CHUNK && o + n < CHUNK
    requires |image'| == |image| && |image'[c]| == CHUNK
    requires forall i | 0 <= i < |image| && i != c :: image'[i] == image[i]
    requires forall i :: 0 <= i < o || o + n <= i < CHUNK ==> image'[c][i] == image[c][i]
    requires HoldsItem(image, floor, e) && e.pos + RecordLen(e.key, e.val) <= pos
    ensures HoldsItem(image', floor, e)
  {
    if (e.pos - floor) / CHUNK == c {
      HoldsApart(image[c], image'[c], o, n, (e.pos - floor) % CHUNK, e.key, e.val);
    }
  }

  lemma WriteMapped(m: map<nat, nat>, l: Shelf, h: nat, k: Bytes, v: Bytes, pos: nat)
    requires l.floor <= pos && pos - l.floor < OFFSETS && Mapped(m, l)
    ensures Mapped(m[h := Pack(pos - l.floor, 1)],
            l.(index := l.index[h := Item(k, v, pos)], end := pos + RecordLen(k, v)))
  {
    PackParts(pos - l.floor, 1);
  }

  /** Where Set writes, in offsets of the ring. */
  lemma PlaceFacts(l: Shelf, n: nat)
    requires ShelfOk(l) && 1 <= n < CHUNK
    ensures var idx := l.end - l.floor;
            var here, there := idx / CHUNK, (idx + n) / CHUNK;
            var p, f := PutPos(l, n), PutFloor(l, n);
            && (there <= here ==> f == l.floor && p - f == idx)
            && (there > here && there >= l.slots ==>
                  f == l.floor + l.remove * CHUNK && p - f == CHUNK * (l.slots - l.remove))
            && (there > here && there < l.slots ==> f == l.floor && p - f == there * CHUNK)
            && p % CHUNK + n < CHUNK && l.end <= p && f <= p && p + n < f + l.slots * CHUNK
  {
    PutInRing(l, n);
    var q := l.floor / CHUNK;
    assert l.floor == q * CHUNK;
    assert (l.end - l.floor) / CHUNK == l.end / CHUNK - q;
    assert (l.end - l.floor + n) / CHUNK == (l.end + n) / CHUNK - q;
  }

  lemma RemoveFacts(l: Shelf)
    requires ShelfOk(l)
    ensures 1 <= l.remove <= l.slots
  {
  }

  /** The shelf with the floor where a store of `n` bytes needs it. */
  function Raised(l: Shelf, n: nat): Shelf {
    l.(floor := PutFloor(l, n))
  }

  /** The history and the shelf go together, whatever the map and the memory hold. */
  ghost predicate Accounted(history: seq<Event>, l: Shelf) {
    ShelfOk(l) && l.slots * CHUNK <= OFFSETS && HistoryOk(history) && l == Rerun(l.slots, l.remove, history)
  }

  lemma RaisedItems(l: Shelf, n: nat)
    requires ShelfOk(l)
    ensures 1 <= l.slots
    ensures forall g | g in l.index :: ItemOk(Raised(l, n), l.index[g])
  {
    forall g | g in l.index ensures ItemOk(Raised(l, n), l.index[g]) {
      assert ItemOk(l, l.index[g]);
    }
  }

  lemma ShelvedLengths(image: Image, l: Shelf)
    requires Shelved(image, l)
    ensures |image| == l.slots && forall i | 0 <= i < |image| :: |image[i]| == CHUNK
  {
  }

  /** The whole effect of Set on the fields once there is room. */
  lemma StoreAgrees(m: map<nat, nat>, image: Image, history: seq<Event>, l: Shelf, h: nat, k: Bytes, v: Bytes)
    requires Accounted(history, l) && Fits(k, v)
    requires Mapped(m, Raised(l, RecordLen(k, v))) && Shelved(image, Raised(l, RecordLen(k, v)))
    ensures var n := RecordLen(k, v);
            PutPos(l, n) >= PutFloor(l, n)
            && var at := PutPos(l, n) - PutFloor(l, n);
            && at / CHUNK < |image| && at % CHUNK + n < CHUNK && at < OFFSETS && |image[at / CHUNK]| == CHUNK
            && Agreement(m[h := Pack(at, 1)], at + n,
                         image[at / CHUNK := Splice(image[at / CHUNK], at % CHUNK, Record(k, v))],
                         history + [Stored(h, k, v)], Put(l, h, k, v))
  {
    hide Rerun, Mapped, Shelved, Splice, Pack, ShelfOk, ItemOk, PutPos, PutFloor;
    var n := RecordLen(k, v);
    PutInRing(l, n);
    RaisedItems(l, n);
    var l1 := Raised(l, n);
    ShelvedLengths(image, l1);
    WriteShelved(image, l1, h, k, v, PutPos(l, n));
    WriteMapped(m, l1, h, k, v, PutPos(l, n));
    assert Put(l, h, k, v) == l1.(index := l1.index[h := Item(k, v, PutPos(l, n))], end := PutPos(l, n) + n);
    AccountedAfter(history, l, h, k, v);
  }

  lemma AccountedAfter(history: seq<Event>, l: Shelf, h: nat, k: Bytes, v: Bytes)
    requires Accounted(history, l) && Fits(k, v)
    ensures Accounted(history + [Stored(h, k, v)], Put(l, h, k, v))
  {
    PutOk(l, h, k, v);
    assert (history + [Stored(h, k, v)])[..|history|] == history;
  }

  lemma DeleteAgrees(m: map<nat, nat>, idx: nat, image: Image, history: seq<Event>, l: Shelf, h: nat)
    requires Agreement(m, idx, image, history, l)
    ensures Agreement(m - {h}, idx, image, history + [Deleted(h)], l.(index := l.index - {h}))
  {
    DropOk(l, h);
    assert (history + [Deleted(h)])[..|history|] == history;
    assert Mapped(m - {h}, l.(index := l.index - {h}));
  }

  lemma ResetAgrees(m: map<nat, nat>, idx: nat, image: Image, history: seq<Event>, l: Shelf)
    requires Agreement(m, idx, image, history, l)
    ensures Agreement(map[], 0, image, history + [Cleared], NewShelf(l.slots, l.remove))
  {
    assert (history + [Cleared])[..|history|] == history;
  }

  /** What Get needs to know of a word: every word in the map is live and its record is in the image. */
  lemma WordFacts(m: map<nat, nat>, idx: nat, image: Image, history: seq<Event>, l: Shelf, h: nat)
    requires Agreement(m, idx, image, history, l)
    ensures h !in m ==> !(h in l.index && l.index[h].pos >= l.floor)
    ensures h in m ==>
              && h in l.index && m[h] > 0 && Live(m[h], TagOfGen(1), idx)
              && var e := l.index[h];
              && e.pos >= l.floor && WordOffset(m[h]) == e.pos - l.floor
              && WordOffset(m[h]) / CHUNK < |image| == l.slots
              && WordOffset(m[h]) % CHUNK + RecordLen(e.key, e.val) < CHUNK
              && HoldsAt(image[WordOffset(m[h]) / CHUNK], WordOffset(m[h]) % CHUNK, e.key, e.val)
  {
    hide Live, WordOffset, Rerun, HoldsAt, Fits;
    if h in m {
      var e := l.index[h];
      assert ItemOk(l, e) && HoldsItem(image, l.floor, e);
      OffsetParts(l.floor, e.pos);
      FirstGeneration(e.pos - l.floor, idx);
    }
  }

  /** The word of an offset behind the cursor in generation 1. */
  lemma FirstGeneration(offset: nat, idx: nat)
    requires offset < idx && offset < OFFSETS
    ensures var w := offset + OFFSETS;
            WordOffset(w) == offset && Live(w, TagOfGen(1), idx)
  {
  }

  class Bucket {
    var chunks: seq<array<byte>>
    var m: map<nat, nat>
    var idx: nat
    const gen: nat := 1
    var trimRatio: nat

    ghost var history: seq<Event>
    ghost var shelf: Shelf
    ghost var image: Image
    /** The slot of every chunk of the ring. */
    ghost var owner: map<array<byte>, int>

    ghost predicate Memory()
      reads this`chunks, this`image, this`owner, chunks
    {
      && |image| == |chunks|
      && (forall i | 0 <= i < |chunks| :: Placed(chunks[i], i, owner, image[i]))
    }

    ghost predicate Valid()
      reads this, chunks
    {
      && Memory()
      && Agreement(m, idx, image, history, shelf)
      && |chunks| == shelf.slots
      && 1 <= trimRatio <= 100 && shelf.remove == ChunksToRemove(|chunks|, trimRatio)
    }

    /** Init; it panics on a size that is not a whole number of chunks, so callers owe that. */
    constructor (maxBytes: nat, ratio: nat)
      requires 0 < maxBytes < OFFSETS && maxBytes % CHUNK == 0 && 1 <= ratio <= 100
      ensures Valid() && fresh(chunks) && |chunks| == maxBytes / CHUNK && history == []
    {
      m, idx, trimRatio := map[], 0, ratio;
      chunks, image, owner := [], [], map[];
      var slots := maxBytes / CHUNK;
      history, shelf := [], NewShelf(slots, ChunksToRemove(slots, ratio));
      new;
      while |chunks| < slots
        invariant |chunks| <= slots
        invariant fresh(chunks) && Memory()
        invariant m == map[] && idx == 0 && trimRatio == ratio
        invariant history == [] && shelf == NewShelf(slots, ChunksToRemove(slots, ratio))
      {
        var q := new byte[CHUNK](i => 0);
        owner := owner[q := |chunks|];
        chunks := chunks + [q];
        image := image + [q[..]];
      }
    }

    /** The first loop of a trim: slot `i` takes the chunk of slot `i + remove`. */
    static method ShiftDown(chunks: seq<array<byte>>, remove: nat) returns (r: seq<array<byte>>)
      requires remove <= |chunks|
      ensures |r| == |chunks| && r[..|chunks| - remove] == chunks[remove..]
    {
      r := chunks;
      var i := 0;
      while i < |chunks| - remove
        invariant 0 <= i <= |chunks| - remove && |r| == |chunks|
        invariant forall j | 0 <= j < i :: r[j] == chunks[j + remove]
        invariant forall j | i <= j < |chunks| :: r[j] == chunks[j]
      {
        r := r[i := r[i + remove]];
        i := i + 1;
      }
    }

    /** The second loop of a trim: new chunks from slot `keep` on. */
    static method NewTail(chunks: seq<array<byte>>, keep: nat, ghost owner: map<array<byte>, int>, ghost image: Image)
        returns (r: seq<array<byte>>, ghost owner': map<array<byte>, int>, ghost image': Image)
      requires keep <= |chunks| && |image| == keep
      requires forall i | 0 <= i < keep :: Placed(chunks[i], i, owner, image[i])
      ensures |r| == |image'| == |chunks| && r[..keep] == chunks[..keep] && image'[..keep] == image
      ensures forall i | 0 <= i < |r| :: Placed(r[i], i, owner', image'[i])
      ensures forall i | keep <= i < |r| :: fresh(r[i])
    {
      r, owner', image' := chunks, owner, image;
      var i := keep;
      while i < |chunks|
        invariant keep <= i == |image'| <= |chunks| == |r|
        invariant r[..keep] == chunks[..keep] && image'[..keep] == image
        invariant forall j | 0 <= j < i :: Placed(r[j], j, owner', image'[j])
        invariant forall j | keep <= j < i :: fresh(r[j])
      {
        var q := new byte[CHUNK](i => 0);
        r := r[i := q];
        owner' := owner'[q := i];
        image' := image' + [q[..]];
        i := i + 1;
      }
    }

    /** Drops the first `remove` chunks, shifts the others down, and appends new ones. */
    method ShiftChunks(remove: nat)
      requires Memory() && remove <= |chunks|
      modifies this`chunks, this`image, this`owner
      ensures Memory() && |chunks| == old(|chunks|)
      ensures forall i | 0 <= i < |chunks| :: chunks[i] in old(chunks) || fresh(chunks[i])
      ensures image[..|chunks| - remove] == old(image[remove..])
    {
      var keep := |chunks| - remove;
      var shifted := ShiftDown(chunks, remove);
      ghost var lowered := map a | a in owner :: owner[a] - remove;
      forall i | 0 <= i < keep ensures Placed(shifted[i], i, lowered, image[remove..][i]) {
        assert shifted[i] == shifted[..keep][i] == chunks[i + remove];
        assert Placed(chunks[i + remove], i + remove, owner, image[i + remove]);
      }
      var renewed;
      ghost var owner', image';
      renewed, owner', image' := NewTail(shifted, keep, lowered, image[remove..]);
      forall i | 0 <= i < keep ensures renewed[i] in chunks {
        assert renewed[i] == renewed[..keep][i] == shifted[..keep][i] == chunks[i + remove];
      }
      chunks, owner, image := renewed, owner', image';
    }

    /** cleanLockedMap: drop the words of removed chunks, move the others down. */
    static method CleanLockedMap(bm: map<nat, nat>, startingOffset: nat) returns (bmNew: map<nat, nat>)
      ensures bmNew == Rebased(bm, startingOffset)
    {
      bmNew := map[];
      var keys := bm.Keys;
      while keys != {}
        invariant keys <= bm.Keys
        invariant forall h :: h in bmNew <==> h in bm && h !in keys && WordOffset(bm[h]) >= startingOffset
        invariant forall h | h in bmNew :: bmNew[h] == WordOffset(bm[h]) - startingOffset + OFFSETS
      {
        var h :| h in keys;
        var offset := WordOffset(bm[h]);
        if offset >= startingOffset {
          PackParts(offset - startingOffset, 1);
          bmNew := bmNew[h := Pack(offset - startingOffset, 1)];
        }
        keys := keys - {h};
      }
    }

    /** The wrap branch of Set: trim the ring and the map to what lies above the new floor. */
    method Trim()
      requires Memory() && Mapped(m, shelf) && Shelved(image, shelf) && ShelfOk(shelf) && shelf.slots * CHUNK <= OFFSETS
      requires shelf.slots == |chunks| && shelf.remove == ChunksToRemove(|chunks|, trimRatio)
      modifies this`chunks, this`image, this`owner, this`m
      ensures Memory() && |chunks| == old(|chunks|)
      ensures forall i | 0 <= i < |chunks| :: chunks[i] in old(chunks) || fresh(chunks[i])
      ensures var l := shelf.(floor := shelf.floor + shelf.remove * CHUNK);
              Mapped(m, l) && Shelved(image, l)
    {
      hide Shelved, Mapped, Memory, ChunksToRemove, ShelfOk, Rebased;
      var remove := ChunksToRemove(|chunks|, trimRatio);
      RemoveFacts(shelf);
      RebasedMapped(m, shelf);
      TailFacts();
      ghost var was := image;
      ShiftChunks(remove);
      TailFacts();
      ShiftShelved(was, shelf, image[|chunks| - remove..]);
      assert image == was[remove..] + image[|chunks| - remove..];
      m := CleanLockedMap(m, remove * CHUNK);
    }

    lemma TailFacts()
      requires Memory()
      ensures |image| == |chunks| && forall i | 0 <= i < |image| :: |image[i]| == CHUNK
    {
      forall i | 0 <= i < |image| ensures |image[i]| == CHUNK {
        assert Placed(chunks[i], i, owner, image[i]);
      }
    }

    /** Where Set writes `n` bytes, after trimming if the ring is full. */
    method MakeRoom(n: nat) returns (at: nat)
      requires Valid() && 4 <= n < CHUNK
      modifies this`chunks, this`image, this`owner, this`m
      ensures Memory() && |chunks| == old(|chunks|)
      ensures forall i | 0 <= i < |chunks| :: chunks[i] in old(chunks) || fresh(chunks[i])
      ensures Mapped(m, Raised(shelf, n)) && Shelved(image, Raised(shelf, n))
      ensures PutPos(shelf, n) == PutFloor(shelf, n) + at
    {
      hide Memory, Mapped, Shelved, ShelfOk, Rerun, PutPos, PutFloor, ChunksToRemove;
      RemoveFacts(shelf);
      PlaceFacts(shelf, n);
      at := idx;
      var chunkIdx := at / CHUNK;
      var chunkIdxNew := (at + n) / CHUNK;
      if chunkIdxNew > chunkIdx {
        if chunkIdxNew >= |chunks| {
          at := CHUNK * (|chunks| - ChunksToRemove(|chunks|, trimRatio));
          Trim();
        } else {
          at := chunkIdxNew * CHUNK;
        }
      }
    }

    /** Writes the record of `k` and `v` at ring offset `at`. */
    method WriteRecord(at: nat, k: Bytes, v: Bytes)
      requires Memory() && Fits(k, v) && at / CHUNK < |chunks| && at % CHUNK + RecordLen(k, v) < CHUNK
      modifies this`image, chunks[at / CHUNK]
      ensures Memory()
      ensures image == old(image)[at / CHUNK := Splice(old(image)[at / CHUNK], at % CHUNK, Record(k, v))]
    {
      var c := at / CHUNK;
      assert Placed(chunks[c], c, owner, image[c]);
      CopyInto(chunks[c], at % CHUNK, Header(k, v) + k + v);
      image := image[c := chunks[c][..]];
    }

    /** Set for a pair that fits. */
    method SetFitting(k: Bytes, v: Bytes, h: nat)
      requires Valid() && Fits(k, v)
      modifies this, chunks
      ensures Valid() && |chunks| == old(|chunks|)
      ensures forall i | 0 <= i < |chunks| :: chunks[i] in old(chunks) || fresh(chunks[i])
      ensures history == old(history) + [Stored(h, k, v)] && shelf == Put(old(shelf), h, k, v)
    {
      var kvLen := 4 + |k| + |v|;
      hide Memory, Mapped, Shelved, ShelfOk, Accounted, PutPos, PutFloor, Splice, Record, Pack, ChunksToRemove;
      var at := MakeRoom(kvLen);
      TailFacts();
      StoreAgrees(m, image, history, shelf, h, k, v);
      WriteRecord(at, k, v);
      m := m[h := Pack(at, gen)];
      idx := at + kvLen;
      shelf := Put(shelf, h, k, v);
      history := history + [Stored(h, k, v)];
    }

    /** Set: fails exactly for a pair that is too long, and then changes nothing. */
    method Set(k: Bytes, v: Bytes, h: nat) returns (ok: bool)
      requires Valid()
      modifies this, chunks
      ensures Valid() && |chunks| == old(|chunks|)
      ensures forall i | 0 <= i < |chunks| :: chunks[i] in old(chunks) || fresh(chunks[i])
      ensures ok <==> Fits(k, v)
      ensures !ok ==> history == old(history) && shelf == old(shelf)
      ensures ok ==> history == old(history) + [Stored(h, k, v)] && shelf == Put(old(shelf), h, k, v)
    {
      ok := false;
      if |k| < MAX_FIELD && |v| < MAX_FIELD && 4 + |k| + |v| < CHUNK {
        SetFitting(k, v, h);
        ok := true;
      }
    }

    /** Get: found exactly when the shelf has the key, and then its value is appended to `dst`. */
    method Get(dst: Bytes, k: Bytes, h: nat) returns (found: bool, dst': Bytes)
      requires Valid()
      ensures found == Find(shelf, h, k).Some?
      ensures dst' == if found then dst + Find(shelf, h, k).value else dst
    {
      hide Agreement, Live, WordOffset, Memory, ChunksToRemove;
      found, dst' := false, dst;
      WordFacts(m, idx, image, history, shelf, h);
      TailFacts();
      var v := if h in m then m[h] else 0;
      if v > 0 && Live(v, TagOfGen(gen), idx) {
        ghost var e := shelf.index[h];
        var at := WordOffset(v);
        var chunkIdx := at / CHUNK;
        if chunkIdx >= |chunks| {
          return;
        }
        assert chunks[chunkIdx].Length == CHUNK && chunks[chunkIdx][..] == image[chunkIdx] by {
          SlotFacts(chunkIdx);
        }
        found, dst' := ReadRecord(chunks[chunkIdx], at % CHUNK, dst, k, e.key, e.val);
      }
    }

    lemma SlotFacts(c: nat)
      requires Memory() && c < |chunks|
      ensures chunks[c].Length == CHUNK && |image| == |chunks| && chunks[c][..] == image[c]
    {
      assert Placed(chunks[c], c, owner, image[c]);
    }

    /** What Get returns, in terms of the calls on this bucket: never stale, and there until a trim passes it. */
    lemma {:induction false} GetByHistory(hash: Bytes -> nat, k: Bytes, v: Bytes)
      requires Valid() && HashedBy(history, hash)
      ensures Find(shelf, hash(k), k) == Some(v) ==> LatestSet(history, hash(k), k) == Some(v)
      ensures Find(shelf, hash(k), k) == Some(v)
         <==> exists i: nat :: StillThere(|chunks|, shelf.remove, history, i) && history[i] == Stored(hash(k), k, v)
    {
      ShelfIsRerun();
      hide Rerun, Find, LatestSet, StillThere, Memory, Agreement, Valid;
      FoundIsLatest(|chunks|, shelf.remove, history, hash, k);
      FoundIffStillThere(|chunks|, shelf.remove, history, hash(k), k, v);
    }

    /** What the bucket is sure to hold: a value until later Sets have filled all chunks but those a trim removes. */
    lemma HoldsRecent(i: nat, n: nat)
      requires Valid() && i < |history| && history[i].Stored? && n < 1024 && Capacity.Small(history[i + 1..], n)
      requires forall j | i < j < |history| :: !Touches(history[j], history[i].h)
      requires Capacity.Volume(history[i + 1..]) <= (|chunks| - ChunksToRemove(|chunks|, trimRatio)) * (1024 - n)
      ensures Find(shelf, history[i].h, history[i].key) == Some(history[i].val)
    {
      ShelfIsRerun();
      hide Rerun, Capacity.Volume, Capacity.Small, Touches, Find, Memory, Agreement, ChunksToRemove;
      Capacity.TrimHolds(|chunks|, shelf.remove, history, i, n);
    }

    lemma ShelfIsRerun()
      requires Valid()
      ensures HistoryOk(history) && 1 <= shelf.remove <= |chunks| && shelf == Rerun(|chunks|, shelf.remove, history)
    {
      hide Memory, ChunksToRemove;
    }

    /** Del. */
    method Del(h: nat)
      requires Valid()
      modifies this`m, this`shelf, this`history
      ensures Valid() && history == old(history) + [Deleted(h)]
      ensures shelf == old(shelf).(index := old(shelf).index - {h})
    {
      hide Agreement, Memory, ChunksToRemove;
      DeleteAgrees(m, idx, image, history, shelf, h);
      m := m - {h};
      shelf := shelf.(index := shelf.index - {h});
      history := history + [Deleted(h)];
    }

    /** Reset: the index is dropped and writing starts over; the chunks and their bytes stay. */
    method Reset()
      requires Valid()
      modifies this`m, this`idx, this`shelf, this`history
      ensures Valid() && history == old(history) + [Cleared]
      ensures shelf == NewShelf(|chunks|, shelf.remove)
    {
      hide Agreement, Memory, ChunksToRemove;
      ResetAgrees(m, idx, image, history, shelf);
      m, idx := map[], 0;
      shelf := NewShelf(shelf.slots, shelf.remove);
      history := history + [Cleared];
    }
  }

  /** A chunk at its slot, with its bytes. */
  ghost predicate Placed(a: array<byte>, i: int, owner: map<array<byte>, int>, bytes: Bytes)
    reads a
  {
    a.Length == CHUNK && bytes == a[..] && a in owner && owner[a] == i
  }
}
