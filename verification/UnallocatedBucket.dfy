/**
 `bucketUnallocated`: the ring buffer over mapped chunks, its packed index and its slab
 allocator, proved to agree with a `Ledger`.
 */
module UnallocatedBucket {
  import opened Prelude
  import opened RingLedger
  import opened RecordLayout
  import opened GenerationTags
  import opened SlabSizing
  import opened Capacity

  /** A Go slice over a chunk: the memory and the length; the capacity is always the whole chunk. */
  datatype Slice = Nil | Slice(mem: array<byte>, len: nat)

  function Occupied(chunks: seq<Slice>): (n: nat)
    ensures n <= |chunks|
  {
    if chunks == [] then 0
    else Occupied(chunks[..|chunks| - 1]) + if chunks[|chunks| - 1].Nil? then 0 else 1
  }

  lemma {:induction false} OccupiedUpdate(chunks: seq<Slice>, i: nat, s: Slice)
    requires i < |chunks|
    ensures Occupied(chunks[i := s]) + (if chunks[i].Nil? then 0 else 1) == Occupied(chunks) + (if s.Nil? then 0 else 1)
  {
    var n := |chunks| - 1;
    if i == n {
      assert chunks[i := s][..n] == chunks[..n];
    } else {
      OccupiedUpdate(chunks[..n], i, s);
      assert chunks[i := s][..n] == chunks[..n][i := s];
    }
  }

  lemma {:induction false} NilSlotIsRoom(chunks: seq<Slice>, i: nat)
    requires i < |chunks| && chunks[i].Nil?
    ensures Occupied(chunks) < |chunks|
  {
    if i == |chunks| - 1 {
    } else {
      NilSlotIsRoom(chunks[..|chunks| - 1], i);
    }
  }

  /** The slot under the cursor is filled up to the cursor; every slot behind it is allocated. */
  ghost predicate AtCursor(chunks: seq<Slice>, idx: nat, gen: nat, l: Ledger) {
    && idx == l.cursor
    && gen < WORDS && 1 <= l.epoch && TagOfGen(gen) == TagOf(l.epoch)
    && idx / CHUNK < |chunks|
    && (idx == 0 ==> chunks[0].Nil?)
    && (idx > 0 ==> chunks[idx / CHUNK].Slice? && chunks[idx / CHUNK].len == idx % CHUNK)
    && (forall i | 0 <= i < idx / CHUNK :: chunks[i].Slice?)
    && (l.epoch > 1 ==> forall i | 0 <= i < |chunks| :: chunks[i].Slice?)
  }

  /** The packed map and the bytes of the ring represent the ledger, which is the outcome of the history. */
  ghost predicate Represents(m: map<nat, nat>, image: Image, history: seq<Event>, l: Ledger) {
    && Ok(l)
    && HistoryOk(history) && l == Replay(l.slots, history)
    && Indexed(m, l, 1)
    && Records(image, l)
  }

  /** The bucket's fields agree with its ledger. */
  ghost predicate Agreement(chunks: seq<Slice>, m: map<nat, nat>, idx: nat, gen: nat,
                            image: Image, history: seq<Event>, l: Ledger) {
    && 1 <= |chunks| == |image| == l.slots && |chunks| * CHUNK <= OFFSETS
    && Ok(l)
    && AtCursor(chunks, idx, gen, l)
    && Represents(m, image, history, l)
  }

  /** A store in the ledger, matched by the written chunk and the packed word, keeps the representation. */
  lemma RepresentsAfterStore(m: map<nat, nat>, image: Image, history: seq<Event>, l: Ledger,
                             h: nat, k: Bytes, v: Bytes, gen': nat, was: Bytes)
    requires Represents(m, image, history, l) && Fits(k, v)
    requires |image| == l.slots && l.slots * CHUNK <= OFFSETS
    requires TagOfGen(gen') == TagOf(NextSpot(l, RecordLen(k, v)).epoch)
    requires var s := NextSpot(l, RecordLen(k, v));
             s.pos / CHUNK < |image| && |was| == CHUNK && (image[s.pos / CHUNK] == [] || image[s.pos / CHUNK] == was)
    ensures var s := NextSpot(l, RecordLen(k, v));
            && s.pos % CHUNK + RecordLen(k, v) < CHUNK && s.pos < OFFSETS
            && var m' := m[h := Pack(s.pos, gen')];
               var l' := Store(l, h, k, v);
            && Represents(if s.epoch == l.epoch then m' else Cleaned(m', TagOf(l'.epoch), l'.cursor),
                          image[s.pos / CHUNK := Splice(was, s.pos % CHUNK, Record(k, v))],
                          history + [Stored(h, k, v)], l')
  {
    var s := NextSpot(l, RecordLen(k, v));
    SpotInRing(l, RecordLen(k, v));
    StoreOk(l, h, k, v);
    RecordsAfterStore(image, l, h, k, v, Splice(was, s.pos % CHUNK, Record(k, v)));
    IndexedAfterStore(m, l, h, k, v, gen');
    CleanedIndexed(m[h := Pack(s.pos, gen')], Store(l, h, k, v), if s.epoch == l.epoch then 1 else 2);
    assert (history + [Stored(h, k, v)])[..|history|] == history;
  }

  /** After the store the cursor stands right behind the record, in the slot that holds it. */
  lemma AtCursorAfterStore(chunks: seq<Slice>, idx: nat, gen: nat, l: Ledger,
                           h: nat, k: Bytes, v: Bytes, mem: array<byte>, gen': nat)
    requires AtCursor(chunks, idx, gen, l) && Ok(l) && l.slots == |chunks| && Fits(k, v)
    requires gen' < WORDS && TagOfGen(gen') == TagOf(NextSpot(l, RecordLen(k, v)).epoch)
    ensures var s, n := NextSpot(l, RecordLen(k, v)), RecordLen(k, v);
            && s.pos / CHUNK < |chunks|
            && AtCursor(chunks[s.pos / CHUNK := Slice(mem, s.pos % CHUNK + n)], s.pos + n, gen', Store(l, h, k, v))
  {
    var s, n := NextSpot(l, RecordLen(k, v)), RecordLen(k, v);
    SpotInRing(l, n);
    assert (s.pos + n) / CHUNK == s.pos / CHUNK && (s.pos + n) % CHUNK == s.pos % CHUNK + n;
    var c := s.pos / CHUNK;
    forall i | 0 <= i < c ensures chunks[i].Slice? {
      if i == idx / CHUNK {
        assert idx > 0;
      }
    }
  }

  /** The whole effect of Set on the fields, but for memory: `mem` holds the bytes `was` before the write. */
  lemma AgreementAfterStore(chunks: seq<Slice>, m: map<nat, nat>, idx: nat, gen: nat,
                            image: Image, history: seq<Event>, l: Ledger,
                            h: nat, k: Bytes, v: Bytes, gen': nat, mem: array<byte>, was: Bytes)
    requires Agreement(chunks, m, idx, gen, image, history, l) && Fits(k, v)
    requires gen' < WORDS && TagOfGen(gen') == TagOf(NextSpot(l, RecordLen(k, v)).epoch)
    requires var s := NextSpot(l, RecordLen(k, v));
             s.pos / CHUNK < |image| && |was| == CHUNK && (image[s.pos / CHUNK] == [] || image[s.pos / CHUNK] == was)
    ensures var s, n := NextSpot(l, RecordLen(k, v)), RecordLen(k, v);
            && s.pos % CHUNK + n < CHUNK && s.pos < OFFSETS
            && var m' := m[h := Pack(s.pos, gen')];
               var m'' := if s.epoch == l.epoch then m' else Cleaned(m', TagOfGen(gen'), s.pos + n);
               Agreement(chunks[s.pos / CHUNK := Slice(mem, s.pos % CHUNK + n)], m'', s.pos + n, gen',
                         image[s.pos / CHUNK := Splice(was, s.pos % CHUNK, Record(k, v))],
                         history + [Stored(h, k, v)], Store(l, h, k, v))
  {
    hide Represents, AtCursor, Cleaned, Ok;
    StoreOk(l, h, k, v);
    RepresentsAfterStore(m, image, history, l, h, k, v, gen', was);
    AtCursorAfterStore(chunks, idx, gen, l, h, k, v, mem, gen');
  }

  lemma AgreementParts(chunks: seq<Slice>, m: map<nat, nat>, idx: nat, gen: nat,
                       image: Image, history: seq<Event>, l: Ledger)
    requires Agreement(chunks, m, idx, gen, image, history, l)
    ensures HistoryOk(history) && 1 <= |chunks| == l.slots && |chunks| * CHUNK <= OFFSETS
    ensures l == Replay(|chunks|, history)
  {
  }

  lemma AgreementAfterDelete(chunks: seq<Slice>, m: map<nat, nat>, idx: nat, gen: nat,
                             image: Image, history: seq<Event>, l: Ledger, h: nat)
    requires Agreement(chunks, m, idx, gen, image, history, l)
    ensures Agreement(chunks, m - {h}, idx, gen, image, history + [Deleted(h)], Delete(l, h))
  {
    var l' := Delete(l, h);
    forall g | g in l'.index ensures EntryOk(l', l'.index[g]) {
      assert EntryOk(l, l.index[g]);
    }
    assert (history + [Deleted(h)])[..|history|] == history;
    assert Indexed(m - {h}, l', 1);
  }

  /** What Get needs to know of a word: the test passes exactly for a readable record, which is in the image. */
  lemma WordFacts(chunks: seq<Slice>, m: map<nat, nat>, idx: nat, gen: nat,
                  image: Image, history: seq<Event>, l: Ledger, h: nat)
    requires Agreement(chunks, m, idx, gen, image, history, l)
    ensures h !in m ==> !(h in l.index && Readable(l, l.index[h]))
    ensures h in m ==>
              && h in l.index && m[h] > 0
              && (Live(m[h], TagOfGen(gen), idx) <==> Readable(l, l.index[h]))
              && (Readable(l, l.index[h]) ==>
                    var e := l.index[h];
                    && e.pos == WordOffset(m[h]) && e.pos / CHUNK < |chunks| == |image|
                    && e.pos % CHUNK + RecordLen(e.key, e.val) < CHUNK
                    && HoldsAt(image[e.pos / CHUNK], e.pos % CHUNK, e.key, e.val))
  {
    hide TagOf, WordOffset, Live, Replay;
    if h in m {
      LiveIffReadable(m, l, 1, h);
      assert EntryOk(l, l.index[h]);
    }
  }

  /** What Set needs to know of the spot it computes. */
  lemma SpotFacts(chunks: seq<Slice>, m: map<nat, nat>, idx: nat, gen: nat,
                  image: Image, history: seq<Event>, l: Ledger, n: nat)
    requires Agreement(chunks, m, idx, gen, image, history, l) && 4 <= n < CHUNK
    ensures var s := NextSpot(l, n);
            && idx == l.cursor && l.slots == |chunks| == |image| && 1 <= l.epoch
            && gen < WORDS && TagOfGen(gen) == TagOf(l.epoch)
            && s.pos / CHUNK < |chunks| && s.pos % CHUNK + n < CHUNK
            && (s.epoch != l.epoch ==> chunks[0].Slice?)
            && (s.pos == idx && chunks[s.pos / CHUNK].Slice? && s.epoch == l.epoch ==>
                  chunks[s.pos / CHUNK].len == s.pos % CHUNK)
            && (chunks[s.pos / CHUNK].Nil? ==> s.pos % CHUNK == 0)
  {
    SpotInRing(l, n);
  }

  /** The slot a record of `n` bytes goes to is empty only if nothing has been written to it since the last Reset. */
  lemma EmptySlotOpens(chunks: seq<Slice>, m: map<nat, nat>, idx: nat, gen: nat,
                       image: Image, history: seq<Event>, l: Ledger, n: nat)
    requires Agreement(chunks, m, idx, gen, image, history, l) && 4 <= n < CHUNK
    requires NextSpot(l, n).pos / CHUNK < |chunks| && chunks[NextSpot(l, n).pos / CHUNK].Nil?
    ensures OpensChunk(l, n)
  {
    SpotInRing(l, n);
  }

  lemma CleanedAll(m: map<nat, nat>, tag: nat, cursor: nat)
    requires |Cleaned(m, tag, cursor).Keys| >= |m|
    ensures Cleaned(m, tag, cursor) == m
  {
    SubsetSize(Cleaned(m, tag, cursor).Keys, m.Keys);
    assert Cleaned(m, tag, cursor).Keys == m.Keys;
  }

  lemma {:induction false} OccupiedNone(chunks: seq<Slice>)
    requires forall i | 0 <= i < |chunks| :: chunks[i].Nil?
    ensures Occupied(chunks) == 0
  {
    if chunks == [] {
    } else {
      OccupiedNone(chunks[..|chunks| - 1]);
    }
  }

  /** A bucket without records, whatever was called before. */
  lemma AgreementWhenEmpty(chunks: seq<Slice>, image: Image, history: seq<Event>)
    requires 1 <= |chunks| == |image| && |chunks| * CHUNK <= OFFSETS && chunks[0].Nil?
    requires HistoryOk(history) && Replay(|chunks|, history) == Empty(|chunks|)
    ensures Agreement(chunks, map[], 0, 1, image, history, Empty(|chunks|))
  {
  }

  /** The whole effect of Reset on the fields. */
  lemma AgreementAfterReset(chunks: seq<Slice>, image: Image, history: seq<Event>)
    requires 1 <= |chunks| == |image| && |chunks| * CHUNK <= OFFSETS && HistoryOk(history)
    requires forall i | 0 <= i < |chunks| :: chunks[i].Nil?
    ensures Occupied(chunks) == 0
    ensures Agreement(chunks, map[], 0, 1, image, history + [Cleared], Empty(|chunks|))
  {
    hide Agreement;
    OccupiedNone(chunks);
    var history' := history + [Cleared];
    assert history'[..|history|] == history;
    assert Replay(|chunks|, history').index == map[];
    ReplaySlots(|chunks|, history);
    AgreementWhenEmpty(chunks, image, history');
  }

  lemma ReplaySlots(slots: nat, history: seq<Event>)
    requires 1 <= slots && HistoryOk(history)
    ensures Replay(slots, history).slots == slots
  {
    ReplayOk(slots, history);
  }

  class Bucket {
    var chunks: seq<Slice>
    var m: map<nat, nat>
    var idx: nat
    var gen: nat
    var freeChunks: seq<array<byte>>
    var allocatedChunks: nat
    var nextAllocChunks: nat
    var maxSlabChunks: nat

    /** The calls so far, the ledger they lead to, and the bytes of the ring. */
    ghost var history: seq<Event>
    ghost var ledger: Ledger
    ghost var image: Image
    /** Which place holds a chunk: slot `i` counts as `i`, place `j` of the free list as `-1 - j`. */
    ghost var owner: map<array<byte>, int>
    ghost var Mem: set<array<byte>>
    /** How often a slab had to be mapped and could not be. */
    ghost var refused: nat

    /** The ring slots and the free list hold distinct whole chunks; `image` is what the slots contain. */
    ghost predicate Memory()
      reads this`chunks, this`freeChunks, this`image, this`owner, this`Mem, Mem
    {
      && |image| == |chunks|
      && (forall i | 0 <= i < |chunks| ::
            && (chunks[i].Slice? ==>
                  && chunks[i].mem in Mem
                  && chunks[i].mem.Length == CHUNK
                  && chunks[i].mem in owner && owner[chunks[i].mem] == i
                  && image[i] == chunks[i].mem[..])
            && (chunks[i].Nil? ==> image[i] == []))
      && (forall i | 0 <= i < |freeChunks| ::
            && freeChunks[i] in Mem && freeChunks[i].Length == CHUNK
            && freeChunks[i] in owner && owner[freeChunks[i]] == -1 - i)
    }

    /** Everything but memory and the count of chunks. */
    ghost predicate Agrees()
      reads this`chunks, this`m, this`idx, this`gen, this`history, this`ledger, this`image
    {
      Agreement(chunks, m, idx, gen, image, history, ledger)
    }

    /** Mapped chunks are the free ones, the ring's, and `loose` more, and never outnumber the ring. */
    ghost predicate Counted(loose: nat)
      reads this
    {
      && allocatedChunks == |freeChunks| + Occupied(chunks) + loose && allocatedChunks <= |chunks|
      && 1 <= maxSlabChunks <= CHUNKS_PER_ALLOC
      && 1 <= nextAllocChunks
    }

    ghost predicate Valid()
      reads this, Mem
    {
      Memory() && Agrees() && Counted(0)
    }

    /** Would storing `n` more bytes need a chunk that is neither in the ring nor free? */
    predicate NeedsMap(n: nat)
      reads this
      requires |chunks| >= 1
    {
      var here := idx / CHUNK;
      var there := (idx + n) / CHUNK;
      var c := if there <= here then here else if there >= |chunks| then 0 else there;
      c < |chunks| && chunks[c].Nil? && freeChunks == []
    }

    /** `p` is in no slot of the ring and not on the free list. */
    ghost predicate Loose(p: array<byte>)
      reads this`owner, this`freeChunks
    {
      p in owner && owner[p] == -1 - |freeChunks|
    }

    /** Init for a size it accepts: whole chunks, at least one, none of them mapped yet. */
    constructor (maxBytes: nat)
      requires 0 < maxBytes < OFFSETS
      ensures Valid() && fresh(Mem) && history == [] && allocatedChunks == 0 && refused == 0
      ensures |chunks| == (if maxBytes < 1024 then 1 else maxBytes / 1024)
      ensures maxBytes >= CHUNK ==> |chunks| * CHUNK <= maxBytes
      ensures maxSlabChunks == CalcMaxSlabChunks(maxBytes, |chunks|)
      ensures nextAllocChunks == CalcInitialAllocChunks(maxSlabChunks, |chunks|)
    {
      var maxChunks := maxBytes / CHUNK;
      if maxChunks == 0 {
        maxChunks := 1;
      }
      var maxSlab := CalcMaxSlabChunks(maxBytes, maxChunks);
      maxSlabChunks := maxSlab;
      chunks := seq(maxChunks, _ => Nil);
      m, idx, gen := map[], 0, 1;
      freeChunks, allocatedChunks := [], 0;
      nextAllocChunks := CalcInitialAllocChunks(maxSlab, maxChunks);
      history, ledger, image := [], Empty(maxChunks), seq(maxChunks, _ => []);
      owner, Mem, refused := map[], {}, 0;
      new;
      OccupiedNone(chunks);
      AgreementWhenEmpty(chunks, image, history);
    }

    /** Maps a slab of `n` chunks and puts them on the empty free list. */
    method MapSlab(n: nat)
      requires Memory() && freeChunks == []
      modifies this`freeChunks, this`owner, this`Mem
      ensures Memory() && fresh(Mem - old(Mem)) && old(Mem) <= Mem
      ensures |freeChunks| == n
    {
      while |freeChunks| < n
        invariant |freeChunks| <= n
        invariant fresh(Mem - old(Mem)) && old(Mem) <= Mem
        invariant Memory()
      {
        var q := new byte[CHUNK](i => 0);
        owner := owner[q := -1 - |freeChunks|];
        freeChunks := freeChunks + [q];
        Mem := Mem + {q};
      }
    }

    /**
     getChunk: a free chunk, after mapping a slab if there is none. Slabs double up to the cap and never exceed what is
     left of the ring. Only the mapping can fail.
     */
    method GetChunk() returns (ok: bool, p: array<byte>)
      requires Memory() && Counted(0) && Occupied(chunks) < |chunks|
      modifies this`freeChunks, this`allocatedChunks, this`nextAllocChunks, this`owner, this`Mem, this`refused
      ensures Memory() && fresh(Mem - old(Mem)) && old(Mem) <= Mem
      ensures old(|freeChunks|) > 0 || old(allocatedChunks) == |chunks| ==> ok
      ensures old(allocatedChunks) <= allocatedChunks && refused == old(refused) + if ok then 0 else 1
      ensures old(|freeChunks|) > 0 || !ok ==>
                allocatedChunks == old(allocatedChunks) && nextAllocChunks == old(nextAllocChunks)
      ensures old(|freeChunks|) == 0 && ok ==>
                && allocatedChunks - old(allocatedChunks)
                   == Min(Min(old(nextAllocChunks), maxSlabChunks), |chunks| - old(allocatedChunks))
                && nextAllocChunks == Min(2 * old(nextAllocChunks), maxSlabChunks)
      ensures !ok ==> Counted(0) && freeChunks == old(freeChunks)
      ensures ok ==> Counted(1) && p in Mem && p.Length == CHUNK && Loose(p)
    {
      hide Occupied;
      if |freeChunks| == 0 {
        var maxChunks := |chunks|;
        var remaining := maxChunks - allocatedChunks;
        var slabChunks := nextAllocChunks;
        var maxSlab := maxSlabChunks;
        if slabChunks > maxSlab {
          slabChunks := maxSlab;
        }
        if slabChunks > remaining {
          slabChunks := remaining;
        }
        assert 1 <= slabChunks <= remaining;
        var mapped: bool := *;
        if !mapped {
          refused := refused + 1;
          p := new byte[0];
          return false, p;
        }
        allocatedChunks := allocatedChunks + slabChunks;
        nextAllocChunks := nextAllocChunks * 2;
        if nextAllocChunks > maxSlab {
          nextAllocChunks := maxSlab;
        }
        MapSlab(slabChunks);
      }
      var n := |freeChunks| - 1;
      p := freeChunks[n];
      freeChunks := freeChunks[..n];
      ok := true;
    }

    /** `append` on a slice whose capacity suffices writes in place, past the length. */
    static method Append(s: Slice, data: Bytes) returns (r: Slice)
      requires s.Slice? && s.len + |data| <= s.mem.Length
      modifies s.mem
      ensures r == Slice(s.mem, s.len + |data|)
      ensures s.mem[..] == Splice(old(s.mem[..]), s.len, data)
    {
      CopyInto(s.mem, s.len, data);
      r := Slice(s.mem, s.len + |data|);
    }

    /** The three appends of Set: the length fields, the key, the value. */
    static method AppendRecord(s: Slice, k: Bytes, v: Bytes) returns (r: Slice)
      requires s.Slice? && Fits(k, v) && s.len + RecordLen(k, v) <= s.mem.Length
      modifies s.mem
      ensures r == Slice(s.mem, s.len + RecordLen(k, v))
      ensures s.mem[..] == Splice(old(s.mem[..]), s.len, Record(k, v))
    {
      ghost var was := s.mem[..];
      r := Append(s, Header(k, v));
      r := Append(r, k);
      SpliceTwice(was, s.len, Header(k, v), k);
      r := Append(r, v);
      SpliceTwice(was, s.len, Header(k, v) + k, v);
    }

    /** Writes a record into `chunk`, which is slot `c` or a loose chunk for the empty slot `c`, and installs it. */
    method WriteRecord(c: nat, chunk: Slice, k: Bytes, v: Bytes)
      requires Memory() && c < |chunks| && chunk.Slice? && Fits(k, v)
      requires chunk.mem in Mem && chunk.mem.Length == CHUNK && chunk.len + RecordLen(k, v) <= CHUNK
      requires Loose(chunk.mem) || (chunks[c].Slice? && chunks[c].mem == chunk.mem)
      modifies this`chunks, this`image, this`owner, chunk.mem
      ensures Memory()
      ensures chunks == old(chunks)[c := Slice(chunk.mem, chunk.len + RecordLen(k, v))]
      ensures image == old(image)[c := Splice(old(chunk.mem[..]), chunk.len, Record(k, v))]
    {
      var filled := AppendRecord(chunk, k, v);
      chunks := chunks[c := filled];
      image := image[c := chunk.mem[..]];
      owner := owner[chunk.mem := c];
    }

    /** How many words of the map are live. */
    static method CountLive(bm: map<nat, nat>, tag: nat, at: nat) returns (newItems: nat)
      ensures newItems == |Cleaned(bm, tag, at).Keys|
    {
      ghost var kept := Cleaned(bm, tag, at).Keys;
      var keys := bm.Keys;
      newItems := 0;
      while keys != {}
        invariant keys <= bm.Keys
        invariant newItems == |kept - keys|
      {
        var h :| h in keys;
        if Live(bm[h], tag, at) {
          newItems := newItems + 1;
          assert kept - (keys - {h}) == (kept - keys) + {h};
        } else {
          assert kept - (keys - {h}) == kept - keys;
        }
        keys := keys - {h};
      }
      assert kept - {} == kept;
    }

    /** A new map of the live words. */
    static method KeepLive(bm: map<nat, nat>, tag: nat, at: nat) returns (bmNew: map<nat, nat>)
      ensures bmNew == Cleaned(bm, tag, at)
    {
      var keys := bm.Keys;
      bmNew := map[];
      while keys != {}
        invariant keys <= bm.Keys
        invariant forall h :: h in bmNew <==> h in bm && h !in keys && Live(bm[h], tag, at)
        invariant forall h | h in bmNew :: bmNew[h] == bm[h]
      {
        var h :| h in keys;
        if Live(bm[h], tag, at) {
          bmNew := bmNew[h := bm[h]];
        }
        keys := keys - {h};
      }
    }

    /** cleanLockedMap: the map is rebuilt if any of its words is dead. */
    method CleanLockedMap()
      modifies this`m
      ensures m == Cleaned(old(m), TagOfGen(gen), idx)
    {
      var newItems := CountLive(m, TagOfGen(gen), idx);
      if newItems < |m| {
        m := KeepLive(m, TagOfGen(gen), idx);
      } else {
        CleanedAll(m, TagOfGen(gen), idx);
      }
    }

    /** `at`, `newGen` and `needClean` describe the ledger's spot for `n` bytes. */
    ghost predicate Target(n: nat, at: nat, newGen: nat, needClean: bool)
      reads this`chunks, this`ledger
    {
      var s := NextSpot(ledger, n);
      && s.pos == at && at / CHUNK < |chunks| && at % CHUNK + n < CHUNK
      && newGen < WORDS && 1 <= s.epoch && TagOfGen(newGen) == TagOf(s.epoch)
      && needClean == (s.epoch != ledger.epoch)
    }

    /** `chunk` is the slice to append to for offset `at`: the slot's own memory, or a loose chunk for an empty slot. */
    ghost predicate Writable(at: nat, chunk: Slice)
      requires chunk.Slice?
      reads this`chunks, this`freeChunks, this`image, this`owner, this`Mem, chunk.mem
    {
      && at / CHUNK < |chunks| == |image| && chunk.len == at % CHUNK
      && chunk.mem in Mem && chunk.mem.Length == CHUNK
      && (if chunks[at / CHUNK].Nil? then Loose(chunk.mem) && image[at / CHUNK] == []
          else chunks[at / CHUNK].mem == chunk.mem && image[at / CHUNK] == chunk.mem[..])
    }

    /** Points `h` at offset `at`, moves the cursor behind the record, and cleans the map after a wrap. */
    method Point(k: Bytes, v: Bytes, h: nat, at: nat, newGen: nat, needClean: bool)
      requires Fits(k, v) && at < OFFSETS
      modifies this`m, this`idx, this`gen, this`ledger, this`history
      ensures gen == newGen && idx == at + RecordLen(k, v)
      ensures var m' := old(m)[h := Pack(at, newGen)];
              m == if needClean then Cleaned(m', TagOfGen(newGen), idx) else m'
      ensures ledger == Store(old(ledger), h, k, v) && history == old(history) + [Stored(h, k, v)]
    {
      gen := newGen;
      m := m[h := Pack(at, gen)];
      idx := at + RecordLen(k, v);
      ledger := Store(ledger, h, k, v);
      history := history + [Stored(h, k, v)];
      if needClean {
        CleanLockedMap();
      }
    }

    /** The end of Set: write the record into its chunk, point the hash at it, move the cursor, clean after a wrap. */
    method Commit(k: Bytes, v: Bytes, h: nat, at: nat, newGen: nat, chunk: Slice, needClean: bool)
      requires Memory() && Agrees() && Fits(k, v)
      requires chunk.Slice? && Target(RecordLen(k, v), at, newGen, needClean) && Writable(at, chunk)
      requires Counted(if chunks[at / CHUNK].Nil? then 1 else 0)
      modifies this`chunks, this`image, this`owner, this`m, this`idx, this`gen, this`ledger, this`history, chunk.mem
      ensures Valid() && |chunks| == old(|chunks|)
      ensures history == old(history) + [Stored(h, k, v)] && ledger == Store(old(ledger), h, k, v)
    {
      hide Agreement, Occupied, Cleaned, Memory, NextSpot, Store, Pack, TagOf, TagOfGen, Splice, Record;
      AgreementAfterStore(chunks, m, idx, gen, image, history, ledger, h, k, v, newGen, chunk.mem, chunk.mem[..]);
      OccupiedUpdate(chunks, at / CHUNK, Slice(chunk.mem, chunk.len + RecordLen(k, v)));
      WriteRecord(at / CHUNK, chunk, k, v);
      Point(k, v, h, at, newGen, needClean);
    }

    /**
     Where Set writes: offset, generation, and the slot's slice, truncated on entering a chunk and nil if unallocated.
     */
    method Locate(kvLen: nat) returns (at: nat, newGen: nat, chunk: Slice, needClean: bool)
      requires Memory() && Agrees() && 4 <= kvLen < CHUNK
      ensures Target(kvLen, at, newGen, needClean) && at / CHUNK < |chunks|
      ensures chunk.Nil? == chunks[at / CHUNK].Nil?
      ensures if chunk.Nil? then at % CHUNK == 0 && |image| == |chunks| && image[at / CHUNK] == []
              else Writable(at, chunk)
      ensures NeedsMap(kvLen) == (chunk.Nil? && freeChunks == [])
    {
      SpotFacts(chunks, m, idx, gen, image, history, ledger, kvLen);
      needClean := false;
      at := idx;
      newGen := gen;
      var chunkIdx := at / CHUNK;
      var chunkIdxNew := (at + kvLen) / CHUNK;
      var crossed := chunkIdxNew > chunkIdx;
      if crossed {
        if chunkIdxNew >= |chunks| {
          at := 0;
          chunkIdx := 0;
          NextGenTag(gen, ledger.epoch);
          newGen := NextGen(gen);
          needClean := true;
        } else {
          at := chunkIdxNew * CHUNK;
          chunkIdx := chunkIdxNew;
        }
      }
      chunk := chunks[chunkIdx];
      if crossed && chunk.Slice? {
        chunk := Slice(chunk.mem, 0);
      }
    }

    /** Set for a pair that fits. */
    method SetFitting(k: Bytes, v: Bytes, h: nat) returns (ok: bool)
      requires Valid() && Fits(k, v)
      modifies this, Mem
      ensures Valid() && fresh(Mem - old(Mem)) && |chunks| == old(|chunks|)
      ensures old(allocatedChunks) <= allocatedChunks <= |chunks|
      ensures refused == old(refused) + if ok then 0 else 1
      ensures !ok ==> OpensChunk(old(ledger), RecordLen(k, v))
      ensures !old(NeedsMap(RecordLen(k, v))) || old(allocatedChunks) == |chunks| ==> ok
      ensures !ok ==> history == old(history) && ledger == old(ledger)
      ensures ok ==> history == old(history) + [Stored(h, k, v)] && ledger == Store(old(ledger), h, k, v)
    {
      hide Agreement, Occupied, NextSpot, Memory, Store, OpensChunk;
      var at, newGen, chunk, needClean := Locate(4 + |k| + |v|);
      if chunk.Nil? {
        NilSlotIsRoom(chunks, at / CHUNK);
        EmptySlotOpens(chunks, m, idx, gen, image, history, ledger, 4 + |k| + |v|);
        var p;
        ok, p := GetChunk();
        if !ok {
          return false;
        }
        chunk := Slice(p, 0);
      }
      ok := true;
      Commit(k, v, h, at, newGen, chunk, needClean);
    }

    /**
     Set.  It fails exactly for a pair that is too long and for one that needs a slab to be mapped when
     that is refused, which cannot happen once all chunks are mapped; then nothing changes.  Otherwise the
     ledger gains the record.
     */
    method Set(k: Bytes, v: Bytes, h: nat) returns (ok: bool)
      requires Valid()
      modifies this, Mem
      ensures Valid() && fresh(Mem - old(Mem)) && |chunks| == old(|chunks|)
      ensures old(allocatedChunks) <= allocatedChunks <= |chunks|
      ensures refused == old(refused) + if Fits(k, v) && !ok then 1 else 0
      ensures ok <==> Fits(k, v) && refused == old(refused)
      ensures refused != old(refused) ==> OpensChunk(old(ledger), RecordLen(k, v))
      ensures !old(NeedsMap(RecordLen(k, v))) || old(allocatedChunks) == |chunks| ==> refused == old(refused)
      ensures !ok ==> history == old(history) && ledger == old(ledger)
      ensures ok ==> history == old(history) + [Stored(h, k, v)] && ledger == Store(old(ledger), h, k, v)
    {
      if |k| >= MAX_FIELD || |v| >= MAX_FIELD {
        return false;
      }
      var kvLen := 4 + |k| + |v|;
      if kvLen >= CHUNK {
        return false;
      }
      ok := SetFitting(k, v, h);
    }

    /** Del. */
    method Del(h: nat)
      requires Valid()
      modifies this`m, this`ledger, this`history
      ensures Valid() && history == old(history) + [Deleted(h)] && ledger == Delete(old(ledger), h)
    {
      hide Agreement, Occupied, Memory, Delete;
      AgreementAfterDelete(chunks, m, idx, gen, image, history, ledger, h);
      m := m - {h};
      ledger := Delete(ledger, h);
      history := history + [Deleted(h)];
    }

    /** Get: found exactly when the ledger has the key, and then its value is appended to `dst`. */
    method Get(dst: Bytes, k: Bytes, h: nat) returns (found: bool, dst': Bytes)
      requires Valid()
      ensures found == Lookup(ledger, h, k).Some?
      ensures dst' == if found then dst + Lookup(ledger, h, k).value else dst
    {
      hide Agreement, Occupied, Readable, Live, WordOffset;
      found, dst' := false, dst;
      WordFacts(chunks, m, idx, gen, image, history, ledger, h);
      var v := if h in m then m[h] else 0;
      if v > 0 && Live(v, TagOfGen(gen), idx) {
        ghost var e := ledger.index[h];
        var at := WordOffset(v);
        var chunkIdx := at / CHUNK;
        if chunkIdx >= |chunks| {
          return;
        }
        found, dst' := ReadRecord(chunks[chunkIdx].mem, at % CHUNK, dst, k, e.key, e.val);
      }
    }

    /** putChunk. */
    method PutChunk(s: Slice)
      modifies this`freeChunks
      ensures freeChunks == if s.Nil? then old(freeChunks) else old(freeChunks) + [s.mem]
    {
      if s.Slice? {
        freeChunks := freeChunks + [s.mem];
      }
    }

    /** Moves the chunk of slot `i` to the free list. */
    method ReleaseSlot(i: nat)
      requires Memory() && i < |chunks|
      modifies this`chunks, this`freeChunks, this`image, this`owner
      ensures Memory() && chunks == old(chunks)[i := Nil]
      ensures |freeChunks| + Occupied(chunks) == old(|freeChunks| + Occupied(chunks))
    {
      OccupiedUpdate(chunks, i, Nil);
      if chunks[i].Slice? {
        owner := owner[chunks[i].mem := -1 - |freeChunks|];
      }
      PutChunk(chunks[i]);
      chunks := chunks[i := Nil];
      image := image[i := []];
    }

    /** The loop of Reset: every chunk goes back to the free list. */
    method ReleaseAll()
      requires Memory()
      modifies this`chunks, this`freeChunks, this`image, this`owner
      ensures Memory() && |chunks| == |image| == old(|chunks|)
      ensures forall j | 0 <= j < |chunks| :: chunks[j].Nil?
      ensures |freeChunks| == old(|freeChunks| + Occupied(chunks))
    {
      hide Memory, Occupied;
      var i := 0;
      while i < |chunks|
        invariant i <= |chunks| == old(|chunks|)
        invariant Memory()
        invariant forall j | 0 <= j < i :: chunks[j].Nil?
        invariant |freeChunks| + Occupied(chunks) == old(|freeChunks| + Occupied(chunks))
      {
        ReleaseSlot(i);
        i := i + 1;
      }
      OccupiedNone(chunks);
      MemoryParts();
    }

    /** The rest of Reset: an empty map, and writing starts at 0 in generation 1. */
    method StartOver()
      requires |chunks| >= 1 && maxSlabChunks >= 1
      modifies this`m, this`idx, this`gen, this`nextAllocChunks, this`history, this`ledger
      ensures m == map[] && idx == 0 && gen == 1
      ensures nextAllocChunks == CalcInitialAllocChunks(maxSlabChunks, |chunks|) >= 1
      ensures history == old(history) + [Cleared] && ledger == Empty(|chunks|)
    {
      m, idx, gen := map[], 0, 1;
      nextAllocChunks := CalcInitialAllocChunks(maxSlabChunks, |chunks|);
      history := history + [Cleared];
      ledger := Empty(|chunks|);
    }

    /** Reset: nothing is unmapped, and the bucket is empty. */
    method Reset()
      requires Valid()
      modifies this
      ensures Valid() && Mem == old(Mem) && |chunks| == old(|chunks|)
      ensures history == old(history) + [Cleared] && ledger == Empty(|chunks|)
      ensures allocatedChunks == old(allocatedChunks) && |freeChunks| == allocatedChunks && refused == old(refused)
      ensures maxSlabChunks == old(maxSlabChunks)
      ensures nextAllocChunks == CalcInitialAllocChunks(maxSlabChunks, |chunks|)
    {
      hide Memory, Agreement, Occupied;
      AgreementParts(chunks, m, idx, gen, image, history, ledger);
      ReleaseAll();
      AgreementAfterReset(chunks, image, history);
      StartOver();
    }

    /** What a valid bucket promises to code that only knows the ledger. */
    lemma LedgerIsReplay()
      requires Valid()
      ensures Ok(ledger) && HistoryOk(history) && 1 <= |chunks| && ledger == Replay(|chunks|, history)
    {
    }

    /**
     What Get returns, in terms of the calls made on this bucket: never stale, and there exactly while it is retained.
     */
    lemma {:induction false} GetByHistory(hash: Bytes -> nat, k: Bytes, v: Bytes)
      requires Valid() && HashedBy(history, hash)
      ensures Lookup(ledger, hash(k), k) == Some(v) ==> LatestSet(history, hash(k), k) == Some(v)
      ensures Lookup(ledger, hash(k), k) == Some(v)
         <==> exists i: nat :: Retained(|chunks|, history, i) && history[i] == Stored(hash(k), k, v)
    {
      hide Replay, Lookup, LatestSet, Retained, Memory, Agreement;
      LedgerIsReplay();
      HitIsLatest(|chunks|, history, hash, k);
      FoundIffRetained(|chunks|, history, hash(k), k, v);
    }

    /** What the bucket is sure to hold: a value until later Sets have filled the other chunks. */
    lemma HoldsRecent(i: nat, n: nat)
      requires Valid() && i < |history| && history[i].Stored? && n < 1024 && Small(history[i + 1..], n)
      requires forall j | i < j < |history| :: !Touches(history[j], history[i].h)
      requires Volume(history[i + 1..]) <= (|chunks| - 1) * (1024 - n)
      ensures Lookup(ledger, history[i].h, history[i].key) == Some(history[i].val)
    {
      LedgerIsReplay();
      hide Valid, Replay, Volume, Small, Touches, Lookup;
      RingHolds(|chunks|, history, i, n);
    }

    lemma MemoryParts()
      requires Memory()
      ensures |image| == |chunks|
    {
    }
  }

  /** Init: refuses an empty bucket and one whose offsets would not fit the index word. */
  method Init(maxBytes: nat) returns (b: Option<Bucket>)
    ensures b.Some? <==> 0 < maxBytes < OFFSETS
    ensures b.Some? ==>
              fresh(b.value) && fresh(b.value.Mem) && b.value.Valid() && b.value.history == [] && b.value.refused == 0
    ensures b.Some? ==> |b.value.chunks| == if maxBytes < 1024 then 1 else maxBytes / 1024
    ensures b.Some? && maxBytes >= CHUNK ==> |b.value.chunks| * CHUNK <= maxBytes
    ensures b.Some? ==>
              && b.value.maxSlabChunks == CalcMaxSlabChunks(maxBytes, |b.value.chunks|)
              && b.value.nextAllocChunks == CalcInitialAllocChunks(b.value.maxSlabChunks, |b.value.chunks|)
  {
    if maxBytes == 0 || maxBytes >= OFFSETS {
      return None;
    }
    var bucket := new Bucket(maxBytes);
    b := Some(bucket);
  }
}
