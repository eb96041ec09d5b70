/**
 The packed index words of a bucket: 40 bits of offset and 24 bits of generation tag, where
 the tag takes the values 1 to 2^24 - 1 in turn and never 0.  Machine words are natural
 numbers below 2^64; shifts and masks are written as multiplication, division and modulus.
 */
module GenerationTags {
  import opened Prelude
  import opened RingLedger

  const OFFSETS: nat := 0x100_0000_0000
  const TAGS: nat := 0x100_0000
  const MAX_TAG: nat := TAGS - 1
  const WORDS: nat := 0x1_0000_0000_0000_0000

  /** The tag of the generation counted without bound. */
  function TagOf(epoch: nat): (t: nat)
    requires 1 <= epoch
    ensures 1 <= t <= MAX_TAG
  {
    (epoch - 1) % MAX_TAG + 1
  }

  function TagOfGen(gen: nat): nat {
    gen % TAGS
  }

  /** `b.gen++`, once more if the tag came out as 0, on a 64-bit word. */
  function NextGen(gen: nat): nat {
    var g := (gen + 1) % WORDS;
    if TagOfGen(g) == 0 then (g + 1) % WORDS else g
  }

  /** `idx | (gen << 40)` on a 64-bit word, for an offset below 2^40. */
  function Pack(idx: nat, gen: nat): nat
    requires idx < OFFSETS
  {
    idx + (gen * OFFSETS) % WORDS
  }

  function WordTag(w: nat): nat {
    w / OFFSETS
  }

  function WordOffset(w: nat): nat {
    w % OFFSETS
  }

  /** The test Get and cleanLockedMap apply to a word, given the bucket's tag and cursor. */
  predicate Live(w: nat, tag: nat, cursor: nat) {
    var t, o := WordTag(w), WordOffset(w);
    (t == tag && o < cursor) || (t + 1 == tag && o >= cursor) || (t == MAX_TAG && tag == 1 && o >= cursor)
  }

  lemma PackParts(idx: nat, gen: nat)
    requires idx < OFFSETS
    ensures Pack(idx, gen) == idx + TagOfGen(gen) * OFFSETS == idx + (gen % 0x100_0000) * 0x100_0000_0000
    ensures WordTag(Pack(idx, gen)) == TagOfGen(gen) && WordOffset(Pack(idx, gen)) == idx
    ensures Pack(idx, gen) < WORDS
  {
    var q := gen / TAGS;
    assert gen * OFFSETS == q * WORDS + TagOfGen(gen) * OFFSETS;
    assert 0 <= TagOfGen(gen) * OFFSETS < WORDS;
    ModOfSum(q, TagOfGen(gen) * OFFSETS);
  }

  lemma ModOfSum(q: nat, r: nat)
    requires r < WORDS
    ensures (q * WORDS + r) % WORDS == r
  {
  }

  lemma TagSuccessor(epoch: nat)
    requires 1 <= epoch
    ensures TagOf(epoch + 1) == if TagOf(epoch) == MAX_TAG then 1 else TagOf(epoch) + 1
  {
  }

  /** Adding 1 to a word adds 1 to its tag: 2^24 divides 2^64. */
  lemma GenSuccessor(gen: nat)
    requires gen < WORDS
    ensures TagOfGen((gen + 1) % WORDS) == if TagOfGen(gen) == MAX_TAG then 0 else TagOfGen(gen) + 1
  {
    var q, r := gen / TAGS, gen % TAGS;
    assert gen == q * TAGS + r;
    if gen + 1 == WORDS {
      assert r == MAX_TAG;
    } else if r == MAX_TAG {
      assert gen + 1 == (q + 1) * TAGS + 0;
      ModOf(q + 1, 0);
    } else {
      assert gen + 1 == q * TAGS + (r + 1);
      ModOf(q, r + 1);
    }
  }

  lemma ModOf(q: nat, r: nat)
    requires r < TAGS
    ensures (q * TAGS + r) % TAGS == r
  {
  }

  /** The 64-bit counter and the unbounded one step together, across both kinds of overflow. */
  lemma NextGenTag(gen: nat, epoch: nat)
    requires gen < WORDS && 1 <= epoch && TagOfGen(gen) == TagOf(epoch)
    ensures NextGen(gen) < WORDS && TagOfGen(NextGen(gen)) == TagOf(epoch + 1)
  {
    TagSuccessor(epoch);
    GenSuccessor(gen);
    hide TagOf, TagOfGen;
    var g := (gen + 1) % WORDS;
    assert g < WORDS;
    GenSuccessor(g);
    if TagOfGen(gen) == MAX_TAG {
      assert TagOfGen(g) == 0;
    }
  }

  /**
   The map agrees with the ledger: every word is that of its hash's last record, no older than
   `back` generations, and no readable record is missing.
   */
  ghost predicate Indexed(m: map<nat, nat>, l: Ledger, back: nat) {
    && (forall h | h in m ::
          && h in l.index && 1 <= l.index[h].epoch
          && l.index[h].pos < OFFSETS
          && m[h] == l.index[h].pos + TagOf(l.index[h].epoch) * OFFSETS
          && l.index[h].epoch + back >= l.epoch)
    && (forall h | h in l.index && Readable(l, l.index[h]) :: h in m)
  }

  /** Tags never alias: over three consecutive generations the 24-bit test decides exactly readability. */
  lemma {:induction false} LiveIffReadable(m: map<nat, nat>, l: Ledger, back: nat, h: nat)
    requires Ok(l) && back <= 2 && Indexed(m, l, back) && h in m
    ensures Live(m[h], TagOf(l.epoch), l.cursor) <==> Readable(l, l.index[h])
    ensures WordOffset(m[h]) == l.index[h].pos && m[h] > 0
  {
    var e := l.index[h];
    assert EntryOk(l, e);
    assert WordTag(m[h]) == TagOf(e.epoch) && WordOffset(m[h]) == e.pos;
    TagSuccessor(e.epoch);
    TagSuccessor(e.epoch + 1);
    assert l.epoch == e.epoch || l.epoch == e.epoch + 1 || l.epoch == e.epoch + 2;
  }

  /** Storing under `h` and pointing `h` at the new record; at a wrap the oldest words fall two generations back. */
  lemma IndexedAfterStore(m: map<nat, nat>, l: Ledger, h: nat, k: Bytes, v: Bytes, gen': nat)
    requires Ok(l) && Fits(k, v) && Indexed(m, l, 1) && l.slots * CHUNK <= OFFSETS
    requires TagOfGen(gen') == TagOf(NextSpot(l, RecordLen(k, v)).epoch)
    ensures var s := NextSpot(l, RecordLen(k, v));
            s.pos < OFFSETS
            && Indexed(m[h := Pack(s.pos, gen')], Store(l, h, k, v), if s.epoch == l.epoch then 1 else 2)
  {
    var s, l' := NextSpot(l, RecordLen(k, v)), Store(l, h, k, v);
    SpotInRing(l, RecordLen(k, v));
    PackParts(s.pos, gen');
    var m' := m[h := Pack(s.pos, gen')];
    forall g | g in l'.index && Readable(l', l'.index[g]) ensures g in m' {
      if g != h {
        assert EntryOk(l, l.index[g]);
        StoreOnlyExpires(l, h, k, v, l.index[g]);
      }
    }
  }

  /** The words cleanLockedMap keeps. */
  function Cleaned(m: map<nat, nat>, tag: nat, cursor: nat): map<nat, nat> {
    map h | h in m && Live(m[h], tag, cursor) :: m[h]
  }

  /** Cleaning right after a wrap drops no readable record and leaves only the last two generations. */
  lemma {:induction false} CleanedIndexed(m: map<nat, nat>, l: Ledger, back: nat)
    requires Ok(l) && back <= 2 && Indexed(m, l, back)
    ensures Indexed(Cleaned(m, TagOf(l.epoch), l.cursor), l, 1)
    ensures forall h | h in Cleaned(m, TagOf(l.epoch), l.cursor) :: Readable(l, l.index[h])
  {
    forall h | h in m ensures Live(m[h], TagOf(l.epoch), l.cursor) <==> Readable(l, l.index[h]) {
      LiveIffReadable(m, l, back, h);
    }
  }
}
