/**
 How a bucket lays records out in its chunks: two big-endian 16-bit lengths, the key, the
 value, all inside one chunk.  `Image` stands for the bytes of the whole ring, one sequence
 per chunk, with `[]` for a chunk that is not allocated.
 */
module RecordLayout {
  import opened Prelude
  import opened RingLedger

  type Image = seq<Bytes>

  function Header(k: Bytes, v: Bytes): (r: Bytes)
    requires Fits(k, v)
    ensures |r| == 4 && 256 * (r[0] as int) + r[1] as int == |k| && 256 * (r[2] as int) + r[3] as int == |v|
  {
    [|k| / 256, |k| % 256, |v| / 256, |v| % 256]
  }

  function Record(k: Bytes, v: Bytes): (r: Bytes)
    requires Fits(k, v)
    ensures |r| == RecordLen(k, v)
  {
    Header(k, v) + k + v
  }

  ghost predicate HoldsAt(chunk: Bytes, at: nat, k: Bytes, v: Bytes) {
    Fits(k, v) && at + RecordLen(k, v) <= |chunk| && chunk[at..at + RecordLen(k, v)] == Record(k, v)
  }

  ghost predicate HoldsEntry(image: Image, e: Entry) {
    e.pos / CHUNK < |image| && HoldsAt(image[e.pos / CHUNK], e.pos % CHUNK, e.key, e.val)
  }

  /** Every readable record of the ledger is in the image, byte for byte. */
  ghost predicate Records(image: Image, l: Ledger) {
    forall h | h in l.index && Readable(l, l.index[h]) :: HoldsEntry(image, l.index[h])
  }

  function BigEndian16(hi: byte, lo: byte): nat {
    (hi as int) * 256 + lo as int
  }

  /** What Get parses at a record is the key and value that were written. */
  lemma ParseRecord(chunk: Bytes, at: nat, k: Bytes, v: Bytes)
    requires HoldsAt(chunk, at, k, v)
    ensures BigEndian16(chunk[at], chunk[at + 1]) == |k|
    ensures BigEndian16(chunk[at + 2], chunk[at + 3]) == |v|
    ensures chunk[at + 4..at + 4 + |k|] == k
    ensures chunk[at + 4 + |k|..at + 4 + |k| + |v|] == v
  {
    var r := Record(k, v);
    var s := chunk[at..at + RecordLen(k, v)];
    assert forall i | 0 <= i < |s| :: chunk[at + i] == s[i] == r[i];
    assert r[0] == |k| / 256 && r[1] == |k| % 256 && r[2] == |v| / 256 && r[3] == |v| % 256;
    assert chunk[at + 0] == r[0];
    assert k == r[4..4 + |k|] == chunk[at + 4..at + 4 + |k|];
    assert v == r[4 + |k|..] == chunk[at + 4 + |k|..at + 4 + |k| + |v|];
  }

  /** A record that ends before, or starts after, the bytes that changed is still there. */
  lemma HoldsApart(chunk: Bytes, chunk': Bytes, at: nat, n: nat, pos: nat, k: Bytes, v: Bytes)
    requires |chunk'| == |chunk| && at + n <= |chunk|
    requires forall i :: 0 <= i < at || at + n <= i < |chunk| ==> chunk'[i] == chunk[i]
    requires HoldsAt(chunk, pos, k, v)
    requires pos + RecordLen(k, v) <= at || at + n <= pos
    ensures HoldsAt(chunk', pos, k, v)
  {
    assert chunk'[pos..pos + RecordLen(k, v)] == chunk[pos..pos + RecordLen(k, v)];
  }

  /**
   Writing the record of a store at its spot leaves every record that is still readable
   afterwards in place.  `chunk'` is the chunk after the write; nothing is known of the
   chunk before it if that chunk was not allocated.
   */
  lemma RecordsAfterStore(image: Image, l: Ledger, h: nat, k: Bytes, v: Bytes, chunk': Bytes)
    requires Ok(l) && Fits(k, v) && |image| == l.slots && Records(image, l)
    requires var s, n := NextSpot(l, RecordLen(k, v)), RecordLen(k, v);
             && |chunk'| == CHUNK
             && s.pos / CHUNK < |image|
             && HoldsAt(chunk', s.pos % CHUNK, k, v)
             && (image[s.pos / CHUNK] == []
                 || (|image[s.pos / CHUNK]| == CHUNK
                     && (forall i :: (0 <= i < s.pos % CHUNK || s.pos % CHUNK + n <= i < CHUNK) ==>
                           chunk'[i] == image[s.pos / CHUNK][i])))
    ensures var s := NextSpot(l, RecordLen(k, v));
            Records(image[s.pos / CHUNK := chunk'], Store(l, h, k, v))
  {
    var s, n, l' := NextSpot(l, RecordLen(k, v)), RecordLen(k, v), Store(l, h, k, v);
    var c := s.pos / CHUNK;
    SpotInRing(l, n);
    forall g | g in l'.index && Readable(l', l'.index[g])
      ensures HoldsEntry(image[c := chunk'], l'.index[g])
    {
      if g != h {
        var e := l.index[g];
        assert EntryOk(l, e);
        StoreOnlyExpires(l, h, k, v, e);
        assert HoldsEntry(image, e);
        if e.pos / CHUNK == c {
          HoldsApart(image[c], chunk', s.pos % CHUNK, n, e.pos % CHUNK, e.key, e.val);
        }
      }
    }
  }

  /** Get, once the word is known to be live: parse the lengths, compare the key, append the value. */
  method ReadRecord(chunk: array<byte>, at: nat, dst: Bytes, k: Bytes, ghost key: Bytes, ghost val: Bytes)
      returns (found: bool, dst': Bytes)
    requires chunk.Length == CHUNK && at + RecordLen(key, val) < CHUNK && HoldsAt(chunk[..], at, key, val)
    ensures found == (k == key)
    ensures dst' == if found then dst + val else dst
  {
    ParseRecord(chunk[..], at, key, val);
    found, dst' := false, dst;
    if at + 4 >= CHUNK {
      return;
    }
    var keyLen := BigEndian16(chunk[at], chunk[at + 1]);
    var valLen := BigEndian16(chunk[at + 2], chunk[at + 3]);
    var from := at + 4;
    if from + keyLen + valLen >= CHUNK {
      return;
    }
    assert chunk[from..from + keyLen] == chunk[..][from..from + keyLen];
    if k == chunk[from..from + keyLen] {
      from := from + keyLen;
      assert chunk[from..from + valLen] == chunk[..][from..from + valLen];
      dst' := dst + chunk[from..from + valLen];
      found := true;
    }
  }
}
