/**
 The binary form of a STUMP, which is that of BRC-74: block height, tree height, and per level the number of leaves and
 each leaf's offset, flag and hash, with integers in Bitcoin's CompactSize form.
 */
module StumpCodec {
  import opened Prelude
  import opened StumpSpec

  const U64: nat := 0x1_0000_0000_0000_0000
  const FLAG_HASH: byte := 0
  const FLAG_DUPLICATE: byte := 1
  const FLAG_TXID: byte := 2

  // ---------------------------------------------------------------- integers

  function LittleEndian(v: nat, n: nat): (r: Bytes)
    ensures |r| == n
  {
    if n == 0 then [] else [v % 256] + LittleEndian(v / 256, n - 1)
  }

  function FromLittleEndian(b: Bytes): nat {
    if b == [] then 0 else b[0] as int + 256 * FromLittleEndian(b[1..])
  }

  /** 256 to the power `n`. */
  function Bound(n: nat): (r: nat)
    ensures r >= 1
  {
    if n == 0 then 1 else 256 * Bound(n - 1)
  }

  lemma {:induction false} LittleEndianInverse(v: nat, n: nat)
    requires v < Bound(n)
    ensures FromLittleEndian(LittleEndian(v, n)) == v
  {
    if n == 0 {
    } else {
      LittleEndianInverse(v / 256, n - 1);
      assert LittleEndian(v, n)[1..] == LittleEndian(v / 256, n - 1);
    }
  }

  /** appendCompactSize. */
  function CompactSize(v: nat): Bytes
    requires v < U64
  {
    if v < 253 then [v]
    else if v <= 0xFFFF then [0xFD] + LittleEndian(v, 2)
    else if v <= 0xFFFF_FFFF then [0xFE] + LittleEndian(v, 4)
    else [0xFF] + LittleEndian(v, 8)
  }

  datatype Parsed<T> = Malformed | Parsed(value: T, rest: Bytes)

  /** readCompactSize: malformed if the data ends inside the integer. */
  function ReadCompactSize(data: Bytes): Parsed<nat> {
    if data == [] then Malformed
    else
      var n := if data[0] < 0xFD then 0 else if data[0] == 0xFD then 2 else if data[0] == 0xFE then 4 else 8;
      if |data| < 1 + n then Malformed
      else Parsed(if n == 0 then data[0] as int else FromLittleEndian(data[1..1 + n]), data[1 + n..])
  }

  lemma CompactSizeInverse(v: nat, tail: Bytes)
    requires v < U64
    ensures ReadCompactSize(CompactSize(v) + tail) == Parsed(v, tail)
  {
    var n := if v < 253 then 0 else if v <= 0xFFFF then 2 else if v <= 0xFFFF_FFFF then 4 else 8;
    var data := CompactSize(v) + tail;
    assert Bound(2) == 0x1_0000 && Bound(4) == 0x1_0000_0000 && Bound(8) == U64;
    if n > 0 {
      assert data[1..1 + n] == LittleEndian(v, n);
      LittleEndianInverse(v, n);
    }
    assert data[1 + n..] == tail;
  }

  // ---------------------------------------------------------------- encoding

  function Flag(l: Leaf): byte {
    if l.duplicate then FLAG_DUPLICATE else if l.txid then FLAG_TXID else FLAG_HASH
  }

  function EncodeLeaf(l: Leaf): Bytes
    requires l.offset < U64
  {
    CompactSize(l.offset) + [Flag(l)] + if l.duplicate then [] else l.hash
  }

  ghost predicate OffsetsFit(ls: seq<Leaf>) {
    forall i | 0 <= i < |ls| :: ls[i].offset < U64
  }

  function EncodeLeaves(ls: seq<Leaf>): Bytes
    requires OffsetsFit(ls)
  {
    if ls == [] then [] else EncodeLeaf(ls[0]) + EncodeLeaves(ls[1..])
  }

  /** What fits the integers of the format. */
  ghost predicate LevelFits(ls: seq<Leaf>) {
    |ls| < U64 && OffsetsFit(ls)
  }

  ghost predicate AllFit(paths: seq<seq<Leaf>>) {
    forall k | 0 <= k < |paths| :: LevelFits(paths[k])
  }

  function EncodeLevels(paths: seq<seq<Leaf>>): Bytes
    requires AllFit(paths)
  {
    if paths == [] then []
    else
      assert LevelFits(paths[0]);
      CompactSize(|paths[0]|) + EncodeLeaves(paths[0]) + EncodeLevels(paths[1..])
  }

  ghost predicate Fits(s: Stump) {
    && s.blockHeight < U64 && s.treeHeight < 256
    && AllFit(s.paths)
  }

  function EncodeStump(s: Stump): Bytes
    requires Fits(s)
  {
    CompactSize(s.blockHeight) + [s.treeHeight] + EncodeLevels(s.paths)
  }

  lemma {:induction false} EncodeLeavesSnoc(ls: seq<Leaf>, l: Leaf)
    requires l.offset < U64 && OffsetsFit(ls)
    ensures EncodeLeaves(ls + [l]) == EncodeLeaves(ls) + EncodeLeaf(l)
  {
    hide EncodeLeaf, EncodeLeaves;
    NoLeaves();
    LeavesSplit(ls + [l]);
    if ls == [] {
      assert (ls + [l])[1..] == [];
    } else {
      LeavesSplit(ls);
      assert (ls + [l])[1..] == ls[1..] + [l];
      EncodeLeavesSnoc(ls[1..], l);
    }
  }

  lemma LeavesSplit(ls: seq<Leaf>)
    requires OffsetsFit(ls) && ls != []
    ensures OffsetsFit(ls[1..]) && EncodeLeaves(ls) == EncodeLeaf(ls[0]) + EncodeLeaves(ls[1..])
  {
    hide EncodeLeaf;
  }

  lemma {:induction false} EncodeLevelsSnoc(paths: seq<seq<Leaf>>, ls: seq<Leaf>)
    requires LevelFits(ls) && AllFit(paths)
    ensures AllFit(paths + [ls])
    ensures EncodeLevels(paths + [ls]) == EncodeLevels(paths) + CompactSize(|ls|) + EncodeLeaves(ls)
  {
    hide CompactSize, EncodeLeaves, LevelFits;
    if paths == [] {
      assert [] + [ls] == [ls];
    } else {
      assert (paths + [ls])[1..] == paths[1..] + [ls];
      EncodeLevelsSnoc(paths[1..], ls);
      LevelsSplit(paths);
      LevelsSplit(paths + [ls]);
    }
  }

  lemma LevelsSplit(paths: seq<seq<Leaf>>)
    requires AllFit(paths) && paths != []
    ensures LevelFits(paths[0]) && AllFit(paths[1..])
    ensures EncodeLevels(paths) == CompactSize(|paths[0]|) + EncodeLeaves(paths[0]) + EncodeLevels(paths[1..])
  {
    hide CompactSize, EncodeLeaves;
  }

  /** The inner loop of Encode. */
  method AppendLeaves(head: Bytes, ls: seq<Leaf>) returns (buf: Bytes)
    requires OffsetsFit(ls)
    ensures buf == head + EncodeLeaves(ls)
  {
    hide CompactSize, EncodeLeaves;
    buf := head;
    var j := 0;
    NoLeaves();
    while j < |ls|
      invariant 0 <= j <= |ls|
      invariant buf == head + EncodeLeaves(ls[..j])
    {
      var leaf := ls[j];
      EncodeLeavesSnoc(ls[..j], leaf);
      assert ls[..j + 1] == ls[..j] + [leaf];
      ghost var before := buf;
      buf := buf + CompactSize(leaf.offset);
      var flags: byte := FLAG_HASH;
      if leaf.duplicate {
        flags := FLAG_DUPLICATE;
      } else if leaf.txid {
        flags := FLAG_TXID;
      }
      buf := buf + [flags];
      if !leaf.duplicate {
        buf := buf + leaf.hash;
      }
      assert buf == before + EncodeLeaf(leaf);
      j := j + 1;
    }
    assert ls[..j] == ls;
  }

  lemma NoLeaves()
    ensures EncodeLeaves([]) == [] && EncodeLevels([]) == []
  {
  }

  /** Encode: appends to the buffer level by level and leaf by leaf. */
  method Encode(s: Stump) returns (buf: Bytes)
    requires Fits(s)
    ensures buf == EncodeStump(s)
  {
    hide CompactSize, EncodeLeaves, EncodeLevels;
    buf := CompactSize(s.blockHeight);
    buf := buf + [s.treeHeight];
    ghost var head := buf;
    var k := 0;
    NoLeaves();
    while k < |s.paths|
      invariant 0 <= k <= |s.paths|
      invariant buf == head + EncodeLevels(s.paths[..k])
    {
      var ls := s.paths[k];
      assert LevelFits(ls) && AllFit(s.paths[..k]);
      EncodeLevelsSnoc(s.paths[..k], ls);
      assert s.paths[..k + 1] == s.paths[..k] + [ls];
      buf := buf + CompactSize(|ls|);
      buf := AppendLeaves(buf, ls);
      k := k + 1;
    }
    assert s.paths[..k] == s.paths;
  }

  // ---------------------------------------------------------------- the bytes on the wire

  /** The number a little-endian byte sequence stands for, written out. */
  function Number(b: Bytes): nat
    requires |b| == 2 || |b| == 4 || |b| == 8
  {
    b[0] as int + 0x100 * b[1] as int
    + (if |b| >= 4 then 0x1_0000 * b[2] as int + 0x100_0000 * b[3] as int else 0)
    + (if |b| >= 8 then 0x1_0000_0000 * b[4] as int + 0x100_0000_0000 * b[5] as int
         + 0x1_0000_0000_0000 * b[6] as int + 0x100_0000_0000_0000 * b[7] as int
       else 0)
  }

  lemma {:induction false} FromLittleEndianSplit(b: Bytes, n: nat)
    requires n <= |b|
    ensures FromLittleEndian(b) == FromLittleEndian(b[..n]) + Bound(n) * FromLittleEndian(b[n..])
  {
    if n == 0 {
      assert b[n..] == b;
    } else {
      FromLittleEndianSplit(b[1..], n - 1);
      assert b[1..][..n - 1] == b[..n][1..] && b[1..][n - 1..] == b[n..];
      FirstByte(b);
      FirstByte(b[..n]);
      assert Bound(n) == 256 * Bound(n - 1);
      hide FromLittleEndian, Bound;
      Shifted(FromLittleEndian(b[..n][1..]), Bound(n - 1), FromLittleEndian(b[n..]));
    }
  }

  lemma FirstByte(b: Bytes)
    requires b != []
    ensures FromLittleEndian(b) == b[0] as int + 256 * FromLittleEndian(b[1..])
  {
  }

  lemma Shifted(low: nat, bound: nat, high: nat)
    ensures 256 * (low + bound * high) == 256 * low + (256 * bound) * high
  {
  }

  lemma TwoBytes(b: Bytes)
    requires |b| == 2
    ensures FromLittleEndian(b) == b[0] as int + 0x100 * b[1] as int
  {
    var t := b[1..];
    assert t[1..] == [] && FromLittleEndian(t) == t[0] as int + 256 * FromLittleEndian(t[1..]);
  }

  lemma FourBytes(b: Bytes)
    requires |b| == 4
    ensures FromLittleEndian(b) == Number(b)
  {
    FromLittleEndianSplit(b, 2);
    TwoBytes(b[..2]);
    TwoBytes(b[2..]);
    assert Bound(2) == 0x1_0000;
  }

  lemma NumberIs(b: Bytes)
    requires |b| == 2 || |b| == 4 || |b| == 8
    ensures FromLittleEndian(b) == Number(b)
  {
    if |b| == 2 {
      TwoBytes(b);
    } else if |b| == 4 {
      FourBytes(b);
    } else {
      FromLittleEndianSplit(b, 4);
      FourBytes(b[..4]);
      FourBytes(b[4..]);
      assert Bound(4) == 0x1_0000_0000;
    }
  }

  /** CompactSize on the wire: the shortest of four forms, 1, 3, 5 or 9 bytes, told apart by the first byte. */
  lemma CompactSizeBytes(v: nat)
    requires v < U64
    ensures v <= 252 ==> CompactSize(v) == [v]
    ensures 253 <= v <= 0xFFFF ==>
              |CompactSize(v)| == 3 && CompactSize(v)[0] == 0xFD && Number(CompactSize(v)[1..]) == v
    ensures 0x1_0000 <= v <= 0xFFFF_FFFF ==>
              |CompactSize(v)| == 5 && CompactSize(v)[0] == 0xFE && Number(CompactSize(v)[1..]) == v
    ensures 0x1_0000_0000 <= v ==>
              |CompactSize(v)| == 9 && CompactSize(v)[0] == 0xFF && Number(CompactSize(v)[1..]) == v
  {
    if v > 252 {
      var n := if v <= 0xFFFF then 2 else if v <= 0xFFFF_FFFF then 4 else 8;
      assert Bound(2) == 0x1_0000 && Bound(4) == 0x1_0000_0000 && Bound(8) == U64;
      LittleEndianInverse(v, n);
      NumberIs(LittleEndian(v, n));
      hide LittleEndian, Number, FromLittleEndian;
      assert CompactSize(v)[1..] == LittleEndian(v, n);
    }
  }

  /** A leaf on the wire: its offset; 1 for a duplicate, 2 for a txid, 0 otherwise; and its hash unless duplicate. */
  lemma LeafBytes(l: Leaf)
    requires l.offset < U64
    ensures var b, n := EncodeLeaf(l), |CompactSize(l.offset)|;
            && |b| > n && b[..n] == CompactSize(l.offset)
            && b[n] == (if l.duplicate then 1 else if l.txid then 2 else 0)
            && b[n + 1..] == if l.duplicate then [] else l.hash
  {
    hide CompactSize;
  }

  /** A STUMP on the wire: block height, one byte of tree height, then per level the number of leaves and the leaves. */
  lemma StumpBytes(s: Stump)
    requires Fits(s)
    ensures var b, n := EncodeStump(s), |CompactSize(s.blockHeight)|;
            && |b| > n && b[..n] == CompactSize(s.blockHeight) && b[n] == s.treeHeight
            && b[n + 1..] == EncodeLevels(s.paths)
    ensures s.paths == [] ==> EncodeLevels(s.paths) == []
    ensures forall ls, rest | s.paths == [ls] + rest ::
              && LevelFits(ls) && AllFit(rest)
              && EncodeLevels(s.paths) == CompactSize(|ls|) + EncodeLeaves(ls) + EncodeLevels(rest)
  {
    hide CompactSize, EncodeLeaves;
    forall ls, rest | s.paths == [ls] + rest
      ensures LevelFits(ls) && AllFit(rest)
      ensures EncodeLevels(s.paths) == CompactSize(|ls|) + EncodeLeaves(ls) + EncodeLevels(rest)
    {
      LevelsSplit(s.paths);
      assert s.paths[0] == ls && s.paths[1..] == rest;
    }
  }

  /** For example: block 7, two leaves, the first a registered txid. */
  lemma TwoLeafExample(a: Bytes, b: Bytes)
    requires |a| == 32 && |b| == 32
    ensures var s := Stump(7, 1, [[Leaf(0, a, true, false), Leaf(1, b, false, false)]]);
            Fits(s) && EncodeStump(s) == [7, 1, 2, 0, 2] + a + [1, 0] + b
  {
    var x, y := Leaf(0, a, true, false), Leaf(1, b, false, false);
    assert [x, y][1..] == [y] && [y][1..] == [] && [[x, y]][1..] == [];
    assert EncodeLeaves([y]) == EncodeLeaf(y) + EncodeLeaves([]);
    assert EncodeLeaves([x, y]) == EncodeLeaf(x) + EncodeLeaves([y]);
    assert AllFit([[x, y]]);
    assert EncodeLevels([[x, y]]) == CompactSize(2) + EncodeLeaves([x, y]) + EncodeLevels([]);
  }

  // ---------------------------------------------------------------- decoding

  function DecodeLeaf(data: Bytes): Parsed<Leaf> {
    var off := ReadCompactSize(data);
    if off.Malformed? || off.rest == [] then Malformed
    else
      var flag, rest := off.rest[0], off.rest[1..];
      if flag == FLAG_DUPLICATE then Parsed(Leaf(off.value, [], false, true), rest)
      else if flag != FLAG_HASH && flag != FLAG_TXID then Malformed
      else if |rest| < 32 then Malformed
      else Parsed(Leaf(off.value, rest[..32], flag == FLAG_TXID, false), rest[32..])
  }

  function DecodeLeaves(data: Bytes, n: nat): Parsed<seq<Leaf>>
    decreases n
  {
    if n == 0 then Parsed([], data)
    else
      var l := DecodeLeaf(data);
      if l.Malformed? then Malformed
      else
        var more := DecodeLeaves(l.rest, n - 1);
        if more.Malformed? then Malformed else Parsed([l.value] + more.value, more.rest)
  }

  function DecodeLevels(data: Bytes, n: nat): Parsed<seq<seq<Leaf>>>
    decreases n
  {
    if n == 0 then Parsed([], data)
    else
      var count := ReadCompactSize(data);
      if count.Malformed? then Malformed
      else
        var ls := DecodeLeaves(count.rest, count.value);
        if ls.Malformed? then Malformed
        else
          var more := DecodeLevels(ls.rest, n - 1);
          if more.Malformed? then Malformed else Parsed([ls.value] + more.value, more.rest)
  }

  /** The decoder of the dashboard. */
  function Decode(data: Bytes): Parsed<Stump> {
    var height := ReadCompactSize(data);
    if height.Malformed? || height.rest == [] then Malformed
    else
      var levels := DecodeLevels(height.rest[1..], height.rest[0]);
      if levels.Malformed? then Malformed
      else Parsed(Stump(height.value, height.rest[0] as int, levels.value), levels.rest)
  }

  /** The decoder accepts exactly the flag bytes 0, 1 and 2, the first and the last with a hash to follow. */
  lemma DecodesFlags(data: Bytes)
    requires ReadCompactSize(data).Parsed? && ReadCompactSize(data).rest != []
    ensures var off, d := ReadCompactSize(data), DecodeLeaf(data);
            && (d.Parsed? <==> off.rest[0] == 1 || ((off.rest[0] == 0 || off.rest[0] == 2) && |off.rest| >= 33))
            && (d.Parsed? ==>
                  && d.value.offset == off.value
                  && (d.value.duplicate <==> off.rest[0] == 1) && (d.value.txid <==> off.rest[0] == 2)
                  && d.value.hash == if off.rest[0] == 1 then [] else off.rest[1..33])
  {
    hide ReadCompactSize;
    var rest := ReadCompactSize(data).rest;
    if |rest| >= 33 {
      assert rest[1..][..32] == rest[1..33];
    }
  }

  // ---------------------------------------------------------------- round trip

  /** A leaf the format can express: a 32-byte hash, or a duplicate without hash and txid flag. */
  predicate Expressible(l: Leaf) {
    l.offset < U64 && if l.duplicate then l.hash == [] && !l.txid else |l.hash| == 32
  }

  ghost predicate LevelExpressible(ls: seq<Leaf>) {
    |ls| < U64 && forall i | 0 <= i < |ls| :: Expressible(ls[i])
  }

  ghost predicate Encodable(s: Stump) {
    && s.blockHeight < U64 && s.treeHeight == |s.paths| < 256
    && (forall k | 0 <= k < |s.paths| :: LevelExpressible(s.paths[k]))
  }

  lemma LeafRoundTrip(l: Leaf, tail: Bytes)
    requires Expressible(l)
    ensures DecodeLeaf(EncodeLeaf(l) + tail) == Parsed(l, tail)
  {
    var body := [Flag(l)] + (if l.duplicate then [] else l.hash) + tail;
    assert EncodeLeaf(l) + tail == CompactSize(l.offset) + body;
    CompactSizeInverse(l.offset, body);
    if !l.duplicate {
      assert body[1..][..32] == l.hash && body[1..][32..] == tail;
    } else {
      assert body[1..] == tail;
    }
  }

  lemma {:induction false} LeavesRoundTrip(ls: seq<Leaf>, tail: Bytes)
    requires forall i | 0 <= i < |ls| :: Expressible(ls[i])
    ensures OffsetsFit(ls) && DecodeLeaves(EncodeLeaves(ls) + tail, |ls|) == Parsed(ls, tail)
  {
    hide EncodeLeaf, DecodeLeaf;
    if ls == [] {
      assert EncodeLeaves(ls) + tail == tail;
    } else {
      assert EncodeLeaves(ls) + tail == EncodeLeaf(ls[0]) + (EncodeLeaves(ls[1..]) + tail);
      LeafRoundTrip(ls[0], EncodeLeaves(ls[1..]) + tail);
      LeavesRoundTrip(ls[1..], tail);
      assert [ls[0]] + ls[1..] == ls;
    }
  }

  lemma {:induction false} LevelsRoundTrip(paths: seq<seq<Leaf>>, tail: Bytes)
    requires forall k | 0 <= k < |paths| :: LevelExpressible(paths[k])
    ensures AllFit(paths) && DecodeLevels(EncodeLevels(paths) + tail, |paths|) == Parsed(paths, tail)
  {
    hide CompactSize, ReadCompactSize, EncodeLeaves, DecodeLeaves, EncodeLevels, DecodeLevels, AllFit,
      LevelExpressible, LevelFits;
    if paths == [] {
      NoLevels(tail);
    } else {
      LevelsRoundTrip(paths[1..], tail);
      AllFitCons(paths);
      LevelRoundTrip(paths[0], EncodeLevels(paths[1..]) + tail);
      EncodeLevelsCons(paths, tail);
      CompactSizeInverse(|paths[0]|, EncodeLeaves(paths[0]) + (EncodeLevels(paths[1..]) + tail));
      DecodeLevelsCons(EncodeLevels(paths) + tail, EncodeLeaves(paths[0]) + (EncodeLevels(paths[1..]) + tail), paths[0],
                       EncodeLevels(paths[1..]) + tail, paths[1..], tail);
      assert [paths[0]] + paths[1..] == paths;
    }
  }

  lemma NoLevels(tail: Bytes)
    ensures AllFit([]) && DecodeLevels(EncodeLevels([]) + tail, 0) == Parsed([], tail)
  {
    assert EncodeLevels([]) + tail == tail;
  }

  lemma EncodeLevelsCons(paths: seq<seq<Leaf>>, tail: Bytes)
    requires paths != [] && AllFit(paths) && LevelFits(paths[0]) && AllFit(paths[1..])
    ensures EncodeLevels(paths) + tail ==
            CompactSize(|paths[0]|) + (EncodeLeaves(paths[0]) + (EncodeLevels(paths[1..]) + tail))
  {
    hide CompactSize, EncodeLeaves, EncodeLevels;
    LevelsSplit(paths);
    Regroup(CompactSize(|paths[0]|), EncodeLeaves(paths[0]), EncodeLevels(paths[1..]), tail);
  }

  lemma Regroup(a: Bytes, b: Bytes, c: Bytes, d: Bytes)
    ensures a + b + c + d == a + (b + (c + d))
  {
  }

  /** One level and then the others. */
  lemma DecodeLevelsCons(data: Bytes, afterCount: Bytes, ls: seq<Leaf>, afterLevel: Bytes, others: seq<seq<Leaf>>,
                         tail: Bytes)
    requires ReadCompactSize(data) == Parsed(|ls|, afterCount)
    requires DecodeLeaves(afterCount, |ls|) == Parsed(ls, afterLevel)
    requires DecodeLevels(afterLevel, |others|) == Parsed(others, tail)
    ensures DecodeLevels(data, |others| + 1) == Parsed([ls] + others, tail)
  {
    hide ReadCompactSize, DecodeLeaves;
  }

  lemma LevelRoundTrip(ls: seq<Leaf>, tail: Bytes)
    requires LevelExpressible(ls)
    ensures LevelFits(ls) && DecodeLeaves(EncodeLeaves(ls) + tail, |ls|) == Parsed(ls, tail)
  {
    LeavesRoundTrip(ls, tail);
  }

  lemma AllFitCons(paths: seq<seq<Leaf>>)
    requires paths != [] && LevelExpressible(paths[0]) && AllFit(paths[1..])
    ensures AllFit(paths) && LevelFits(paths[0])
  {
    forall k | 0 <= k < |paths| ensures LevelFits(paths[k]) {
      if k > 0 {
        assert paths[k] == paths[1..][k - 1];
      }
    }
  }

  /** Decoding what Encode wrote gives the STUMP back and leaves whatever follows. */
  lemma RoundTrip(s: Stump, tail: Bytes)
    requires Encodable(s)
    ensures Fits(s) && Decode(EncodeStump(s) + tail) == Parsed(s, tail)
  {
    hide CompactSize, ReadCompactSize, EncodeLevels, DecodeLevels, LevelExpressible, AllFit;
    LevelsRoundTrip(s.paths, tail);
    var body := [s.treeHeight] + (EncodeLevels(s.paths) + tail);
    assert EncodeStump(s) + tail == CompactSize(s.blockHeight) + body;
    CompactSizeInverse(s.blockHeight, body);
    assert body[1..] == EncodeLevels(s.paths) + tail;
  }

  // ---------------------------------------------------------------- what Build makes can be encoded

  /** The largest power of two in a Go int. */
  const MAX_LEAVES: nat := 0x4000_0000_0000_0000

  lemma {:induction false} Pow2Sum(a: nat, b: nat)
    ensures Pow2(a + b) == Pow2(a) * Pow2(b)
  {
    if a == 0 {
    } else {
      Pow2Sum(a - 1, b);
    }
  }

  lemma SmallPow2()
    ensures Pow2(1) == 2 && Pow2(6) == 64
  {
    assert Pow2(3) == 8;
  }

  lemma Pow2At62()
    ensures Pow2(62) == MAX_LEAVES
  {
    hide Pow2;
    SmallPow2();
    Pow2Sum(1, 6);
    Pow2Sum(7, 7);
    Pow2Sum(14, 14);
    Pow2Sum(28, 28);
    Pow2Sum(56, 6);
  }

  lemma {:induction false} HeightAtMost(n: nat, k: nat)
    requires 1 <= n <= Pow2(k)
    ensures Height(n) <= k
  {
    if n == 1 {
    } else {
      HeightAtMost((n + 1) / 2, k - 1);
    }
  }

  lemma {:induction false} NeededInRange(n: nat, reg: set<nat>, level: nat, i: nat)
    requires forall x | x in reg :: x < n
    requires i in Needed(reg, level)
    ensures i < RealCount(n, level) <= n
  {
    if level == 0 {
    } else {
      var x :| x in Needed(reg, level - 1) && x / 2 == i;
      NeededInRange(n, reg, level - 1, x);
    }
  }

  lemma {:induction false} AscendingCount(ls: seq<Leaf>, i: nat)
    requires Ascending(ls) && i < |ls|
    ensures ls[i].offset >= i
  {
    if i == 0 {
    } else {
      AscendingCount(ls, i - 1);
    }
  }

  lemma LevelIsExpressible(t: Tree, reg: set<nat>, level: nat, ls: seq<Leaf>)
    requires 1 <= |t.leaves| <= MAX_LEAVES && IsLevel(t, reg, level, ls)
    requires forall i | i in reg :: i < |t.leaves|
    requires forall h | h in t.leaves + t.internal :: |h| == 32
    ensures LevelExpressible(ls)
  {
    forall l | l in ls ensures l.offset <= |t.leaves| && Expressible(l) {
      if x :| x in Needed(reg, level) && Sibling(x) == l.offset {
        NeededInRange(|t.leaves|, reg, level, x);
      }
      var node := GetNode(t, level, l.offset);
      if node.Some? {
        assert node.value in t.leaves + t.internal;
      }
    }
    if ls != [] {
      AscendingCount(ls, |ls| - 1);
      assert ls[|ls| - 1] in ls;
    }
  }

  /** Every STUMP of a tree of 32-byte hashes is encodable, so it survives the round trip with nothing left over. */
  lemma BuiltRoundTrips(t: Tree, reg: set<nat>, height: nat, s: Stump)
    requires 1 <= |t.leaves| <= MAX_LEAVES && height < U64 && IsStump(t, reg, height, s)
    requires forall i | i in reg :: i < |t.leaves|
    requires forall h | h in t.leaves + t.internal :: |h| == 32
    ensures Encodable(s) && Fits(s) && Decode(EncodeStump(s)) == Parsed(s, [])
  {
    hide Decode, EncodeStump, LevelExpressible, AllFit, Pow2;
    assert Pow2(62) == MAX_LEAVES by {
      Pow2At62();
    }
    HeightAtMost(|t.leaves|, 62);
    forall k | 0 <= k < |s.paths| ensures LevelExpressible(s.paths[k]) {
      LevelIsExpressible(t, reg, k, s.paths[k]);
    }
    RoundTrip(s, []);
    assert EncodeStump(s) + [] == EncodeStump(s);
  }

  // ---------------------------------------------------------------- exactly the encodable STUMPs round-trip

  lemma {:induction false} FromLittleEndianBound(b: Bytes)
    ensures FromLittleEndian(b) < Bound(|b|)
  {
    if b == [] {
    } else {
      FromLittleEndianBound(b[1..]);
    }
  }

  lemma ReadsU64(data: Bytes)
    ensures ReadCompactSize(data).Parsed? ==> ReadCompactSize(data).value < U64
  {
    assert Bound(2) == 0x1_0000 && Bound(4) == 0x1_0000_0000 && Bound(8) == U64;
    forall n: nat | n <= |data| ensures n >= 1 ==> FromLittleEndian(data[1..n]) < Bound(n - 1) {
      if n >= 1 {
        FromLittleEndianBound(data[1..n]);
      }
    }
  }

  lemma {:induction false} DecodedLeaves(data: Bytes, n: nat)
    ensures var r := DecodeLeaves(data, n);
            r.Parsed? ==> |r.value| == n && forall i | 0 <= i < n :: Expressible(r.value[i])
    decreases n
  {
    if n == 0 {
    } else {
      ReadsU64(data);
      var l := DecodeLeaf(data);
      if l.Parsed? {
        DecodedLeaves(l.rest, n - 1);
      }
    }
  }

  lemma {:induction false} DecodedLevels(data: Bytes, n: nat)
    ensures var r := DecodeLevels(data, n);
            r.Parsed? ==> |r.value| == n && forall k | 0 <= k < n :: LevelExpressible(r.value[k])
    decreases n
  {
    if n == 0 {
    } else {
      ReadsU64(data);
      var count := ReadCompactSize(data);
      if count.Parsed? {
        DecodedLeaves(count.rest, count.value);
        var ls := DecodeLeaves(count.rest, count.value);
        if ls.Parsed? {
          DecodedLevels(ls.rest, n - 1);
        }
      }
    }
  }

  /** The decoder returns nothing but encodable STUMPs. */
  lemma DecodedIsEncodable(data: Bytes)
    ensures Decode(data).Parsed? ==> Encodable(Decode(data).value)
  {
    ReadsU64(data);
    var height := ReadCompactSize(data);
    if height.Parsed? && height.rest != [] {
      DecodedLevels(height.rest[1..], height.rest[0]);
    }
  }

  /** A STUMP comes back from its encoding if and only if it is encodable. */
  lemma RoundTripIffEncodable(s: Stump)
    requires Fits(s)
    ensures Decode(EncodeStump(s)) == Parsed(s, []) <==> Encodable(s)
  {
    hide Decode, EncodeStump;
    DecodedIsEncodable(EncodeStump(s));
    if Encodable(s) {
      RoundTrip(s, []);
      assert EncodeStump(s) + [] == EncodeStump(s);
    }
  }
}
