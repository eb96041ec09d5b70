/**
 What a STUMP is: the entries of a multi-proof for some leaves of a padded Merkle tree, and what a verifier does with
 them.

 The hash is an arbitrary two-argument function. A tree of `n` leaves is laid out as its leaves and, level by level, its
 internal nodes as if it were padded to the next power of two; only the nodes above real leaves mean anything.
 */
module StumpSpec {
  import opened Prelude

  type HashFn = (Bytes, Bytes) -> Bytes

  datatype Leaf = Leaf(offset: nat, hash: Bytes, txid: bool, duplicate: bool)

  datatype Stump = Stump(blockHeight: nat, treeHeight: nat, paths: seq<seq<Leaf>>)

  datatype Tree = Tree(leaves: seq<Bytes>, internal: seq<Bytes>)

  // ---------------------------------------------------------------- shape of the tree

  function Pow2(k: nat): (r: nat)
    ensures r >= 1
  {
    if k == 0 then 1 else 2 * Pow2(k - 1)
  }

  /** How often a width halves before it is 1, rounding up. */
  function Height(n: nat): (h: nat)
    requires n >= 1
  {
    if n == 1 then 0 else 1 + Height((n + 1) / 2)
  }

  /** The number of real nodes at a level above `n` leaves. */
  function RealCount(n: nat, level: nat): (r: nat)
    ensures n >= 1 ==> r >= 1
  {
    if level == 0 then n else (RealCount(n, level - 1) + 1) / 2
  }

  /** The width of a level of a tree padded to `2^height` leaves. */
  function LevelSize(height: nat, level: nat): nat {
    if level <= height then Pow2(height - level) else 0
  }

  /** Where a level (1 or more) starts among the internal nodes. */
  function LevelStart(height: nat, level: nat): nat {
    if level <= 1 then 0 else LevelStart(height, level - 1) + LevelSize(height, level - 1)
  }

  /** A node of the layout, if it is there. */
  function GetNode(t: Tree, level: nat, index: nat): Option<Bytes>
    requires |t.leaves| >= 1
  {
    if level == 0 then if index < |t.leaves| then Some(t.leaves[index]) else None
    else
      var pos := LevelStart(Height(|t.leaves|), level) + index;
      if pos < |t.internal| then Some(t.internal[pos]) else None
  }

  function Sibling(i: nat): (r: nat)
    ensures r != i && r / 2 == i / 2
  {
    if i % 2 == 0 then i + 1 else i - 1
  }

  // ---------------------------------------------------------------- what Build emits

  /** The nodes on the paths from the leaves `reg` to the root, at a level. */
  function Needed(reg: set<nat>, level: nat): set<nat> {
    if level == 0 then reg else Halves(Needed(reg, level - 1))
  }

  function Halves(s: set<nat>): set<nat> {
    set i | i in s :: i / 2
  }

  /** The offsets a level lists: the siblings of the path nodes, and at level 0 the leaves themselves. */
  function Offsets(reg: set<nat>, level: nat): set<nat> {
    (set i | i in Needed(reg, level) :: Sibling(i)) + if level == 0 then reg else {}
  }

  /** The entry for one node: its hash, or "duplicate" where the tree has no such node. */
  function EntryAt(t: Tree, reg: set<nat>, level: nat, offset: nat): Leaf
    requires |t.leaves| >= 1
  {
    var node := GetNode(t, level, offset);
    if offset < RealCount(|t.leaves|, level) && node.Some? then
      Leaf(offset, node.value, level == 0 && offset in reg, false)
    else Leaf(offset, [], false, true)
  }

  ghost predicate Ascending(ls: seq<Leaf>) {
    forall i, j | 0 <= i < j < |ls| :: ls[i].offset < ls[j].offset
  }

  /** `ls` lists exactly the entries of a level, by offset. */
  ghost predicate IsLevel(t: Tree, reg: set<nat>, level: nat, ls: seq<Leaf>)
    requires |t.leaves| >= 1
  {
    && Ascending(ls)
    && (forall l | l in ls :: l.offset in Offsets(reg, level) && l == EntryAt(t, reg, level, l.offset))
    && (forall o | o in Offsets(reg, level) :: EntryAt(t, reg, level, o) in ls)
  }

  /** `s` is the STUMP of the leaves `reg`. */
  ghost predicate IsStump(t: Tree, reg: set<nat>, height: nat, s: Stump)
    requires |t.leaves| >= 1
  {
    && s.blockHeight == height
    && s.treeHeight == |s.paths| == Height(|t.leaves|)
    && (forall k: nat | k < |s.paths| :: IsLevel(t, reg, k, s.paths[k]))
  }

  lemma HasMember(s: seq<Leaf>)
    ensures s != [] ==> exists l :: l in s
  {
    if s != [] {
      assert s[0] in s;
    }
  }

  /** An ascending list is determined by what it contains. */
  lemma {:induction false} AscendingUnique(a: seq<Leaf>, b: seq<Leaf>)
    requires Ascending(a) && Ascending(b) && forall l :: l in a <==> l in b
    ensures a == b
  {
    HasMember(a);
    HasMember(b);
    if a == [] || b == [] {
    } else {
      SameHead(a, b);
      forall l ensures l in a[1..] <==> l in b[1..] {
        TailMember(a, l);
        TailMember(b, l);
      }
      AscendingUnique(a[1..], b[1..]);
      assert a == [a[0]] + a[1..] && b == [b[0]] + b[1..];
    }
  }

  lemma SameHead(a: seq<Leaf>, b: seq<Leaf>)
    requires Ascending(a) && Ascending(b) && a != [] && b != [] && a[0] in b && b[0] in a
    ensures a[0] == b[0]
  {
    var i :| 0 <= i < |b| && b[i] == a[0];
    var j :| 0 <= j < |a| && a[j] == b[0];
    assert i > 0 ==> b[0].offset < b[i].offset;
    assert j > 0 ==> a[0].offset < a[j].offset;
  }

  lemma TailMember(s: seq<Leaf>, l: Leaf)
    requires Ascending(s) && s != []
    ensures l in s[1..] <==> l in s && l != s[0]
  {
    if l in s && l != s[0] {
      var i :| 0 <= i < |s| && s[i] == l;
      assert s[1..][i - 1] == l;
    }
    if l in s[1..] {
      var i :| 0 <= i < |s[1..]| && s[1..][i] == l;
      assert s[i + 1] == l;
    }
  }

  lemma LevelUnique(t: Tree, reg: set<nat>, level: nat, a: seq<Leaf>, b: seq<Leaf>)
    requires |t.leaves| >= 1 && IsLevel(t, reg, level, a) && IsLevel(t, reg, level, b)
    ensures a == b
  {
    AscendingUnique(a, b);
  }

  /** There is one STUMP of `reg`: map iteration order cannot show in the result of Build. */
  lemma StumpUnique(t: Tree, reg: set<nat>, height: nat, a: Stump, b: Stump)
    requires |t.leaves| >= 1 && IsStump(t, reg, height, a) && IsStump(t, reg, height, b)
    ensures a == b
  {
    forall k: nat | k < |a.paths| ensures a.paths[k] == b.paths[k] {
      LevelUnique(t, reg, k, a.paths[k], b.paths[k]);
    }
    assert a.paths == b.paths;
  }

  // ---------------------------------------------------------------- what a verifier computes

  function Find(ls: seq<Leaf>, offset: nat): Option<Leaf> {
    if ls == [] then None else if ls[0].offset == offset then Some(ls[0]) else Find(ls[1..], offset)
  }

  /** The two arguments of the hash function. */
  datatype Pair = Pair(left: Bytes, right: Bytes)

  /**
   What a verifier hashes at node `idx`: the working hash and the sibling's, in tree order, or the working hash twice.
   */
  function Inputs(idx: nat, work: Bytes, sib: Leaf): Pair {
    if sib.duplicate then Pair(work, work)
    else if idx % 2 == 0 then Pair(work, sib.hash)
    else Pair(sib.hash, work)
  }

  function Combine(H: HashFn, idx: nat, work: Bytes, sib: Leaf): Bytes {
    var p := Inputs(idx, work, sib);
    H(p.left, p.right)
  }

  /** From the node `idx` with hash `work` at a level up to the root, with the sibling entries of the STUMP. */
  function Climb(H: HashFn, paths: seq<seq<Leaf>>, level: nat, idx: nat, work: Bytes): Option<Bytes>
    decreases |paths| - level
  {
    if level >= |paths| then Some(work)
    else
      var sib := Find(paths[level], Sibling(idx));
      if sib.None? then None else Climb(H, paths, level + 1, idx / 2, Combine(H, idx, work, sib.value))
  }

  // ---------------------------------------------------------------- the tree

  /** The hash of a real node. */
  function Node(t: Tree, level: nat, index: nat): Bytes
    requires |t.leaves| >= 1
  {
    var n := GetNode(t, level, index);
    if n.Some? then n.value else []
  }

  /** The layout holds a Merkle tree: a real node combines its two children, or its only child with itself. */
  ghost predicate IsMerkle(H: HashFn, t: Tree) {
    && |t.leaves| >= 1
    && |t.internal| == Pow2(Height(|t.leaves|)) - 1
    && (forall level: nat, i: nat | level < Height(|t.leaves|) && i < RealCount(|t.leaves|, level + 1) ::
          Combines(H, t, level, i))
  }

  /** Node `i` above a level is the hash of its two children there, or of its only child twice. */
  ghost predicate Combines(H: HashFn, t: Tree, level: nat, i: nat)
    requires |t.leaves| >= 1
  {
    var l, r := 2 * i, 2 * i + 1;
    Node(t, level + 1, i) == H(Node(t, level, l), Node(t, level, if r < RealCount(|t.leaves|, level) then r else l))
  }

  function Root(t: Tree): Bytes
    requires |t.leaves| >= 1
  {
    Node(t, Height(|t.leaves|), 0)
  }

  // ---------------------------------------------------------------- the entries, written out

  /** Node `i` of a level is above leaf `r`: each node of it is above `2^level` leaves. */
  predicate Above(level: nat, i: nat, r: nat) {
    i * Pow2(level) <= r < (i + 1) * Pow2(level)
  }

  lemma AboveChild(level: nat, i: nat, r: nat)
    requires level >= 1
    ensures Above(level, i, r) <==> Above(level - 1, 2 * i, r) || Above(level - 1, 2 * i + 1, r)
  {
    var d := Pow2(level - 1);
    assert i * (2 * d) == (2 * i) * d && (i + 1) * (2 * d) == (2 * i + 2) * d;
    assert (2 * i) * d <= (2 * i + 1) * d <= (2 * i + 2) * d;
  }

  /** The nodes on the paths, exactly: those above a registered leaf. */
  lemma {:induction false} NeededExactly(reg: set<nat>, level: nat, i: nat)
    ensures i in Needed(reg, level) <==> exists r: nat :: r in reg && Above(level, i, r)
  {
    if level == 0 {
      assert forall r: nat :: Above(0, i, r) <==> r == i;
    } else {
      NeededExactly(reg, level - 1, 2 * i);
      NeededExactly(reg, level - 1, 2 * i + 1);
      hide Above;
      assert forall c :: c / 2 == i <==> c == 2 * i || c == 2 * i + 1;
      assert i in Needed(reg, level) <==> 2 * i in Needed(reg, level - 1) || 2 * i + 1 in Needed(reg, level - 1) by {
        HalvesHas(Needed(reg, level - 1), i);
      }
      forall r: nat ensures Above(level, i, r) <==> Above(level - 1, 2 * i, r) || Above(level - 1, 2 * i + 1, r) {
        AboveChild(level, i, r);
      }
    }
  }

  lemma HalvesHas(s: set<nat>, i: nat)
    ensures i in Halves(s) <==> 2 * i in s || 2 * i + 1 in s
  {
    if 2 * i in s {
      assert 2 * i / 2 == i;
    }
    if 2 * i + 1 in s {
      assert (2 * i + 1) / 2 == i;
    }
  }

  /**
   The offsets of a level, exactly: the siblings of the nodes above registered leaves, and at level 0 the registered
   leaves.
   */
  lemma OffsetsExactly(reg: set<nat>, level: nat, o: nat)
    ensures o in Offsets(reg, level)
       <==> (exists r: nat :: r in reg && Above(level, Sibling(o), r)) || (level == 0 && o in reg)
  {
    hide Above, Needed;
    NeededExactly(reg, level, Sibling(o));
    assert Sibling(Sibling(o)) == o;
    assert forall i: nat :: Sibling(i) == o <==> i == Sibling(o);
  }

  /** A level above `n` leaves has as many real nodes as `n` leaves need, `2^level` to a node. */
  lemma {:induction false} RealCountExactly(n: nat, level: nat)
    requires n >= 1
    ensures (RealCount(n, level) - 1) * Pow2(level) < n <= RealCount(n, level) * Pow2(level)
  {
    if level == 0 {
    } else {
      RealCountExactly(n, level - 1);
      var r, d := RealCount(n, level - 1), Pow2(level - 1);
      var h := (r + 1) / 2;
      assert RealCount(n, level) == h && Pow2(level) == 2 * d;
      hide RealCount, Pow2;
      assert 2 * h - 2 <= r - 1 && r <= 2 * h && h >= 1;
      HalvesCover(n, r, h, d, Pow2(level));
    }
  }

  lemma HalvesCover(n: nat, r: nat, h: nat, d: nat, p: nat)
    requires 2 * h - 2 <= r - 1 && r <= 2 * h && h >= 1 && p == 2 * d && (r - 1) * d < n <= r * d
    ensures (h - 1) * p < n <= h * p
  {
    assert (r - 1) * d == (2 * h - 2) * d + (r - 1 - (2 * h - 2)) * d;
    assert h * p == r * d + (2 * h - r) * d;
    assert (h - 1) * p == (2 * h - 2) * d;
  }

  /** Where a real node above the leaves is among the internal nodes. */
  lemma NodePosition(t: Tree, level: nat, i: nat)
    requires |t.leaves| >= 1 && |t.internal| == Pow2(Height(|t.leaves|)) - 1
    requires 1 <= level <= Height(|t.leaves|) && i < RealCount(|t.leaves|, level)
    ensures var h := Height(|t.leaves|);
            var at := Pow2(h) - 2 * Pow2(h - level) + i;
            0 <= at < |t.internal| && Node(t, level, i) == t.internal[at]
  {
    LevelStartValue(Height(|t.leaves|), level);
    RealNodePresent(t, level, i);
  }

  /** An entry, exactly: a real node with its hash, flagged as txid only for a registered leaf, or a bare duplicate. */
  lemma EntryExactly(t: Tree, reg: set<nat>, level: nat, o: nat)
    requires |t.leaves| >= 1 && |t.internal| == Pow2(Height(|t.leaves|)) - 1 && level < Height(|t.leaves|)
    ensures var e, there := EntryAt(t, reg, level, o), o < RealCount(|t.leaves|, level);
            && e.offset == o && (e.duplicate <==> !there) && e.hash == (if there then Node(t, level, o) else [])
            && (e.txid <==> there && level == 0 && o in reg)
  {
    if o < RealCount(|t.leaves|, level) {
      RealNodePresent(t, level, o);
    }
  }

  // ---------------------------------------------------------------- proofs lead to the root

  lemma {:induction false} LevelStartValue(height: nat, level: nat)
    requires 1 <= level <= height
    ensures LevelStart(height, level) + 2 * Pow2(height - level) == Pow2(height)
  {
    if level == 1 {
    } else {
      LevelStartValue(height, level - 1);
    }
  }

  /** Halving with rounding up stays within the padded width, and reaches 1 at the top. */
  lemma {:induction false} RealCountBound(n: nat, level: nat)
    requires n >= 1 && level <= Height(n)
    ensures RealCount(n, level) <= Pow2(Height(n) - level) && Height(RealCount(n, level)) == Height(n) - level
  {
    if level == 0 {
      HeightBound(n);
    } else {
      RealCountBound(n, level - 1);
      var r := RealCount(n, level - 1);
      HeightBound((r + 1) / 2);
    }
  }

  lemma {:induction false} HeightBound(n: nat)
    requires n >= 1
    ensures n <= Pow2(Height(n)) && (n > 1 ==> Pow2(Height(n)) < 2 * n)
  {
    if n == 1 {
    } else {
      HeightBound((n + 1) / 2);
    }
  }

  /** Every real node is in the layout. */
  lemma RealNodePresent(t: Tree, level: nat, i: nat)
    requires |t.leaves| >= 1 && |t.internal| == Pow2(Height(|t.leaves|)) - 1
    requires level <= Height(|t.leaves|) && i < RealCount(|t.leaves|, level)
    ensures GetNode(t, level, i).Some?
  {
    if level > 0 {
      LevelStartValue(Height(|t.leaves|), level);
      RealCountBound(|t.leaves|, level);
    }
  }

  lemma {:induction false} FindEntry(ls: seq<Leaf>, l: Leaf)
    requires Ascending(ls) && l in ls
    ensures Find(ls, l.offset) == Some(l)
  {
    if ls[0] == l {
    } else {
      TailMember(ls, l);
      FindEntry(ls[1..], l);
      var i :| 0 <= i < |ls| && ls[i] == l;
    }
  }

  /**
   The path node above a needed node is needed, real, and the right combination of it with the entry of its sibling.
   */
  lemma ClimbStep(H: HashFn, t: Tree, reg: set<nat>, level: nat, idx: nat, ls: seq<Leaf>)
    requires IsMerkle(H, t) && level < Height(|t.leaves|) && IsLevel(t, reg, level, ls)
    requires idx in Needed(reg, level) && idx < RealCount(|t.leaves|, level)
    ensures idx / 2 in Needed(reg, level + 1) && idx / 2 < RealCount(|t.leaves|, level + 1)
    ensures var sib := Find(ls, Sibling(idx));
            sib.Some? && Combine(H, idx, Node(t, level, idx), sib.value) == Node(t, level + 1, idx / 2)
  {
    hide Find, Needed, Halves, RealCount;
    PathGoesUp(t, reg, level, idx);
    var s := Sibling(idx);
    assert s in Offsets(reg, level);
    var e := EntryAt(t, reg, level, s);
    FindEntry(ls, e);
    if s < RealCount(|t.leaves|, level) {
      RealNodePresent(t, level, s);
    }
    assert Combines(H, t, level, idx / 2);
    if idx % 2 == 0 {
      assert 2 * (idx / 2) == idx && 2 * (idx / 2) + 1 == s;
    } else {
      assert 2 * (idx / 2) == s && 2 * (idx / 2) + 1 == idx;
    }
  }

  lemma PathGoesUp(t: Tree, reg: set<nat>, level: nat, idx: nat)
    requires idx in Needed(reg, level) && idx < RealCount(|t.leaves|, level)
    ensures idx / 2 in Needed(reg, level + 1) && idx / 2 < RealCount(|t.leaves|, level + 1)
  {
  }

  lemma {:induction false} ClimbFrom(H: HashFn, t: Tree, reg: set<nat>, height: nat, s: Stump, level: nat, idx: nat)
    requires IsMerkle(H, t) && IsStump(t, reg, height, s) && level <= Height(|t.leaves|)
    requires idx in Needed(reg, level) && idx < RealCount(|t.leaves|, level)
    ensures Climb(H, s.paths, level, idx, Node(t, level, idx)) == Some(Root(t))
    decreases Height(|t.leaves|) - level
  {
    if level == Height(|t.leaves|) {
      RealCountBound(|t.leaves|, level);
    } else {
      ClimbStep(H, t, reg, level, idx, s.paths[level]);
      ClimbFrom(H, t, reg, height, s, level + 1, idx / 2);
    }
  }

  /** Every registered leaf, combined level by level with the entries of the STUMP, yields the root. */
  lemma ProofReachesRoot(H: HashFn, t: Tree, reg: set<nat>, height: nat, s: Stump, idx: nat)
    requires IsMerkle(H, t) && IsStump(t, reg, height, s) && idx in reg && idx < |t.leaves|
    ensures Climb(H, s.paths, 0, idx, t.leaves[idx]) == Some(Root(t))
  {
    ClimbFrom(H, t, reg, height, s, 0, idx);
  }

  /** What the climb from node `idx` with hash `work` at `level` hashes at level `at`. */
  function HashedAt(H: HashFn, paths: seq<seq<Leaf>>, level: nat, idx: nat, work: Bytes, at: nat): Option<Pair>
    decreases |paths| - level
  {
    if level >= |paths| then None
    else
      var sib := Find(paths[level], Sibling(idx));
      if sib.None? then None
      else if level == at then Some(Inputs(idx, work, sib.value))
      else HashedAt(H, paths, level + 1, idx / 2, Combine(H, idx, work, sib.value), at)
  }

  /** At level `at` the two climbs hash different pairs to the same value: a collision, which the climbs exhibit. */
  ghost predicate CollideAt(H: HashFn, paths: seq<seq<Leaf>>, level: nat, idx: nat, work: Bytes, forged: Bytes,
                            at: nat) {
    var a, b := HashedAt(H, paths, level, idx, work, at), HashedAt(H, paths, level, idx, forged, at);
    a.Some? && b.Some? && a != b && H(a.value.left, a.value.right) == H(b.value.left, b.value.right)
  }

  /**
   Two climbs along the same entries from different hashes that end alike hash different pairs to one value at the
   returned level.
   */
  lemma {:induction false} ClimbBinds(H: HashFn, paths: seq<seq<Leaf>>, level: nat, idx: nat, work: Bytes,
                                      forged: Bytes)
      returns (at: nat)
    requires Climb(H, paths, level, idx, work).Some?
    requires Climb(H, paths, level, idx, work) == Climb(H, paths, level, idx, forged) && forged != work
    ensures level <= at < |paths| && CollideAt(H, paths, level, idx, work, forged, at)
    decreases |paths| - level
  {
    var sib := Find(paths[level], Sibling(idx)).value;
    var up, up' := Combine(H, idx, work, sib), Combine(H, idx, forged, sib);
    if up == up' {
      at := level;
    } else {
      at := ClimbBinds(H, paths, level + 1, idx / 2, up, up');
    }
  }

  /**
   The proof at offset `idx` proves the leaf that is there and no other: a different hash that also leads to the root
   gives, at some level of the STUMP, two named pairs with the same hash.
   */
  lemma ProofBindsLeaf(H: HashFn, t: Tree, reg: set<nat>, height: nat, s: Stump, idx: nat, forged: Bytes)
    requires IsMerkle(H, t) && IsStump(t, reg, height, s) && idx in reg && idx < |t.leaves|
    requires Climb(H, s.paths, 0, idx, forged) == Some(Root(t)) && forged != t.leaves[idx]
    ensures exists at: nat :: at < |s.paths| && CollideAt(H, s.paths, 0, idx, t.leaves[idx], forged, at)
  {
    ProofReachesRoot(H, t, reg, height, s, idx);
    var at := ClimbBinds(H, s.paths, 0, idx, t.leaves[idx], forged);
  }
}
