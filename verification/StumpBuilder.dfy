/** Build and MergeSTUMPs, proved to compute the STUMPs of `StumpSpec`. */
module StumpBuilder {
  import opened Prelude
  import opened StumpSpec

  // ---------------------------------------------------------------- sorting

  function Insert(l: Leaf, s: seq<Leaf>): seq<Leaf> {
    if s == [] || l.offset < s[0].offset then [l] + s else [s[0]] + Insert(l, s[1..])
  }

  lemma {:induction false} InsertMembers(l: Leaf, s: seq<Leaf>)
    ensures forall x :: x in Insert(l, s) <==> x == l || x in s
  {
    if s == [] || l.offset < s[0].offset {
    } else {
      InsertMembers(l, s[1..]);
      assert s == [s[0]] + s[1..];
    }
  }

  lemma {:induction false} InsertAscending(l: Leaf, s: seq<Leaf>)
    requires Ascending(s) && forall x | x in s :: x.offset != l.offset
    ensures Ascending(Insert(l, s))
  {
    if s == [] || l.offset < s[0].offset {
    } else {
      assert s[0] in s;
      assert forall x | x in s[1..] :: x in s;
      InsertAscending(l, s[1..]);
      InsertMembers(l, s[1..]);
      var r := Insert(l, s[1..]);
      forall i | 0 <= i < |r| ensures s[0].offset < r[i].offset {
        assert r[i] in r;
        if r[i] != l {
          var j :| 0 <= j < |s[1..]| && s[1..][j] == r[i];
          assert s[j + 1] == r[i];
        }
      }
    }
  }

  ghost predicate DistinctOffsets(s: seq<Leaf>) {
    forall i, j | 0 <= i < j < |s| :: s[i].offset != s[j].offset
  }

  /** `sort.Slice` by offset, on leaves with distinct offsets. */
  method SortByOffset(s: seq<Leaf>) returns (r: seq<Leaf>)
    requires DistinctOffsets(s)
    ensures Ascending(r) && forall l :: l in r <==> l in s
  {
    r := [];
    var i := 0;
    while i < |s|
      invariant 0 <= i <= |s|
      invariant Ascending(r) && forall l :: l in r <==> l in s[..i]
    {
      assert s[..i + 1] == s[..i] + [s[i]];
      InsertMembers(s[i], r);
      forall x | x in r ensures x.offset != s[i].offset {
        var j :| 0 <= j < i && s[j] == x;
      }
      InsertAscending(s[i], r);
      r := Insert(s[i], r);
      i := i + 1;
    }
    assert s[..i] == s;
  }

  // ---------------------------------------------------------------- building

  /** nextPowerOfTwo, and the number of levels below the root. */
  method TreeShape(n: nat) returns (pot: nat, height: nat)
    requires n >= 1
    ensures height == Height(n) && pot == Pow2(height)
  {
    pot := 1;
    ghost var h := 0;
    while pot < n
      invariant pot == Pow2(h) && (h > 0 ==> Pow2(h - 1) < n)
      decreases 2 * n - pot
    {
      pot, h := 2 * pot, h + 1;
    }
    HeightByPow2(n, h);
    height := 0;
    var w := pot;
    while w > 1
      invariant height <= h && w == Pow2(h - height)
      decreases w
    {
      w, height := w / 2, height + 1;
    }
  }

  /** The height is the least exponent whose power of two covers the leaves. */
  lemma {:induction false} HeightByPow2(n: nat, h: nat)
    requires n >= 1 && n <= Pow2(h) && (h > 0 ==> Pow2(h - 1) < n)
    ensures h == Height(n)
  {
    if n == 1 {
    } else {
      HeightByPow2((n + 1) / 2, h - 1);
    }
  }

  /** getNode: the offset of a level is summed up as the level sizes halve. */
  method FetchNode(t: Tree, pot: nat, level: nat, index: nat) returns (r: Option<Bytes>)
    requires |t.leaves| >= 1 && pot == Pow2(Height(|t.leaves|))
    ensures r == GetNode(t, level, index)
  {
    if level == 0 {
      return if index < |t.leaves| then Some(t.leaves[index]) else None;
    }
    ghost var h := Height(|t.leaves|);
    var off, sz, k := 0, pot / 2, 1;
    while k < level
      invariant 1 <= k <= level
      invariant off == LevelStart(h, k) && sz == LevelSize(h, k)
    {
      off, sz, k := off + sz, sz / 2, k + 1;
    }
    var pos := off + index;
    return if pos < |t.internal| then Some(t.internal[pos]) else None;
  }

  /** What the loop over the needed indices of one level has collected. */
  ghost predicate Collected(t: Tree, reg: set<nat>, level: nat, added: set<nat>, ls: seq<Leaf>)
    requires |t.leaves| >= 1
  {
    && DistinctOffsets(ls)
    && (forall l | l in ls :: l.offset in added && l == EntryAt(t, reg, level, l.offset))
    && (forall o | o in added :: EntryAt(t, reg, level, o) in ls)
  }

  lemma CollectOne(t: Tree, reg: set<nat>, level: nat, added: set<nat>, ls: seq<Leaf>, o: nat)
    requires |t.leaves| >= 1 && Collected(t, reg, level, added, ls) && o !in added
    ensures Collected(t, reg, level, added + {o}, ls + [EntryAt(t, reg, level, o)])
  {
    var more := ls + [EntryAt(t, reg, level, o)];
    forall i, j | 0 <= i < j < |more| ensures more[i].offset != more[j].offset {
      assert ls[i] in ls;
    }
  }

  /** The entry Build makes for a sibling. */
  method SiblingLeaf(t: Tree, pot: nat, reg: set<nat>, level: nat, realCount: nat, siblingIdx: nat) returns (leaf: Leaf)
    requires |t.leaves| >= 1 && pot == Pow2(Height(|t.leaves|)) && realCount == RealCount(|t.leaves|, level)
    ensures leaf == EntryAt(t, reg, level, siblingIdx)
  {
    leaf := Leaf(siblingIdx, [], false, false);
    if siblingIdx >= realCount {
      leaf := leaf.(duplicate := true);
    } else {
      var h := FetchNode(t, pot, level, siblingIdx);
      if h.Some? {
        leaf := leaf.(hash := h.value);
      } else {
        leaf := leaf.(duplicate := true);
      }
      if level == 0 && siblingIdx in reg {
        leaf := leaf.(txid := true);
      }
    }
  }

  /** The offsets listed once the path nodes `done` of a level are handled. */
  function OffsetsOf(done: set<nat>, level: nat): set<nat> {
    (set i | i in done :: Sibling(i)) + if level == 0 then done else {}
  }

  lemma OffsetsOfMore(done: set<nat>, level: nat, idx: nat)
    ensures OffsetsOf(done + {idx}, level) == OffsetsOf(done, level) + {Sibling(idx)} + if level == 0 then {idx} else {}
    ensures Halves(done + {idx}) == Halves(done) + {idx / 2}
  {
  }

  /** The sorted collection of all listed offsets is the level. */
  lemma CollectedIsLevel(t: Tree, reg: set<nat>, level: nat, ls: seq<Leaf>, sorted: seq<Leaf>)
    requires |t.leaves| >= 1 && Collected(t, reg, level, OffsetsOf(Needed(reg, level), level), ls)
    requires Ascending(sorted) && forall l :: l in sorted <==> l in ls
    ensures IsLevel(t, reg, level, sorted)
  {
    assert OffsetsOf(Needed(reg, level), level) == Offsets(reg, level);
  }

  /** One level of Build: the entries in offset order, and the nodes needed one level up. */
  method BuildLevel(t: Tree, pot: nat, reg: set<nat>, level: nat, realCount: nat, needed: set<nat>)
      returns (ls: seq<Leaf>, nextNeeded: set<nat>)
    requires |t.leaves| >= 1 && pot == Pow2(Height(|t.leaves|))
    requires forall i | i in reg :: i < |t.leaves|
    requires needed == Needed(reg, level) && realCount == RealCount(|t.leaves|, level)
    ensures IsLevel(t, reg, level, ls) && nextNeeded == Needed(reg, level + 1)
  {
    hide Collected, OffsetsOf, Halves;
    var added: set<nat> := {};
    ls, nextNeeded := [], {};
    var rest := needed;
    NothingCollected(t, reg, level);
    ghost var done: set<nat> := {};
    while rest != {}
      invariant done + rest == needed
      invariant Collected(t, reg, level, added, ls)
      invariant added == OffsetsOf(done, level)
      invariant nextNeeded == Halves(done)
    {
      var idx :| idx in rest;
      OffsetsOfMore(done, level, idx);
      if level == 0 && idx !in added {
        CollectOne(t, reg, level, added, ls, idx);
        ls := ls + [Leaf(idx, t.leaves[idx], true, false)];
        added := added + {idx};
      }
      var siblingIdx := Sibling(idx);
      if siblingIdx !in added {
        CollectOne(t, reg, level, added, ls, siblingIdx);
        var leaf := SiblingLeaf(t, pot, reg, level, realCount, siblingIdx);
        ls := ls + [leaf];
        added := added + {siblingIdx};
      }
      nextNeeded := nextNeeded + {idx / 2};
      done := done + {idx};
      rest := rest - {idx};
    }
    assert done == needed;
    ghost var unsorted := ls;
    assert DistinctOffsets(ls) by {
      CollectedIsDistinct(t, reg, level, added, ls);
    }
    ls := SortByOffset(ls);
    CollectedIsLevel(t, reg, level, unsorted, ls);
  }

  lemma NothingCollected(t: Tree, reg: set<nat>, level: nat)
    requires |t.leaves| >= 1
    ensures Collected(t, reg, level, {}, []) && OffsetsOf({}, level) == {} && Halves({}) == {}
  {
  }

  lemma CollectedIsDistinct(t: Tree, reg: set<nat>, level: nat, added: set<nat>, ls: seq<Leaf>)
    requires |t.leaves| >= 1 && Collected(t, reg, level, added, ls)
    ensures DistinctOffsets(ls)
  {
  }

  /**
   Build: nothing for no leaves or no registered indices, else the one STUMP of those indices, in whatever order the
   maps are iterated.  In a tree of two or more
   leaves a registered index without a leaf would panic, so callers owe that there is none.
   */
  method Build(blockHeight: nat, leaves: seq<Bytes>, internal: seq<Bytes>, registered: map<nat, string>)
      returns (s: Option<Stump>)
    requires |leaves| > 1 ==> forall i | i in registered :: i < |leaves|
    ensures s.None? <==> registered == map[] || leaves == []
    ensures s.Some? ==> IsStump(Tree(leaves, internal), registered.Keys, blockHeight, s.value)
  {
    if |registered| == 0 || |leaves| == 0 {
      return None;
    }
    var t := Tree(leaves, internal);
    var reg := registered.Keys;
    var pot, treeHeight := TreeShape(|leaves|);
    var paths: seq<seq<Leaf>> := [];
    var needed, realCount := reg, |leaves|;
    while |paths| < treeHeight
      invariant |paths| <= treeHeight
      invariant needed == Needed(reg, |paths|) && realCount == RealCount(|leaves|, |paths|)
      invariant forall k: nat | k < |paths| :: IsLevel(t, reg, k, paths[k])
    {
      var ls, nextNeeded := BuildLevel(t, pot, reg, |paths|, realCount, needed);
      paths := paths + [ls];
      needed := nextNeeded;
      realCount := (realCount + 1) / 2;
    }
    s := Some(Stump(blockHeight, treeHeight, paths));
  }

  // ---------------------------------------------------------------- merging

  /** Leaf `l` is listed at a level of one of the first `n` STUMPs. */
  ghost predicate Listed(stumps: seq<Stump>, n: nat, level: nat, l: Leaf) {
    exists i :: 0 <= i < n <= |stumps| && ListedIn(stumps[i], level, l)
  }

  ghost predicate ListedIn(s: Stump, level: nat, l: Leaf) {
    level < |s.paths| && l in s.paths[level]
  }

  /** `a` stands for `b`: the same offset, and flagged as a txid if `b` is. */
  predicate Covers(a: Leaf, b: Leaf) {
    a.offset == b.offset && (b.txid ==> a.txid)
  }

  /** The leaves of a level in the order the loops meet them. */
  ghost function Met(stumps: seq<Stump>, n: nat, level: nat): seq<Leaf>
    requires n <= |stumps|
  {
    if n == 0 then []
    else Met(stumps, n - 1, level) + if level < |stumps[n - 1].paths| then stumps[n - 1].paths[level] else []
  }

  /**
   The `k`-th leaf met is the one that counts for its offset: the first that is a txid, or the first of all if none is.
   */
  ghost predicate Counts(met: seq<Leaf>, k: nat) {
    && k < |met|
    && (forall j | 0 <= j < k && met[j].offset == met[k].offset :: met[k].txid && !met[j].txid)
    && (forall j | 0 <= j < |met| && met[j].offset == met[k].offset && met[j].txid :: met[k].txid)
  }

  ghost predicate Chosen(met: seq<Leaf>, l: Leaf) {
    exists k: nat :: Counts(met, k) && met[k] == l
  }

  /** `seen` holds for every offset met so far the leaf that counts. */
  ghost predicate Gathered(met: seq<Leaf>, seen: map<nat, Leaf>) {
    && (forall o | o in seen :: seen[o].offset == o && Chosen(met, seen[o]))
    && (forall k | 0 <= k < |met| :: met[k].offset in seen)
  }

  /** One leaf of the inner loop of MergeSTUMPs. */
  method See(seen: map<nat, Leaf>, leaf: Leaf, ghost met: seq<Leaf>) returns (r: map<nat, Leaf>)
    requires Gathered(met, seen)
    ensures Gathered(met + [leaf], r)
  {
    r := seen;
    if leaf.offset !in seen {
      r := seen[leaf.offset := leaf];
    } else if leaf.txid && !seen[leaf.offset].txid {
      r := seen[leaf.offset := leaf];
    }
    SeenKeeps(seen, leaf, met, r);
  }

  lemma SeenKeeps(seen: map<nat, Leaf>, leaf: Leaf, met: seq<Leaf>, r: map<nat, Leaf>)
    requires Gathered(met, seen)
    requires r == if leaf.offset !in seen || (leaf.txid && !seen[leaf.offset].txid) then seen[leaf.offset := leaf]
                  else seen
    ensures Gathered(met + [leaf], r)
  {
    var all, n := met + [leaf], |met|;
    forall o | o in r ensures r[o].offset == o && Chosen(all, r[o]) {
      if o in seen {
        var k: nat :| Counts(met, k) && met[k] == seen[o];
        if o != leaf.offset || !leaf.txid || seen[o].txid {
          assert Counts(all, k) && all[k] == met[k];
        } else {
          assert Counts(all, n) && all[n] == leaf;
        }
      } else {
        assert Counts(all, n) && all[n] == leaf;
      }
    }
  }

  method GatherLevel(stumps: seq<Stump>, level: nat) returns (seen: map<nat, Leaf>)
    ensures Gathered(Met(stumps, |stumps|, level), seen) && forall o | o in seen :: seen[o].offset == o
  {
    hide Gathered;
    seen := NoneSeen();
    var i := 0;
    while i < |stumps|
      invariant 0 <= i <= |stumps|
      invariant Gathered(Met(stumps, i, level), seen)
    {
      ghost var met := Met(stumps, i, level);
      assert met + [] == met;
      if level < |stumps[i].paths| {
        var ls := stumps[i].paths[level];
        var j := 0;
        while j < |ls|
          invariant 0 <= j <= |ls|
          invariant Gathered(met + ls[..j], seen)
        {
          seen := See(seen, ls[j], met + ls[..j]);
          assert met + ls[..j] + [ls[j]] == met + ls[..j + 1];
          j := j + 1;
        }
        assert ls[..j] == ls;
      }
      i := i + 1;
    }
    SeenByOffset(Met(stumps, |stumps|, level), seen);
  }

  lemma SeenByOffset(met: seq<Leaf>, seen: map<nat, Leaf>)
    requires Gathered(met, seen)
    ensures forall o | o in seen :: seen[o].offset == o
  {
  }

  method NoneSeen() returns (seen: map<nat, Leaf>)
    ensures Gathered([], seen)
  {
    seen := map[];
  }

  /** What is met is what is listed. */
  lemma {:induction false} MetIsListed(stumps: seq<Stump>, n: nat, level: nat, l: Leaf)
    requires n <= |stumps|
    ensures l in Met(stumps, n, level) <==> Listed(stumps, n, level, l)
  {
    if n == 0 {
    } else {
      MetIsListed(stumps, n - 1, level, l);
      if ListedIn(stumps[n - 1], level, l) {
        assert Listed(stumps, n, level, l);
      }
    }
  }

  /** The values of `seen` as a list, in the order the map happens to give. */
  method Values(seen: map<nat, Leaf>) returns (ls: seq<Leaf>)
    requires forall o | o in seen :: seen[o].offset == o
    ensures DistinctOffsets(ls) && forall l :: l in ls <==> l.offset in seen && seen[l.offset] == l
  {
    ls := [];
    var rest := seen.Keys;
    while rest != {}
      invariant rest <= seen.Keys
      invariant DistinctOffsets(ls)
      invariant forall l :: l in ls <==> l.offset in seen && l.offset !in rest && seen[l.offset] == l
    {
      var o :| o in rest;
      assert forall i | 0 <= i < |ls| :: ls[i] in ls;
      ls := ls + [seen[o]];
      rest := rest - {o};
    }
  }

  /** What one merged level is: by offset, one leaf for each offset listed anywhere, a txid if one of them is. */
  ghost predicate IsMerged(stumps: seq<Stump>, level: nat, ls: seq<Leaf>) {
    && Ascending(ls)
    && (forall l | l in ls :: Listed(stumps, |stumps|, level, l))
    && (forall l | Listed(stumps, |stumps|, level, l) :: exists m :: m in ls && Covers(m, l))
  }

  /** Every leaf of the merged level is the one that counts for its offset. */
  ghost predicate AllChosen(stumps: seq<Stump>, level: nat, ls: seq<Leaf>) {
    forall l | l in ls :: Chosen(Met(stumps, |stumps|, level), l)
  }

  lemma MergedFrom(stumps: seq<Stump>, level: nat, seen: map<nat, Leaf>, ls: seq<Leaf>)
    requires Gathered(Met(stumps, |stumps|, level), seen)
    requires Ascending(ls) && forall l :: l in ls <==> l.offset in seen && seen[l.offset] == l
    ensures IsMerged(stumps, level, ls) && AllChosen(stumps, level, ls)
  {
    hide Met, Listed, Ascending;
    var met := Met(stumps, |stumps|, level);
    forall l | l in ls ensures Listed(stumps, |stumps|, level, l) {
      MetIsListed(stumps, |stumps|, level, l);
    }
    forall l | Listed(stumps, |stumps|, level, l) ensures exists m :: m in ls && Covers(m, l) {
      MetIsListed(stumps, |stumps|, level, l);
      var k :| 0 <= k < |met| && met[k] == l;
      assert seen[l.offset] in ls;
    }
  }

  /** MergeSTUMPs. */
  method MergeStumps(stumps: seq<Stump>) returns (r: Option<Stump>)
    ensures r.None? <==> stumps == []
    ensures |stumps| == 1 ==> r == Some(stumps[0])
    ensures |stumps| > 1 ==>
              && r.value.blockHeight == stumps[0].blockHeight
              && r.value.treeHeight == |r.value.paths| == stumps[0].treeHeight
              && forall k: nat | k < |r.value.paths| ::
                   IsMerged(stumps, k, r.value.paths[k]) && AllChosen(stumps, k, r.value.paths[k])
  {
    hide IsMerged, AllChosen, Gathered, Ascending, DistinctOffsets;
    if |stumps| == 0 {
      return None;
    }
    if |stumps| == 1 {
      return Some(stumps[0]);
    }
    var paths: seq<seq<Leaf>> := [];
    while |paths| < stumps[0].treeHeight
      invariant |paths| <= stumps[0].treeHeight
      invariant forall k: nat | k < |paths| :: IsMerged(stumps, k, paths[k]) && AllChosen(stumps, k, paths[k])
    {
      ghost var level := |paths|;
      var seen := GatherLevel(stumps, |paths|);
      var values := Values(seen);
      var sorted := SortByOffset(values);
      MergedFrom(stumps, level, seen, sorted);
      paths := paths + [sorted];
    }
    r := Some(Stump(stumps[0].blockHeight, stumps[0].treeHeight, paths));
  }

  /** All the leaves several sets register. */
  ghost function Union(regs: seq<set<nat>>): set<nat> {
    set i, x | 0 <= i < |regs| && x in regs[i] :: x
  }

  lemma {:induction false} NeededOfUnion(regs: seq<set<nat>>, level: nat, o: nat)
    ensures o in Needed(Union(regs), level) <==> exists i :: 0 <= i < |regs| && o in Needed(regs[i], level)
  {
    if level == 0 {
    } else {
      if o in Needed(Union(regs), level) {
        var x :| x in Needed(Union(regs), level - 1) && x / 2 == o;
        NeededOfUnion(regs, level - 1, x);
        var i :| 0 <= i < |regs| && x in Needed(regs[i], level - 1);
        assert o in Needed(regs[i], level);
      }
      forall i | 0 <= i < |regs| && o in Needed(regs[i], level) ensures o in Needed(Union(regs), level) {
        var x :| x in Needed(regs[i], level - 1) && x / 2 == o;
        NeededOfUnion(regs, level - 1, x);
      }
    }
  }

  lemma OffsetsOfUnion(regs: seq<set<nat>>, level: nat, o: nat)
    ensures o in Offsets(Union(regs), level) <==> exists i :: 0 <= i < |regs| && o in Offsets(regs[i], level)
  {
    if o in Offsets(Union(regs), level) {
      if x :| x in Needed(Union(regs), level) && Sibling(x) == o {
        NeededOfUnion(regs, level, x);
        var i :| 0 <= i < |regs| && x in Needed(regs[i], level);
        assert o in Offsets(regs[i], level);
      } else {
        var i :| 0 <= i < |regs| && o in regs[i];
        assert o in Offsets(regs[i], level);
      }
    }
    forall i | 0 <= i < |regs| && o in Offsets(regs[i], level) ensures o in Offsets(Union(regs), level) {
      if x :| x in Needed(regs[i], level) && Sibling(x) == o {
        NeededOfUnion(regs, level, x);
      }
    }
  }

  /** What a STUMP lists at a level, and that it lists all of it. */
  lemma ListsExactly(t: Tree, reg: set<nat>, height: nat, s: Stump, level: nat, l: Leaf)
    requires |t.leaves| >= 1 && level < Height(|t.leaves|) && IsStump(t, reg, height, s)
    ensures ListedIn(s, level, l) <==> l.offset in Offsets(reg, level) && l == EntryAt(t, reg, level, l.offset)
  {
    assert IsLevel(t, reg, level, s.paths[level]);
  }

  /** Entries of one node for different sets differ at most in the txid flag. */
  lemma EntryAcross(t: Tree, a: set<nat>, b: set<nat>, level: nat, o: nat)
    requires |t.leaves| >= 1
    ensures var e := EntryAt(t, a, level, o);
            e.offset == o
            && EntryAt(t, b, level, o) == e.(txid := level == 0 && !e.duplicate && o in b)
            && e.txid == (level == 0 && !e.duplicate && o in a)
  {
  }

  lemma SameOffset(ls: seq<Leaf>, a: Leaf, b: Leaf)
    requires Ascending(ls) && a in ls && b in ls && a.offset == b.offset
    ensures a == b
  {
    var i :| 0 <= i < |ls| && ls[i] == a;
    var j :| 0 <= j < |ls| && ls[j] == b;
  }

  lemma UnionMember(regs: seq<set<nat>>, i: nat, o: nat)
    requires i < |regs| && o in regs[i]
    ensures o in Union(regs)
  {
  }

  /**
   The merged entry of an offset is the entry for the union: flagged exactly if one of the sets registers that leaf.
   */
  lemma MergedEntry(t: Tree, regs: seq<set<nat>>, height: nat, stumps: seq<Stump>, level: nat, ls: seq<Leaf>, l: Leaf)
    requires |t.leaves| >= 1 && |regs| == |stumps| && level < Height(|t.leaves|)
    requires forall i | 0 <= i < |regs| :: IsStump(t, regs[i], height, stumps[i])
    requires IsMerged(stumps, level, ls) && l in ls
    ensures l.offset in Offsets(Union(regs), level) && l == EntryAt(t, Union(regs), level, l.offset)
  {
    hide IsStump, EntryAt, Offsets, Height, ListedIn, Ascending, Union;
    assert Listed(stumps, |stumps|, level, l);
    var i :| 0 <= i < |stumps| && ListedIn(stumps[i], level, l);
    ListsExactly(t, regs[i], height, stumps[i], level, l);
    OffsetsOfUnion(regs, level, l.offset);
    EntryAcross(t, regs[i], Union(regs), level, l.offset);
    if level == 0 && !l.duplicate && l.offset in Union(regs) {
      UnionHas(regs, l.offset);
      var j :| 0 <= j < |regs| && l.offset in regs[j];
      EntryAcross(t, regs[i], regs[j], level, l.offset);
      RegisteredIsListed(regs[j], l.offset);
      var e := EntryAt(t, regs[j], level, l.offset);
      ListsExactly(t, regs[j], height, stumps[j], level, e);
      assert Listed(stumps, |stumps|, level, e);
      var m :| m in ls && Covers(m, e);
      SameOffset(ls, m, l);
    }
    if l.offset in regs[i] {
      UnionMember(regs, i, l.offset);
    }
  }

  lemma UnionHas(regs: seq<set<nat>>, o: nat)
    requires o in Union(regs)
    ensures exists j :: 0 <= j < |regs| && o in regs[j]
  {
  }

  lemma RegisteredIsListed(reg: set<nat>, o: nat)
    requires o in reg
    ensures o in Offsets(reg, 0)
  {
  }

  /** A merged level of STUMPs of one tree is the level of the union. */
  lemma MergedLevelIsLevel(t: Tree, regs: seq<set<nat>>, height: nat, stumps: seq<Stump>, level: nat, ls: seq<Leaf>)
    requires |t.leaves| >= 1 && |regs| == |stumps| && level < Height(|t.leaves|)
    requires forall i | 0 <= i < |regs| :: IsStump(t, regs[i], height, stumps[i])
    requires IsMerged(stumps, level, ls)
    ensures IsLevel(t, Union(regs), level, ls)
  {
    hide IsStump, EntryAt, Offsets, Height, ListedIn, Union;
    forall l | l in ls ensures l.offset in Offsets(Union(regs), level)
        && l == EntryAt(t, Union(regs), level, l.offset) {
      MergedEntry(t, regs, height, stumps, level, ls, l);
    }
    forall o | o in Offsets(Union(regs), level) ensures EntryAt(t, Union(regs), level, o) in ls {
      OffsetsOfUnion(regs, level, o);
      var i :| 0 <= i < |regs| && o in Offsets(regs[i], level);
      var e := EntryAt(t, regs[i], level, o);
      EntryAcross(t, regs[i], regs[i], level, o);
      ListsExactly(t, regs[i], height, stumps[i], level, e);
      assert Listed(stumps, |stumps|, level, e);
      var m :| m in ls && Covers(m, e);
      MergedEntry(t, regs, height, stumps, level, ls, m);
    }
  }

  /** Merging the STUMPs of several registered sets yields the STUMP of their union. */
  lemma MergeIsBuildOfUnion(t: Tree, regs: seq<set<nat>>, height: nat, stumps: seq<Stump>, merged: Stump, direct: Stump)
    requires |t.leaves| >= 1 && |regs| == |stumps| >= 1
    requires forall i | 0 <= i < |regs| :: IsStump(t, regs[i], height, stumps[i])
    requires if |stumps| == 1 then merged == stumps[0]
             else && merged.blockHeight == stumps[0].blockHeight
                  && merged.treeHeight == |merged.paths| == stumps[0].treeHeight
                  && forall k: nat | k < |merged.paths| :: IsMerged(stumps, k, merged.paths[k])
    requires IsStump(t, Union(regs), height, direct)
    ensures merged == direct
  {
    if |stumps| == 1 {
      assert Union(regs) == regs[0];
    } else {
      forall k: nat | k < |merged.paths| ensures IsLevel(t, Union(regs), k, merged.paths[k]) {
        MergedLevelIsLevel(t, regs, height, stumps, k, merged.paths[k]);
      }
    }
    StumpUnique(t, Union(regs), height, merged, direct);
  }
}
