/** ProcessBlockSubtree: from the parsed nodes of a subtree to its encoded STUMP and the txids of every callback URL. */
module SubtreeProcessor {
  import opened Prelude
  import opened StumpSpec
  import opened StumpBuilder
  import opened StumpCodec
  import opened RegistrationCache

  type Groups = map<string, seq<string>>

  function Occurrences(g: Groups, url: string, txid: string): nat {
    if url in g then multiset(g[url])[txid] else 0
  }

  /**
   Inverting a txid-to-URLs map: every URL gets every txid as often as the txid lists it, and no URL is left empty.
   */
  ghost predicate Inverts(regs: Store, done: set<string>, g: Groups) {
    && (forall u, t :: Occurrences(g, u, t) == if t in done && t in regs then multiset(regs[t])[u] else 0)
    && (forall u | u in g :: g[u] != [])
  }

  /** One callback of the inner loop. */
  method AddOne(g: Groups, url: string, txid: string) returns (r: Groups)
    requires forall u | u in g :: g[u] != []
    ensures forall u, t :: Occurrences(r, u, t) == Occurrences(g, u, t) + if u == url && t == txid then 1 else 0
    ensures forall u | u in r :: r[u] != []
  {
    var old' := if url in g then g[url] else [];
    r := g[url := old' + [txid]];
  }

  /** The callbacks of one txid. */
  method AddAll(g: Groups, urls: seq<string>, txid: string) returns (r: Groups)
    requires forall u | u in g :: g[u] != []
    ensures forall u, t :: Occurrences(r, u, t) == Occurrences(g, u, t) + if t == txid then multiset(urls)[u] else 0
    ensures forall u | u in r :: r[u] != []
  {
    r := g;
    var i := 0;
    while i < |urls|
      invariant 0 <= i <= |urls|
      invariant forall u, t ::
                  Occurrences(r, u, t) == Occurrences(g, u, t) + if t == txid then multiset(urls[..i])[u] else 0
      invariant forall u | u in r :: r[u] != []
    {
      hide Occurrences;
      r := AddOne(r, urls[i], txid);
      assert urls[..i + 1] == urls[..i] + [urls[i]];
      i := i + 1;
    }
    assert urls[..i] == urls;
  }

  /** GroupByCallback. */
  method GroupByCallback(regs: Store) returns (g: Groups)
    ensures Inverts(regs, regs.Keys, g)
    ensures forall u, t :: u in g && t in g[u] ==> t in regs && u in regs[t]
    ensures forall u, t :: t in regs && u in regs[t] ==> u in g && t in g[u]
  {
    g := map[];
    var rest := regs.Keys;
    while rest != {}
      invariant rest <= regs.Keys
      invariant Inverts(regs, regs.Keys - rest, g)
    {
      var t :| t in rest;
      g := AddAll(g, regs[t], t);
      rest := rest - {t};
    }
    assert regs.Keys - {} == regs.Keys;
    forall u, t ensures (u in g && t in g[u]) <==> (t in regs && u in regs[t]) {
      assert Occurrences(g, u, t) == if t in regs.Keys && t in regs then multiset(regs[t])[u] else 0;
      assert u in g && t in g[u] <==> Occurrences(g, u, t) > 0;
    }
  }

  datatype SubtreeResult = SubtreeResult(groups: Groups, stump: Bytes)

  /** The leaf index of every txid, the last one if it occurs twice. */
  method IndexTxids(txids: seq<string>) returns (m: map<string, nat>)
    ensures forall t :: t in m <==> t in txids
    ensures forall t | t in m :: LastPlace(txids, m[t]) && txids[m[t]] == t
  {
    m := map[];
    var i := 0;
    while i < |txids|
      invariant 0 <= i <= |txids|
      invariant forall t :: t in m <==> t in txids[..i]
      invariant forall t | t in m :: m[t] < i && txids[m[t]] == t && forall j | m[t] < j < i :: txids[j] != t
    {
      m := m[txids[i] := i];
      assert txids[..i + 1] == txids[..i] + [txids[i]];
      i := i + 1;
    }
    assert txids[..i] == txids;
  }

  /** The registered leaf indices, with their txids. */
  method MapIndices(regs: Store, index: map<string, nat>) returns (r: map<nat, string>)
    ensures forall i | i in r :: r[i] in regs && r[i] in index && index[r[i]] == i
    ensures forall t | t in regs && t in index :: index[t] in r
  {
    r := map[];
    var rest := regs.Keys;
    while rest != {}
      invariant rest <= regs.Keys
      invariant forall i | i in r :: r[i] in regs && r[i] in index && index[r[i]] == i
      invariant forall t | t in regs && t !in rest && t in index :: index[t] in r
    {
      var t :| t in rest;
      if t in index {
        r := r[index[t] := t];
      }
      rest := rest - {t};
    }
  }

  /** `t` is the txid of a leaf. */
  ghost predicate InSubtree(nodes: seq<Bytes>, txidOf: Bytes -> string, t: string) {
    exists i :: 0 <= i < |nodes| && txidOf(nodes[i]) == t
  }

  /** `i` is a leaf with txid `t`. */
  predicate LeafOf(nodes: seq<Bytes>, txidOf: Bytes -> string, i: nat, t: string) {
    i < |nodes| && txidOf(nodes[i]) == t
  }

  /**
   `reg` are the leaves of the registered txids: each of them a registered txid, at its last place, and every registered
   txid among them.
   */
  ghost predicate RegisteredLeaves(nodes: seq<Bytes>, txidOf: Bytes -> string, store: Store, reg: set<nat>) {
    && (forall i | i in reg :: i < |nodes| && txidOf(nodes[i]) in store)
    && (forall i, j | i in reg && i < j < |nodes| :: txidOf(nodes[j]) != txidOf(nodes[i]))
    && (forall t | t in store && InSubtree(nodes, txidOf, t) :: exists j :: j in reg && LeafOf(nodes, txidOf, j, t))
  }

  /** The txids of the nodes, in order. */
  method Txids(nodes: seq<Bytes>, txidOf: Bytes -> string) returns (r: seq<string>)
    ensures |r| == |nodes| && forall i | 0 <= i < |r| :: r[i] == txidOf(nodes[i])
    ensures forall t :: t in r <==> InSubtree(nodes, txidOf, t)
  {
    r := seq(|nodes|, i requires 0 <= i < |nodes| => txidOf(nodes[i]));
    forall t | InSubtree(nodes, txidOf, t) ensures t in r {
      var i :| 0 <= i < |nodes| && txidOf(nodes[i]) == t;
      assert r[i] in r;
    }
    forall t | t in r ensures InSubtree(nodes, txidOf, t) {
      var i :| 0 <= i < |r| && r[i] == t;
    }
  }

  /** The registrations of the subtree's txids and the leaves they are at. */
  method FindRegistered(nodes: seq<Bytes>, txidOf: Bytes -> string, store: Store)
      returns (registrations: Store, registered: map<nat, string>)
    ensures forall t :: t in registrations <==> t in store && InSubtree(nodes, txidOf, t)
    ensures forall t | t in registrations :: registrations[t] == store[t]
    ensures RegisteredLeaves(nodes, txidOf, store, registered.Keys)
    ensures forall i | i in registered :: i < |nodes|
    ensures registrations == map[] <==> registered == map[]
  {
    hide InSubtree, RegisteredLeaves;
    var txids := Txids(nodes, txidOf);
    var index := IndexTxids(txids);
    registrations := BatchGet(store, txids);
    registered := MapIndices(registrations, index);
    forall t | t in registrations ensures t in index && index[t] in registered {
    }
    LeavesAreRegistered(nodes, txidOf, store, txids, index, registrations, registered);
  }

  /** The place of a txid in `txids` is its last. */
  ghost predicate LastPlace(txids: seq<string>, i: nat) {
    i < |txids| && forall j | i < j < |txids| :: txids[j] != txids[i]
  }

  lemma LeavesAreRegistered(nodes: seq<Bytes>, txidOf: Bytes -> string, store: Store, txids: seq<string>,
                            index: map<string, nat>, registrations: Store, registered: map<nat, string>)
    requires |txids| == |nodes| && forall i | 0 <= i < |txids| :: txids[i] == txidOf(nodes[i])
    requires forall t | t in index :: LastPlace(txids, index[t]) && txids[index[t]] == t
    requires forall t :: t in registrations <==> t in store && InSubtree(nodes, txidOf, t)
    requires forall t | t in registrations :: t in index && index[t] in registered
    requires forall i | i in registered ::
               registered[i] in registrations && registered[i] in index && index[registered[i]] == i
    ensures RegisteredLeaves(nodes, txidOf, store, registered.Keys)
  {
    hide InSubtree;
    forall t | t in store && InSubtree(nodes, txidOf, t)
      ensures exists j :: j in registered.Keys && LeafOf(nodes, txidOf, j, t)
    {
      assert t in registrations;
      assert LeafOf(nodes, txidOf, index[t], t);
    }
    forall i, j | i in registered.Keys && i < j < |nodes| ensures txidOf(nodes[j]) != txidOf(nodes[i]) {
      assert LastPlace(txids, index[registered[i]]);
      assert txids[j] == txidOf(nodes[j]) && txids[i] == txidOf(nodes[i]);
    }
    hide LastPlace;
  }

  /** What ProcessBlockSubtree can come to. */
  datatype SubtreeOutcome = Failed | Nothing | Processed(result: SubtreeResult)

  const HASH_SIZE: nat := 32

  /** The hashes that raw subtree data consists of. */
  function NodesOf(raw: Bytes): (r: seq<Bytes>)
    requires |raw| % HASH_SIZE == 0
    ensures |r| == |raw| / HASH_SIZE && forall i | 0 <= i < |r| :: |r[i]| == 32
    ensures forall i, j | 0 <= i < |r| && 0 <= j < 32 :: r[i][j] == raw[32 * i + j]
  {
    seq(|raw| / HASH_SIZE, i requires 0 <= i < |raw| / HASH_SIZE => raw[i * HASH_SIZE..(i + 1) * HASH_SIZE])
  }

  /** ParseRawNodes: an error unless the data is a whole number of hashes. */
  method ParseRawNodes(raw: Bytes) returns (nodes: Option<seq<Bytes>>)
    ensures nodes == if |raw| % HASH_SIZE == 0 then Some(NodesOf(raw)) else None
  {
    if |raw| % HASH_SIZE != 0 {
      return None;
    }
    var count := |raw| / HASH_SIZE;
    var r: seq<Bytes> := [];
    while |r| < count
      invariant |r| <= count && r == NodesOf(raw)[..|r|]
    {
      r := r + [raw[|r| * HASH_SIZE..(|r| + 1) * HASH_SIZE]];
    }
    assert r == NodesOf(raw);
    nodes := Some(r);
  }

  /** Nothing in the subtree is registered. */
  ghost predicate NoneRegistered(nodes: seq<Bytes>, txidOf: Bytes -> string, store: Store) {
    forall t | t in store :: !InSubtree(nodes, txidOf, t)
  }

  /** The result is the encoded STUMP `s` of the registered leaves `reg`, and exactly the registrations by URL. */
  ghost predicate IsResult(nodes: seq<Bytes>, internal: seq<Bytes>, blockHeight: nat, txidOf: Bytes -> string,
                           store: Store,
                           reg: set<nat>, s: Stump, r: SubtreeResult) {
    && nodes != [] && RegisteredLeaves(nodes, txidOf, store, reg)
    && IsStump(Tree(nodes, internal), reg, blockHeight, s)
    && StumpCodec.Fits(s) && r.stump == EncodeStump(s)
    && (forall u, t :: (u in r.groups && t in r.groups[u])
          <==> (t in store && u in store[t] && InSubtree(nodes, txidOf, t)))
    && (forall u, t :: Occurrences(r.groups, u, t)
                       == if t in store && InSubtree(nodes, txidOf, t) then multiset(store[t])[u] else 0)
  }

  /** The result is that of some registered leaves and their STUMP. */
  ghost predicate HasResult(nodes: seq<Bytes>, internal: seq<Bytes>, blockHeight: nat, txidOf: Bytes -> string,
                            store: Store, r: SubtreeResult) {
    exists reg, s :: IsResult(nodes, internal, blockHeight, txidOf, store, reg, s, r)
  }

  lemma GroupsExact(registrations: Store, groups: Groups, nodes: seq<Bytes>, txidOf: Bytes -> string, store: Store)
    requires Inverts(registrations, registrations.Keys, groups)
    requires forall t :: t in registrations <==> t in store && InSubtree(nodes, txidOf, t)
    requires forall t | t in registrations :: registrations[t] == store[t]
    ensures forall u, t :: Occurrences(groups, u, t)
                           == if t in store && InSubtree(nodes, txidOf, t) then multiset(store[t])[u] else 0
  {
    hide InSubtree, Occurrences;
  }

  /** The steps from the registered leaves to the result. */
  method BuildResult(nodes: seq<Bytes>, internal: seq<Bytes>, blockHeight: nat, ghost txidOf: Bytes -> string,
                     ghost store: Store,
                     registrations: Store, registered: map<nat, string>)
      returns (r: SubtreeResult)
    requires 1 <= |nodes| <= MAX_LEAVES && blockHeight < U64 && registered != map[]
    requires forall h | h in nodes + internal :: |h| == HASH_SIZE
    requires forall t :: t in registrations <==> t in store && InSubtree(nodes, txidOf, t)
    requires forall t | t in registrations :: registrations[t] == store[t]
    requires RegisteredLeaves(nodes, txidOf, store, registered.Keys)
    requires forall i | i in registered :: i < |nodes|
    ensures HasResult(nodes, internal, blockHeight, txidOf, store, r)
  {
    hide IsStump, EncodeStump, StumpCodec.Fits, Decode, Encodable, Inverts, InSubtree, RegisteredLeaves, Occurrences;
    var built := Build(blockHeight, nodes, internal, registered);
    BuiltRoundTrips(Tree(nodes, internal), registered.Keys, blockHeight, built.value);
    var data := Encode(built.value);
    var groups := GroupByCallback(registrations);
    GroupsExact(registrations, groups, nodes, txidOf, store);
    r := SubtreeResult(groups, data);
    assert IsResult(nodes, internal, blockHeight, txidOf, store, registered.Keys, built.value, r);
  }

  /**
   ProcessBlockSubtree. `stored` and `fetched` are what the blob store and the DataHub return, `storeOk` says whether
   the registration store answers, and `merkle` builds the internal nodes. It fails for missing or malformed data, a
   failing store or a failing tree; it yields nothing for an empty subtree or one without registered txids; else the
   encoded STUMP of the registered leaves, and the registrations grouped by URL.
   */
  method ProcessBlockSubtree(stored: Option<Bytes>, fetched: Option<Bytes>, blockHeight: nat, txidOf: Bytes -> string,
                             store: Store, storeOk: bool, merkle: seq<Bytes> -> Option<seq<Bytes>>)
      returns (r: SubtreeOutcome)
    requires stored.Some? ==> |stored.value| <= MAX_LEAVES * HASH_SIZE
    requires fetched.Some? ==> |fetched.value| <= MAX_LEAVES * HASH_SIZE
    requires blockHeight < U64
    requires forall ns: seq<Bytes>, h | merkle(ns).Some? && h in merkle(ns).value :: |h| == HASH_SIZE
    ensures var raw := if stored.Some? then stored else fetched;
            if raw.None? || |raw.value| % HASH_SIZE != 0 then r == Failed
            else
              var nodes := NodesOf(raw.value);
              if nodes == [] then r == Nothing
              else if !storeOk then r == Failed
              else if NoneRegistered(nodes, txidOf, store) then r == Nothing
              else if merkle(nodes).None? then r == Failed
              else r.Processed? && HasResult(nodes, merkle(nodes).value, blockHeight, txidOf, store, r.result)
  {
    hide HasResult, InSubtree, RegisteredLeaves, NodesOf;
    var raw := stored;
    if raw.None? {
      raw := fetched;
    }
    if raw.None? {
      return Failed;
    }
    var parsed := ParseRawNodes(raw.value);
    if parsed.None? {
      return Failed;
    }
    var nodes := parsed.value;
    if |nodes| == 0 {
      return Nothing;
    }
    if !storeOk {
      return Failed;
    }
    var registrations, registered := FindRegistered(nodes, txidOf, store);
    if registrations == map[] {
      return Nothing;
    }
    ghost var t :| t in registrations;
    assert t in store && InSubtree(nodes, txidOf, t);
    var internal := merkle(nodes);
    if internal.None? {
      return Failed;
    }
    var result := BuildResult(nodes, internal.value, blockHeight, txidOf, store, registrations, registered);
    r := Processed(result);
  }

  /** A registered leaf is listed at level 0, flagged as a txid, with its own hash. */
  lemma RegisteredLeafListed(t: Tree, reg: set<nat>, height: nat, s: Stump, j: nat)
    requires |t.leaves| >= 2 && IsStump(t, reg, height, s) && j in reg && j < |t.leaves|
    ensures |s.paths| >= 1 && Leaf(j, t.leaves[j], true, false) in s.paths[0]
  {
    assert IsLevel(t, reg, 0, s.paths[0]);
    assert j in Offsets(reg, 0);
    assert EntryAt(t, reg, 0, j) == Leaf(j, t.leaves[j], true, false);
  }

  /** A registered txid is a flagged level-0 leaf of the decoded STUMP, whose levels lead from it to the root. */
  lemma StumpProofsHold(H: HashFn, nodes: seq<Bytes>, internal: seq<Bytes>, blockHeight: nat, txidOf: Bytes -> string,
                        store: Store, reg: set<nat>, s: Stump, t: string)
    requires 2 <= |nodes| <= MAX_LEAVES && blockHeight < U64
    requires forall h | h in nodes + internal :: |h| == 32
    requires IsMerkle(H, Tree(nodes, internal)) && RegisteredLeaves(nodes, txidOf, store, reg)
    requires IsStump(Tree(nodes, internal), reg, blockHeight, s)
    requires t in store && InSubtree(nodes, txidOf, t)
    ensures StumpCodec.Fits(s)
    ensures var d := Decode(EncodeStump(s));
            && d == Parsed(s, []) && |d.value.paths| >= 1
            && exists l :: l in d.value.paths[0] && l.txid && !l.duplicate && txidOf(l.hash) == t
                 && Climb(H, d.value.paths, 0, l.offset, l.hash) == Some(Root(Tree(nodes, internal)))
  {
    hide Decode, EncodeStump, StumpCodec.Fits, Encodable, Climb, Root, IsMerkle, IsStump, InSubtree;
    var tree := Tree(nodes, internal);
    BuiltRoundTrips(tree, reg, blockHeight, s);
    var j :| j in reg && LeafOf(nodes, txidOf, j, t);
    RegisteredLeafListed(tree, reg, blockHeight, s, j);
    ProofReachesRoot(H, tree, reg, blockHeight, s, j);
  }

  /**
   End to end for a subtree of two or more leaves: decode the published bytes, and for every txid in every callback
   group there is a level-0 leaf flagged as txid with that txid, from which the decoded levels lead to the subtree's
   root.
   */
  lemma {:induction false} PublishedProofsHold(H: HashFn, nodes: seq<Bytes>, internal: seq<Bytes>, blockHeight: nat,
                                               txidOf: Bytes -> string, store: Store, r: SubtreeResult,
                                               u: string, t: string)
    requires 2 <= |nodes| <= MAX_LEAVES && blockHeight < U64
    requires forall h | h in nodes + internal :: |h| == HASH_SIZE
    requires IsMerkle(H, Tree(nodes, internal)) && HasResult(nodes, internal, blockHeight, txidOf, store, r)
    requires u in r.groups && t in r.groups[u]
    ensures var d := Decode(r.stump);
            && d.Parsed? && d.rest == [] && |d.value.paths| >= 1
            && exists l :: l in d.value.paths[0] && l.txid && !l.duplicate && txidOf(l.hash) == t
                 && Climb(H, d.value.paths, 0, l.offset, l.hash) == Some(Root(Tree(nodes, internal)))
  {
    hide Decode, EncodeStump, StumpCodec.Fits, Climb, Root, IsMerkle, IsStump, InSubtree, RegisteredLeaves;
    var reg, s :| IsResult(nodes, internal, blockHeight, txidOf, store, reg, s, r);
    StumpProofsHold(H, nodes, internal, blockHeight, txidOf, store, reg, s, t);
  }
}
