/**
 The registration cache over the sharded cache, and the lookup that uses it: cached answers save store
 lookups but never change the result.
 */
module RegistrationCache {
  import opened Prelude
  import opened RingLedger
  import opened UnallocatedBucket
  import opened GenerationTags
  import opened ShardedCache

  // ---------------------------------------------------------------- hex

  function HexDigit(c: char): Option<nat> {
    if '0' <= c <= '9' then Some(c as int - '0' as int)
    else if 'a' <= c <= 'f' then Some(c as int - 'a' as int + 10)
    else if 'A' <= c <= 'F' then Some(c as int - 'A' as int + 10)
    else None
  }

  /** `hex.DecodeString`: None for an odd length or a character that is no hex digit. */
  function HexDecode(s: string): Option<Bytes> {
    if s == [] then Some([])
    else if |s| == 1 then None
    else
      var hi, lo, rest := HexDigit(s[0]), HexDigit(s[1]), HexDecode(s[2..]);
      if hi.Some? && lo.Some? && rest.Some? && hi.value < 16 && lo.value < 16
      then Some([hi.value * 16 + lo.value] + rest.value) else None
  }

  /** What the API accepts as a txid: 64 hex digits in either case. */
  predicate IsTxid(s: string) {
    |s| == 64 && forall i | 0 <= i < |s| :: HexDigit(s[i]).Some?
  }

  lemma {:induction false} HexDecodes(s: string)
    requires |s| % 2 == 0 && forall i | 0 <= i < |s| :: HexDigit(s[i]).Some?
    ensures HexDecode(s).Some? && 2 * |HexDecode(s).value| == |s|
  {
    if s == [] {
    } else {
      HexDecodes(s[2..]);
    }
  }

  /** Two strings share a cache key exactly if they have the same digits, upper or lower case. */
  lemma {:induction false} SameKeyIffSameDigits(a: string, b: string)
    requires HexDecode(a).Some?
    ensures HexDecode(a) == HexDecode(b) <==> |a| == |b| && forall i | 0 <= i < |a| :: HexDigit(a[i]) == HexDigit(b[i])
  {
    if a == [] {
    } else if |b| < 2 {
      if |b| == 0 {
        assert HexDecode(a).value != [];
      }
    } else {
      SameKeyIffSameDigits(a[2..], b[2..]);
      SameKeyHeads(a, b);
      assert (forall i | 0 <= i < |a[2..]| :: a[2..][i] == a[i + 2])
          && (forall i | 0 <= i < |b[2..]| :: b[2..][i] == b[i + 2]);
      if |a| == |b| && forall i | 0 <= i < |a[2..]| :: HexDigit(a[2..][i]) == HexDigit(b[2..][i]) {
        forall i | 2 <= i < |a| ensures HexDigit(a[i]) == HexDigit(b[i]) {
          assert a[2..][i - 2] == a[i] && b[2..][i - 2] == b[i];
        }
      }
    }
  }

  lemma SameKeyHeads(a: string, b: string)
    requires |a| >= 2 && |b| >= 2 && HexDecode(a).Some?
    ensures HexDecode(a) == HexDecode(b)
       <==> HexDecode(a[2..]) == HexDecode(b[2..])
            && HexDigit(a[0]) == HexDigit(b[0]) && HexDigit(a[1]) == HexDigit(b[1])
  {
    var x := HexDecode(a).value;
    assert x[1..] == HexDecode(a[2..]).value;
    if HexDecode(b).Some? {
      var y := HexDecode(b).value;
      assert y[1..] == HexDecode(b[2..]).value;
      assert x == [x[0]] + x[1..] && y == [y[0]] + y[1..];
    }
  }

  /** The spelling `Hash.String()` produces. */
  predicate LowerHex(s: string) {
    forall i | 0 <= i < |s| :: '0' <= s[i] <= '9' || 'a' <= s[i] <= 'f'
  }

  /** Two txids in that spelling never share a cache key. */
  lemma LowerHexInjective(a: string, b: string)
    requires LowerHex(a) && LowerHex(b) && HexDecode(a).Some? && HexDecode(a) == HexDecode(b)
    ensures a == b
  {
    SameKeyIffSameDigits(a, b);
    forall i | 0 <= i < |a| ensures a[i] == b[i] {
      assert HexDigit(a[i]) == HexDigit(b[i]);
    }
  }

  function HexChar(n: nat): char
    requires n < 16
  {
    if n < 10 then ('0' as int + n) as char else ('a' as int + n - 10) as char
  }

  function HexEncode(b: Bytes): string {
    if b == [] then [] else [HexChar(b[0] / 16), HexChar(b[0] % 16)] + HexEncode(b[1..])
  }

  function Reversed(b: Bytes): (r: Bytes)
    ensures |r| == |b| && forall i | 0 <= i < |b| :: r[i] == b[|b| - 1 - i]
  {
    if b == [] then [] else Reversed(b[1..]) + [b[0]]
  }

  /** `Hash.String()`: the bytes in reverse, as hex. */
  function TxidString(h: Bytes): string {
    HexEncode(Reversed(h))
  }

  /** The sixteen digits, in either case, and nothing else. */
  lemma HexDigits(c: char, n: nat)
    ensures HexDigit(c) == Some(n)
       <==> n < 16 && (c == "0123456789abcdef"[n] || c == "0123456789ABCDEF"[n])
  {
    var lower, upper := "0123456789abcdef", "0123456789ABCDEF";
    assert n < 16 ==> lower[n] == HexChar(n) && (n >= 10 ==> upper[n] == ('A' as int + n - 10) as char)
                      && (n < 10 ==> upper[n] == lower[n]);
  }

  lemma HexCharIsLower(n: nat)
    requires n < 16
    ensures HexDigit(HexChar(n)) == Some(n) && LowerHex([HexChar(n)])
  {
  }

  lemma {:induction false} HexEncodeIsLower(b: Bytes)
    ensures LowerHex(HexEncode(b)) && HexDecode(HexEncode(b)) == Some(b)
  {
    if b == [] {
    } else {
      hide HexChar, HexDigit, HexDecode;
      var hi, lo, rest := HexChar(b[0] / 16), HexChar(b[0] % 16), HexEncode(b[1..]);
      HexEncodeIsLower(b[1..]);
      HexCharIsLower(b[0] / 16);
      HexCharIsLower(b[0] % 16);
      HexDecodeCons(hi, lo, rest);
      assert b == [b[0]] + b[1..];
      assert [hi][0] == hi && [lo][0] == lo;
    }
  }

  lemma HexDecodeCons(hi: char, lo: char, rest: string)
    requires HexDigit(hi).Some? && HexDigit(lo).Some? && HexDecode(rest).Some?
    ensures HexDigit(hi).value < 16 && HexDigit(lo).value < 16
    ensures HexDecode([hi, lo] + rest) == Some([HexDigit(hi).value * 16 + HexDigit(lo).value] + HexDecode(rest).value)
  {
    assert ([hi, lo] + rest)[2..] == rest;
  }

  lemma {:induction false} HexEncodeAt(b: Bytes, i: nat)
    requires i < |b|
    ensures |HexEncode(b)| == 2 * |b|
    ensures HexEncode(b)[2 * i] == "0123456789abcdef"[b[i] / 16]
    ensures HexEncode(b)[2 * i + 1] == "0123456789abcdef"[b[i] % 16]
  {
    if |b| > 1 {
      HexEncodeAt(b[1..], if i == 0 then 0 else i - 1);
    }
  }

  /**
   Every txid the subtree processor looks up is spelled in lower case, two digits for every byte from the last to the
   first, and has a cache key.
   */
  lemma TxidStringIsLower(h: Bytes)
    ensures LowerHex(TxidString(h)) && HexDecode(TxidString(h)) == Some(Reversed(h))
    ensures |TxidString(h)| == 2 * |h|
    ensures forall i | 0 <= i < |h| :: TxidString(h)[2 * i] == "0123456789abcdef"[h[|h| - 1 - i] / 16]
                                       && TxidString(h)[2 * i + 1] == "0123456789abcdef"[h[|h| - 1 - i] % 16]
  {
    HexEncodeIsLower(Reversed(h));
    forall i | 0 <= i < |h| ensures |TxidString(h)| == 2 * |h|
      && TxidString(h)[2 * i] == "0123456789abcdef"[h[|h| - 1 - i] / 16]
      && TxidString(h)[2 * i + 1] == "0123456789abcdef"[h[|h| - 1 - i] % 16] {
      HexEncodeAt(Reversed(h), i);
    }
    if |h| > 0 {
      HexEncodeAt(Reversed(h), 0);
    }
  }

  // ---------------------------------------------------------------- the cache

  const NOT_REGISTERED: byte := 0
  const REGISTERED: byte := 1

  type Store = map<string, seq<string>>

  /** `BatchGet`: the registered ones of the given txids, with their callback URLs. */
  function BatchGet(store: Store, txids: seq<string>): Store {
    map t | t in txids && t in store :: store[t]
  }

  /** What the cache with these bucket ledgers returns for a key. */
  function View(hash: Bytes -> nat, ls: seq<Ledger>, k: Bytes): Option<Bytes>
    requires |ls| == BUCKETS
  {
    Lookup(ls[HomeOf(hash, k)], hash(k), k)
  }

  /** isRegistered and isCached. */
  datatype Answer = Answer(registered: bool, cached: bool)

  /** What it says about a txid. */
  function Cached(hash: Bytes -> nat, ls: seq<Ledger>, txid: string): Answer
    requires |ls| == BUCKETS
  {
    var key := HexDecode(txid);
    if key.None? then Answer(false, false)
    else
      var v := View(hash, ls, key.value);
      if v.Some? && |v.value| > 0 then Answer(v.value[0] == REGISTERED, true) else Answer(false, false)
  }

  /** Every cached "not registered" is true of the store. */
  ghost predicate Truthful(hash: Bytes -> nat, ls: seq<Ledger>, store: Store)
    requires |ls| == BUCKETS
  {
    forall t | Cached(hash, ls, t) == Answer(false, true) :: t !in store
  }

  /** The lower-case txids the cache denies: those it says are not registered. */
  ghost function Denied(hash: Bytes -> nat, ls: seq<Ledger>): iset<string>
    requires |ls| == BUCKETS
  {
    iset t | LowerHex(t) && Cached(hash, ls, t) == Answer(false, true)
  }

  ghost predicate AllLower(txids: seq<string>) {
    forall t | t in txids :: LowerHex(t)
  }

  ghost predicate HasKey(txids: seq<string>, k: Bytes) {
    exists i :: 0 <= i < |txids| && HexDecode(txids[i]) == Some(k)
  }

  /** A key shows nothing, what it showed before, or `value` if one of the txids has that key. */
  ghost predicate LossyUpdate(hash: Bytes -> nat, ls: seq<Ledger>, ls': seq<Ledger>, txids: seq<string>, value: byte)
    requires |ls| == |ls'| == BUCKETS
  {
    forall k: Bytes ::
      || View(hash, ls', k) == None
      || View(hash, ls', k) == View(hash, ls, k)
      || (View(hash, ls', k) == Some([value]) && HasKey(txids, k))
  }

  /** No txid of the store shares its cache key with one of `txids` that is not in the store. */
  ghost predicate NoAlias(store: Store, txids: seq<string>) {
    forall t, u | t in txids && t !in store && u in store && HexDecode(t).Some? :: HexDecode(t) != HexDecode(u)
  }

  /** Different spellings can: here a lower-case and an upper-case txid. */
  lemma UpperHexAliases(low: string, up: string, urls: seq<string>)
    requires low == seq(64, _ => 'a') && up == seq(64, _ => 'A')
    ensures IsTxid(low) && IsTxid(up) && low != up && HexDecode(low) == HexDecode(up)
    ensures !NoAlias(map[up := urls], [low])
  {
    assert low[0] != up[0];
    HexDecodes(low);
    SameKeyIffSameDigits(low, up);
    assert low in [low];
  }

  /**
   Marking txids as registered, or marking txids that are not in the store as not registered, keeps the cache truthful.
   */
  lemma StaysTruthful(hash: Bytes -> nat, ls: seq<Ledger>, ls': seq<Ledger>, store: Store, txids: seq<string>,
                      value: byte)
    requires |ls| == |ls'| == BUCKETS && Truthful(hash, ls, store) && LossyUpdate(hash, ls, ls', txids, value)
    requires value == REGISTERED || (NoAlias(store, txids) && forall t | t in txids :: t !in store)
    ensures Truthful(hash, ls', store)
  {
    forall t | Cached(hash, ls', t) == Answer(false, true) ensures t !in store {
      var k := HexDecode(t).value;
      if View(hash, ls', k) == View(hash, ls, k) {
        assert Cached(hash, ls, t) == Answer(false, true);
      } else {
        var i :| 0 <= i < |txids| && HexDecode(txids[i]) == Some(k);
        assert txids[i] in txids;
      }
    }
  }

  /**
   Marking txids as registered denies nothing new; marking lower-case txids as not registered denies at most those,
   whatever spellings the store has.
   */
  lemma DeniesOnly(hash: Bytes -> nat, ls: seq<Ledger>, ls': seq<Ledger>, txids: seq<string>, value: byte)
    requires |ls| == |ls'| == BUCKETS && LossyUpdate(hash, ls, ls', txids, value)
    requires value == REGISTERED || (value == NOT_REGISTERED && AllLower(txids))
    ensures Denied(hash, ls') <= Denied(hash, ls) + if value == REGISTERED then iset{} else iset t | t in txids
  {
    forall t | t in Denied(hash, ls') && t !in Denied(hash, ls)
      ensures value == NOT_REGISTERED && t in txids
    {
      var k := HexDecode(t).value;
      assert View(hash, ls', k) != View(hash, ls, k);
      assert View(hash, ls', k) == Some([value]) && HasKey(txids, k);
      var i :| 0 <= i < |txids| && HexDecode(txids[i]) == Some(k);
      assert txids[i] in txids;
      if value == NOT_REGISTERED {
        LowerHexInjective(t, txids[i]);
      }
    }
  }

  /** The cache keys of those txids that are hex, in order. */
  function DecodedKeys(txids: seq<string>): (r: seq<Bytes>)
    ensures forall k :: k in r <==> exists i :: 0 <= i < |txids| && HexDecode(txids[i]) == Some(k)
  {
    if txids == [] then []
    else
      var k := HexDecode(txids[|txids| - 1]);
      DecodedKeys(txids[..|txids| - 1]) + if k.Some? then [k.value] else []
  }

  /** The same mark for every key. */
  function Marks(n: nat, value: byte): (r: seq<Bytes>)
    ensures |r| == n && forall i | 0 <= i < n :: r[i] == [value]
  {
    seq(n, _ => [value])
  }

  /** The txids without a cached answer, in order. */
  function Uncached(hash: Bytes -> nat, ls: seq<Ledger>, txids: seq<string>): (r: seq<string>)
    requires |ls| == BUCKETS
    ensures forall t :: t in r <==> t in txids && !Cached(hash, ls, t).cached
  {
    if txids == [] then []
    else
      var t := txids[|txids| - 1];
      Uncached(hash, ls, txids[..|txids| - 1]) + if Cached(hash, ls, t).cached then [] else [t]
  }

  /** The txids that are not in the store, in order. */
  function Absent(store: Store, txids: seq<string>): (r: seq<string>)
    ensures forall t :: t in r <==> t in txids && t !in store
  {
    if txids == [] then []
    else
      var t := txids[|txids| - 1];
      Absent(store, txids[..|txids| - 1]) + if t in store then [] else [t]
  }

  /** The txids that are in the store, in order. */
  function Present(store: Store, txids: seq<string>): (r: seq<string>)
    ensures forall t :: t in r <==> t in txids && t in store
  {
    if txids == [] then []
    else
      var t := txids[|txids| - 1];
      Present(store, txids[..|txids| - 1]) + if t in store then [t] else []
  }

  /** The last of `txids` that is hex shares its key, which fits a record, with a txid of the store. */
  ghost predicate LastAliased(store: Store, txids: seq<string>) {
    var keys := DecodedKeys(txids);
    |keys| > 0 && Fits(keys[|keys| - 1], [NOT_REGISTERED]) && exists u ::
        u in store && HexDecode(u) == Some(keys[|keys| - 1])
  }

  /** All buckets have run their batches of marks. */
  ghost predicate Marked(hash: Bytes -> nat, txids: seq<string>, value: byte, oks: map<nat, bool>, was: seq<Snap>,
                         now: seq<Snap>) {
    var keys := DecodedKeys(txids);
    && |was| == |now| == BUCKETS
    && (forall b: nat | b < BUCKETS :: Done(hash, keys, Marks(|keys|, value), oks, was[b], now[b], b))
    && (SameRefusals(was, now) ==> oks == Fitting(keys, Marks(|keys|, value)))
  }

  /** All of `txids` that are hex have been marked, in list order and in one batch; nothing else has been done. */
  ghost predicate AllMarked(hash: Bytes -> nat, txids: seq<string>, value: byte, was: seq<Snap>, now: seq<Snap>) {
    if txids == [] then now == was else exists oks :: Marked(hash, txids, value, oks, was, now)
  }

  /** The whole update of the cache: first the found ones, then the absent ones. */
  ghost predicate Refreshed(hash: Bytes -> nat, found: seq<string>, absent: seq<string>, was: seq<Snap>,
                            now: seq<Snap>) {
    exists mid :: AllMarked(hash, found, REGISTERED, was, mid) && AllMarked(hash, absent, NOT_REGISTERED, mid, now)
  }

  /** The last pair of a batch, if stored, is what its key shows afterwards. */
  lemma LastShows(hash: Bytes -> nat, keys: seq<Bytes>, values: seq<Bytes>, oks: map<nat, bool>, was: Snap, now: Snap)
    requires |keys| == |values| > 0 && (|keys| - 1) in oks && oks[|keys| - 1]
    requires Done(hash, keys, values, oks, was, now, HomeOf(hash, keys[|keys| - 1]))
    ensures var k := keys[|keys| - 1];
            Lookup(now.ledger, hash(k), k) == Some(values[|keys| - 1])
  {
    var i := |keys| - 1;
    OnlyNext(ShardOf(hash, keys), i, HomeOf(hash, keys[i]));
    var order := BatchOf(hash, keys, HomeOf(hash, keys[i]));
    assert order[|order| - 1] == i;
  }

  /** The mark of the last of `txids` that is hex can be read, if it fits a record. */
  ghost predicate LastMarked(hash: Bytes -> nat, ls: seq<Ledger>, txids: seq<string>, value: byte)
    requires |ls| == BUCKETS
  {
    var keys := DecodedKeys(txids);
    |keys| > 0 && Fits(keys[|keys| - 1], [value]) ==> View(hash, ls, keys[|keys| - 1]) == Some([value])
  }

  /** Without a refused mapping it can. */
  lemma MarkingShowsLast(hash: Bytes -> nat, txids: seq<string>, value: byte, oks: map<nat, bool>, was: seq<Snap>,
                         now: seq<Snap>, ls: seq<Ledger>)
    requires Marked(hash, txids, value, oks, was, now) && SameRefusals(was, now)
    requires |ls| == BUCKETS && forall b | 0 <= b < BUCKETS :: ls[b] == now[b].ledger
    ensures LastMarked(hash, ls, txids, value)
  {
    hide Done, Fits;
    var keys := DecodedKeys(txids);
    if |keys| > 0 && Fits(keys[|keys| - 1], [value]) {
      var b := HomeOf(hash, keys[|keys| - 1]);
      LastShows(hash, keys, Marks(|keys|, value), oks, was[b], now[b]);
    }
  }

  /** A mark that can be read denies every spelling of its txid: an alias in the store makes the cache untruthful. */
  lemma AliasBreaksTruth(hash: Bytes -> nat, ls: seq<Ledger>, store: Store, absent: seq<string>)
    requires |ls| == BUCKETS && LastMarked(hash, ls, absent, NOT_REGISTERED) && LastAliased(store, absent)
    ensures !Truthful(hash, ls, store)
  {
    hide Fits;
    var keys := DecodedKeys(absent);
    var k := keys[|keys| - 1];
    var u :| u in store && HexDecode(u) == Some(k);
    assert Cached(hash, ls, u) == Answer(false, true);
  }

  class RegCache {
    const cache: Cache

    constructor (cache: Cache)
      ensures this.cache == cache
    {
      this.cache := cache;
    }

    ghost predicate Valid()
      reads cache, cache.buckets, cache.Mem
    {
      |cache.buckets| == BUCKETS && cache.Valid()
    }

    ghost function Shards(): (r: seq<Ledger>)
      requires |cache.buckets| == BUCKETS
      reads cache.buckets
      ensures |r| == BUCKETS
    {
      Ledgers(cache.buckets)
    }

    /** GetCached. */
    method GetCached(txid: string) returns (isRegistered: bool, isCached: bool)
      requires Valid()
      ensures Answer(isRegistered, isCached) == Cached(cache.hash, Shards(), txid)
    {
      var key := HexDecode(txid);
      if key.None? {
        return false, false;
      }
      var found, dest := cache.Get([], key.value);
      if !found || |dest| == 0 {
        return false, false;
      }
      return dest[0] == REGISTERED, true;
    }

    /** FilterUncached: the txids without a cached answer, and those cached as registered. */
    method FilterUncached(txids: seq<string>) returns (uncached: seq<string>, cachedRegistered: seq<string>)
      requires Valid()
      ensures uncached == Uncached(cache.hash, Shards(), txids)
      ensures forall t :: t in cachedRegistered <==> t in txids && Cached(cache.hash, Shards(), t) == Answer(true, true)
    {
      hide Cached;
      uncached, cachedRegistered := [], [];
      var i := 0;
      while i < |txids|
        invariant 0 <= i <= |txids|
        invariant uncached == Uncached(cache.hash, Shards(), txids[..i])
        invariant forall t ::
                    t in cachedRegistered <==> t in txids[..i] && Cached(cache.hash, Shards(), t) == Answer(true, true)
      {
        var isReg, isCached := GetCached(txids[i]);
        assert txids[..i + 1] == txids[..i] + [txids[i]];
        if !isCached {
          uncached := uncached + [txids[i]];
        } else if isReg {
          cachedRegistered := cachedRegistered + [txids[i]];
        }
        i := i + 1;
      }
      assert txids[..i] == txids;
    }

    ghost function Snaps(): (r: seq<Snap>)
      requires |cache.buckets| == BUCKETS
      reads cache.buckets
      ensures |r| == BUCKETS
    {
      Snapshots(cache.buckets)
    }

    /** The keys of the txids that are hex, and a mark for each. */
    static method DecodeAll(txids: seq<string>, value: byte) returns (keys: seq<Bytes>, values: seq<Bytes>)
      ensures keys == DecodedKeys(txids) && values == Marks(|keys|, value)
    {
      hide HexDecode;
      keys, values := [], [];
      var i := 0;
      while i < |txids|
        invariant 0 <= i <= |txids|
        invariant keys == DecodedKeys(txids[..i]) && values == Marks(|keys|, value)
      {
        assert txids[..i + 1] == txids[..i] + [txids[i]];
        var key := HexDecode(txids[i]);
        if key.Some? {
          keys := keys + [key.value];
          values := values + [[value]];
        }
        i := i + 1;
      }
      assert txids[..i] == txids;
    }

    /**
     SetMultiRegistered and SetMultiNotRegistered, which differ only in the value they store; bad hex is skipped. The
     marks of the others are set in list order, and all are stored unless a mapping is refused.
     */
    method SetMultiAs(txids: seq<string>, value: byte) returns (ghost oks: map<nat, bool>)
      requires Valid()
      modifies cache, cache.buckets, cache.Mem
      ensures Valid() && fresh(cache.Mem - old(cache.Mem))
      ensures Marked(cache.hash, txids, value, oks, old(Snaps()), Snaps())
      ensures LossyUpdate(cache.hash, old(Shards()), Shards(), txids, value)
    {
      hide Cache.Valid, DecodedKeys, HexDecode, Done, Fits, LossyUpdate, Marked, Fitting, SameRefusals;
      var keys, values := DecodeAll(txids, value);
      ghost var was := Snaps();
      if |keys| == 0 {
        oks := map[];
        NothingMarked(cache.hash, txids, value, was);
        NothingShown(cache.hash, txids, value, Shards());
        return;
      }
      ghost var before := Shards();
      forall b: nat | b < BUCKETS ensures Ok(before[b]) {
        LedgerOk(b);
      }
      oks := cache.SetMulti(keys, values);
      MarkedIntro(cache.hash, txids, value, oks, was, Snaps());
      MarkingIsLossy(cache.hash, txids, value, oks, was, Snaps(), before, Shards());
    }

    lemma LedgerOk(b: nat)
      requires Valid() && b < BUCKETS
      ensures Ok(cache.buckets[b].ledger)
    {
      cache.buckets[b].LedgerIsReplay();
    }
  }

  lemma NothingMarked(hash: Bytes -> nat, txids: seq<string>, value: byte, was: seq<Snap>)
    requires DecodedKeys(txids) == [] && |was| == BUCKETS
    ensures Marked(hash, txids, value, map[], was, was)
  {
    hide DecodedKeys, BatchDone;
    forall b: nat | b < BUCKETS ensures Done(hash, [], Marks(0, value), map[], was[b], was[b], b) {
      BatchFacts(hash, [], b);
      NothingToDo(hash, [], Marks(0, value), map[], was[b], b);
    }
  }

  lemma NothingShown(hash: Bytes -> nat, txids: seq<string>, value: byte, ls: seq<Ledger>)
    requires |ls| == BUCKETS
    ensures LossyUpdate(hash, ls, ls, txids, value)
  {
  }

  lemma MarkedIntro(hash: Bytes -> nat, txids: seq<string>, value: byte, oks: map<nat, bool>, was: seq<Snap>,
                    now: seq<Snap>)
    requires |was| == |now| == BUCKETS
    requires var keys := DecodedKeys(txids);
             forall b: nat | b < BUCKETS :: Done(hash, keys, Marks(|keys|, value), oks, was[b], now[b], b)
    requires SameRefusals(was, now) ==> oks == Fitting(DecodedKeys(txids), Marks(|DecodedKeys(txids)|, value))
    ensures Marked(hash, txids, value, oks, was, now)
  {
    hide Done, DecodedKeys, SameRefusals;
  }

  lemma MarkingIsLossy(hash: Bytes -> nat, txids: seq<string>, value: byte, oks: map<nat, bool>, was: seq<Snap>,
                       now: seq<Snap>,
                       ls: seq<Ledger>, ls': seq<Ledger>)
    requires Marked(hash, txids, value, oks, was, now) && |ls| == |ls'| == BUCKETS
    requires forall b: nat | b < BUCKETS :: ls[b] == was[b].ledger && ls'[b] == now[b].ledger && Ok(ls[b])
    ensures LossyUpdate(hash, ls, ls', txids, value)
  {
    hide Fits, Ok, Lookup, RunBucket, AllFittingStored, OnlyFittingStored, StoredIn;
    var keys := DecodedKeys(txids);
    DoneStoredFit(hash, keys, Marks(|keys|, value), oks, was, now);
    forall k: Bytes
      ensures var v := View(hash, ls', k);
              v == None || v == View(hash, ls, k) || (v == Some([value]) && HasKey(txids, k))
    {
      var b := HomeOf(hash, k);
      assert Done(hash, keys, Marks(|keys|, value), oks, was[b], now[b], b);
      BatchIsLossy(hash, keys, Marks(|keys|, value), oks, ls[b], BatchOf(hash, keys, b), k);
    }
  }

  /** What the store says of the txids that are not cached as not registered. */
  function Answerable(hash: Bytes -> nat, ls: seq<Ledger>, store: Store, txids: seq<string>): Store
    requires |ls| == BUCKETS
  {
    map t | t in txids && t in store && Cached(hash, ls, t) != Answer(false, true) :: store[t]
  }

  /** The two lookups together are one lookup of everything: what neither asks for is not in the store. */
  lemma LookupsCombine(hash: Bytes -> nat, ls: seq<Ledger>, store: Store, txids: seq<string>, uncached: seq<string>,
                       registered: seq<string>)
    requires |ls| == BUCKETS
    requires forall t :: t in uncached <==> t in txids && !Cached(hash, ls, t).cached
    requires forall t :: t in registered <==> t in txids && Cached(hash, ls, t) == Answer(true, true)
    ensures BatchGet(store, uncached) + BatchGet(store, registered) == Answerable(hash, ls, store, txids)
    ensures Truthful(hash, ls, store) ==> Answerable(hash, ls, store, txids) == BatchGet(store, txids)
    ensures AllLower(txids) && (forall t | t in txids && t in store :: t !in Denied(hash, ls)) ==>
              Answerable(hash, ls, store, txids) == BatchGet(store, txids)
    ensures BatchGet(store, uncached) == map t | t in txids && !Cached(hash, ls, t).cached && t in store :: store[t]
    ensures BatchGet(store, []) == map[]
    ensures BatchGet(store, uncached) + map[] == BatchGet(store, uncached)
  {
    hide Cached;
  }

  /**
   findRegisteredTxids with a cache. `uncachedOk` and `cachedOk` say whether the two store lookups succeed. The result
   is the store's answer for every txid that is not cached as not registered, so with a truthful cache it is the store's
   answer for all: a stale "registered" or an evicted answer cannot change it. If only the second lookup fails, the
   txids cached as registered are missing; if the first is needed and fails, the call fails. For txids in lower case,
   which are the only ones the service looks up, the cache afterwards denies nothing but what it denied before and the
   absent ones of the list. Taken over all spellings, it stays truthful unless an absent txid has an alias in the store;
   and if the last absent one has, and no mapping is refused, it does not.
   */
  method FindRegisteredTxids(rc: RegCache, store: Store, txids: seq<string>, uncachedOk: bool, cachedOk: bool)
      returns (err: bool, all: Store)
    requires rc.Valid()
    modifies rc.cache, rc.cache.buckets, rc.cache.Mem
    ensures rc.Valid() && fresh(rc.cache.Mem - old(rc.cache.Mem)) && NoFewerRefusals(old(rc.Snaps()), rc.Snaps())
    ensures var hash, ls := rc.cache.hash, old(rc.Shards());
            && (err <==> !uncachedOk && exists t :: t in txids && !Cached(hash, ls, t).cached)
            && (!err && cachedOk ==> all == Answerable(hash, ls, store, txids))
            && (!err && cachedOk && Truthful(hash, ls, store) ==> all == BatchGet(store, txids))
            && (!err && !cachedOk ==>
                  all == map t | t in txids && !Cached(hash, ls, t).cached && t in store :: store[t])
            && (AllLower(txids) ==> Denied(hash, rc.Shards()) <= Denied(hash, ls) + iset t | t in txids && t !in store)
            && (!err && cachedOk && AllLower(txids)
                  && (forall t | t in txids && t in store :: t !in Denied(hash, ls)) ==>
                  all == BatchGet(store, txids))
            && (Truthful(hash, ls, store) && NoAlias(store, txids) ==> Truthful(hash, rc.Shards(), store))
            && (err ==> rc.Snaps() == old(rc.Snaps()))
            && (!err ==> Refreshed(hash, Present(store, Uncached(hash, ls, txids)),
                                   Absent(store, Uncached(hash, ls, txids)), old(rc.Snaps()), rc.Snaps()))
            && (!err && SameRefusals(old(rc.Snaps()), rc.Snaps()) ==>
                  LastMarked(hash, rc.Shards(), Absent(store, Uncached(hash, ls, txids)), NOT_REGISTERED))
            && (!err && SameRefusals(old(rc.Snaps()), rc.Snaps()) && Absent(store, Uncached(hash, ls, txids)) == [] ==>
                  LastMarked(hash, rc.Shards(), Present(store, Uncached(hash, ls, txids)), REGISTERED))
  {
    hide Cached, Ledgers, HexDecode, BatchGet, Truthful, LastMarked, SameRefusals, Answerable, Absent, Cache.Valid,
      NoFewerRefusals, Denied, LowerHex, Refreshed;
    ghost var hash, ls := rc.cache.hash, rc.Shards();
    RefusalsSame(rc.Snaps());
    var uncached, cachedRegistered := rc.FilterUncached(txids);
    LookupsCombine(hash, ls, store, txids, uncached, cachedRegistered);
    var fromStore: Store := map[];
    if |uncached| > 0 {
      if !uncachedOk {
        assert uncached[0] in uncached;
        return true, map[];
      }
      fromStore := BatchGet(store, uncached);
    }
    UpdateCache(rc, store, uncached, fromStore);
    err, all := false, fromStore;
    if |cachedRegistered| > 0 && cachedOk {
      all := all + BatchGet(store, cachedRegistered);
    }
  }

  /** The cache update of findRegisteredTxids. */
  method UpdateCache(rc: RegCache, store: Store, uncached: seq<string>, fromStore: Store)
    requires rc.Valid() && fromStore == BatchGet(store, uncached)
    modifies rc.cache, rc.cache.buckets, rc.cache.Mem
    ensures rc.Valid() && fresh(rc.cache.Mem - old(rc.cache.Mem)) && NoFewerRefusals(old(rc.Snaps()), rc.Snaps())
    ensures AllLower(uncached) ==>
              Denied(rc.cache.hash, rc.Shards()) <=
              Denied(rc.cache.hash, old(rc.Shards())) + iset t | t in uncached && t !in store
    ensures Truthful(rc.cache.hash, old(rc.Shards()), store) && NoAlias(store, uncached) ==>
              Truthful(rc.cache.hash, rc.Shards(), store)
    ensures Refreshed(rc.cache.hash, Present(store, uncached), Absent(store, uncached), old(rc.Snaps()), rc.Snaps())
    ensures SameRefusals(old(rc.Snaps()), rc.Snaps()) ==>
              LastMarked(rc.cache.hash, rc.Shards(), Absent(store, uncached), NOT_REGISTERED)
    ensures SameRefusals(old(rc.Snaps()), rc.Snaps()) && Absent(store, uncached) == [] ==>
              LastMarked(rc.cache.hash, rc.Shards(), Present(store, uncached), REGISTERED)
  {
    hide Truthful, Cache.Valid, HexDecode, LastMarked, Absent, SameRefusals, NoFewerRefusals, BatchGet, Denied,
      LowerHex, AllLower, NoAlias, AllMarked;
    AbsentFacts(store, uncached);
    var found, notFound := Partition(store, uncached, fromStore);
    ghost var start := rc.Snaps();
    MarkFound(rc, store, found);
    MarkAbsent(rc, store, notFound, start);
  }

  lemma AbsentFacts(store: Store, txids: seq<string>)
    ensures AllLower(txids) ==> AllLower(Absent(store, txids))
    ensures NoAlias(store, txids) ==> NoAlias(store, Absent(store, txids))
    ensures (iset t | t in Absent(store, txids)) == iset t | t in txids && t !in store
  {
    hide Absent, LowerHex, HexDecode;
  }

  /** The first part of the update: the txids the store knows. */
  method MarkFound(rc: RegCache, ghost store: Store, found: seq<string>)
    requires rc.Valid()
    modifies rc.cache, rc.cache.buckets, rc.cache.Mem
    ensures rc.Valid() && fresh(rc.cache.Mem - old(rc.cache.Mem)) && NoFewerRefusals(old(rc.Snaps()), rc.Snaps())
    ensures Denied(rc.cache.hash, rc.Shards()) <= Denied(rc.cache.hash, old(rc.Shards()))
    ensures AllMarked(rc.cache.hash, found, REGISTERED, old(rc.Snaps()), rc.Snaps())
    ensures SameRefusals(old(rc.Snaps()), rc.Snaps()) ==> LastMarked(rc.cache.hash, rc.Shards(), found, REGISTERED)
    ensures Truthful(rc.cache.hash, old(rc.Shards()), store) ==> Truthful(rc.cache.hash, rc.Shards(), store)
  {
    hide Denied, LowerHex, Truthful, LossyUpdate, Cache.Valid, HexDecode, Marked, NoFewerRefusals, LastMarked,
      SameRefusals;
    ghost var hash, ls, start := rc.cache.hash, rc.Shards(), rc.Snaps();
    RefusalsSame(start);
    if |found| > 0 {
      ghost var oks := rc.SetMultiAs(found, REGISTERED);
      RefusalsGrow(hash, found, REGISTERED, oks, start, rc.Snaps());
      if SameRefusals(start, rc.Snaps()) {
        MarkingShowsLast(hash, found, REGISTERED, oks, start, rc.Snaps(), rc.Shards());
      }
      DeniesOnly(hash, ls, rc.Shards(), found, REGISTERED);
      if Truthful(hash, ls, store) {
        StaysTruthful(hash, ls, rc.Shards(), store, found, REGISTERED);
      }
    } else {
      NoneMarked(hash, rc.Shards(), REGISTERED);
    }
  }

  /** The last part of the update: the txids the store does not know. */
  method MarkAbsent(rc: RegCache, store: Store, notFound: seq<string>, ghost start: seq<Snap>)
    requires rc.Valid() && (forall t | t in notFound :: t !in store)
    requires |start| == BUCKETS && NoFewerRefusals(start, rc.Snaps())
    modifies rc.cache, rc.cache.buckets, rc.cache.Mem
    ensures rc.Valid() && fresh(rc.cache.Mem - old(rc.cache.Mem)) && NoFewerRefusals(start, rc.Snaps())
    ensures AllLower(notFound) ==>
              Denied(rc.cache.hash, rc.Shards()) <= Denied(rc.cache.hash, old(rc.Shards())) + iset t | t in notFound
    ensures Truthful(rc.cache.hash, old(rc.Shards()), store) && NoAlias(store, notFound) ==>
              Truthful(rc.cache.hash, rc.Shards(), store)
    ensures AllMarked(rc.cache.hash, notFound, NOT_REGISTERED, old(rc.Snaps()), rc.Snaps())
    ensures SameRefusals(start, rc.Snaps()) ==> LastMarked(rc.cache.hash, rc.Shards(), notFound, NOT_REGISTERED)
    ensures notFound == [] ==> rc.Snaps() == old(rc.Snaps()) && rc.Shards() == old(rc.Shards())
  {
    hide Truthful, LossyUpdate, Cache.Valid, HexDecode, Marked, LastMarked, SameRefusals, NoFewerRefusals, Denied,
      LowerHex;
    ghost var hash, ls, mid := rc.cache.hash, rc.Shards(), rc.Snaps();
    if |notFound| > 0 {
      ghost var oks := rc.SetMultiAs(notFound, NOT_REGISTERED);
      ghost var now := rc.Snaps();
      RefusalsGrow(hash, notFound, NOT_REGISTERED, oks, mid, now);
      RefusalsBetween(start, mid, now);
      if AllLower(notFound) {
        DeniesOnly(hash, ls, rc.Shards(), notFound, NOT_REGISTERED);
      }
      if Truthful(hash, ls, store) && NoAlias(store, notFound) {
        StaysTruthful(hash, ls, rc.Shards(), store, notFound, NOT_REGISTERED);
      }
      if SameRefusals(start, now) {
        MarkingShowsLast(hash, notFound, NOT_REGISTERED, oks, mid, now, rc.Shards());
      }
    } else {
      NoneMarked(hash, rc.Shards(), NOT_REGISTERED);
    }
  }

  lemma NoneMarked(hash: Bytes -> nat, ls: seq<Ledger>, value: byte)
    requires |ls| == BUCKETS
    ensures LastMarked(hash, ls, [], value)
  {
  }

  ghost predicate NoFewerRefusals(was: seq<Snap>, now: seq<Snap>) {
    |was| == |now| && forall b | 0 <= b < |was| :: was[b].refused <= now[b].refused
  }

  lemma RefusalsSame(was: seq<Snap>)
    ensures NoFewerRefusals(was, was)
  {
  }

  lemma RefusalsGrow(hash: Bytes -> nat, txids: seq<string>, value: byte, oks: map<nat, bool>, was: seq<Snap>,
                     now: seq<Snap>)
    requires Marked(hash, txids, value, oks, was, now)
    ensures NoFewerRefusals(was, now)
  {
    hide AllFittingStored, OnlyFittingStored, RunBucket, StoredIn, DecodedKeys, BatchOf, Fitting;
    var keys := DecodedKeys(txids);
    forall b | 0 <= b < BUCKETS ensures was[b].refused <= now[b].refused {
      assert Done(hash, keys, Marks(|keys|, value), oks, was[b], now[b], b);
    }
  }

  lemma RefusalsBetween(a: seq<Snap>, b: seq<Snap>, c: seq<Snap>)
    requires NoFewerRefusals(a, b) && NoFewerRefusals(b, c)
    ensures NoFewerRefusals(a, c) && (SameRefusals(a, c) ==> SameRefusals(b, c))
  {
  }

  /** The txids the store returned and those it did not, in order. */
  method Partition(ghost store: Store, uncached: seq<string>, fromStore: Store)
      returns (found: seq<string>, notFound: seq<string>)
    requires fromStore == BatchGet(store, uncached)
    ensures notFound == Absent(store, uncached) && found == Present(store, uncached)
  {
    found, notFound := [], [];
    var i := 0;
    while i < |uncached|
      invariant 0 <= i <= |uncached|
      invariant notFound == Absent(store, uncached[..i]) && found == Present(store, uncached[..i])
    {
      assert uncached[..i + 1] == uncached[..i] + [uncached[i]];
      if uncached[i] in fromStore {
        found := found + [uncached[i]];
      } else {
        notFound := notFound + [uncached[i]];
      }
      i := i + 1;
    }
    assert uncached[..i] == uncached;
  }

  // ---------------------------------------------------------------- exactly when the cache stays truthful

  /** A new cache has no answers. */
  lemma NewIsTruthful(hash: Bytes -> nat, ls: seq<Ledger>, store: Store)
    requires |ls| == BUCKETS && forall b | 0 <= b < BUCKETS :: ls[b].index == map[]
    ensures Truthful(hash, ls, store) && (forall t :: !Cached(hash, ls, t).cached) && Denied(hash, ls) == iset{}
  {
  }

  /** For one txid the two sides of NoAlias are all there is. */
  lemma OneAbsent(hash: Bytes -> nat, ls: seq<Ledger>, store: Store, t: string)
    requires |ls| == BUCKETS && IsTxid(t) && t !in store && !Cached(hash, ls, t).cached
    ensures Absent(store, Uncached(hash, ls, [t])) == [t]
    ensures LastAliased(store, [t]) <==> !NoAlias(store, [t])
    ensures HexDecode(t).Some? && DecodedKeys([t]) == [HexDecode(t).value] && Fits(HexDecode(t).value, [NOT_REGISTERED])
  {
    hide Cached, HexDecode, Fits, Uncached, Absent, DecodedKeys;
    OneKey(t);
    OneUncached(hash, ls, t);
    OneLeft(store, t);
    assert t in [t];
  }

  lemma OneKey(t: string)
    requires IsTxid(t)
    ensures HexDecode(t).Some? && DecodedKeys([t]) == [HexDecode(t).value] && Fits(HexDecode(t).value, [NOT_REGISTERED])
  {
    HexDecodes(t);
    hide HexDecode;
    assert [t][..0] == [];
    assert DecodedKeys([t]) == DecodedKeys([]) + [HexDecode(t).value];
  }

  lemma OneUncached(hash: Bytes -> nat, ls: seq<Ledger>, t: string)
    requires |ls| == BUCKETS && !Cached(hash, ls, t).cached
    ensures Uncached(hash, ls, [t]) == [t]
  {
    hide Cached;
    assert [t][..0] == [];
    assert Uncached(hash, ls, [t]) == Uncached(hash, ls, []) + [t];
  }

  lemma OneLeft(store: Store, t: string)
    requires t !in store
    ensures Absent(store, [t]) == [t]
  {
    assert [t][..0] == [];
    assert Absent(store, [t]) == Absent(store, []) + [t];
  }

  /**
   Looking up one absent txid in a truthful cache that has no answer for it: unless a mapping is refused, the cache is
   truthful afterwards if and only if no txid of the store is an alias of it.
   */
  method LookUpAbsent(rc: RegCache, store: Store, t: string) returns (all: Store)
    requires rc.Valid() && IsTxid(t) && t !in store
    requires Truthful(rc.cache.hash, rc.Shards(), store) && !Cached(rc.cache.hash, rc.Shards(), t).cached
    modifies rc.cache, rc.cache.buckets, rc.cache.Mem
    ensures rc.Valid() && fresh(rc.cache.Mem - old(rc.cache.Mem)) && all == map[]
    ensures NoFewerRefusals(old(rc.Snaps()), rc.Snaps())
    ensures SameRefusals(old(rc.Snaps()), rc.Snaps()) ==>
              (Truthful(rc.cache.hash, rc.Shards(), store) <==> NoAlias(store, [t]))
  {
    hide Cached, Truthful, LastAliased, LastMarked, SameRefusals, NoAlias, Cache.Valid, HexDecode, Denied, LowerHex,
      NoFewerRefusals;
    OneAbsent(rc.cache.hash, rc.Shards(), store, t);
    var err;
    err, all := FindRegisteredTxids(rc, store, [t], true, true);
    if LastMarked(rc.cache.hash, rc.Shards(), [t], NOT_REGISTERED) && !NoAlias(store, [t]) {
      AliasBreaksTruth(rc.cache.hash, rc.Shards(), store, [t]);
    }
  }

  /** A registration cache over a new cache. */
  method NewRegCache(hash: Bytes -> nat, maxBytes: int, ghost store: Store) returns (rc: Option<RegCache>)
    ensures rc.Some? <==> maxBytes > 0 && BucketBytes(maxBytes) < OFFSETS
    ensures rc.Some? ==>
              && rc.value.Valid() && fresh(rc.value.cache) && fresh(rc.value.cache.buckets) && fresh(rc.value.cache.Mem)
              && rc.value.cache.hash == hash && Truthful(hash, rc.value.Shards(), store)
              && (forall t :: !Cached(hash, rc.value.Shards(), t).cached) && Denied(hash, rc.value.Shards()) == iset{}
              && (forall b | 0 <= b < BUCKETS :: rc.value.Snaps()[b].refused == 0)
  {
    var c := New(hash, maxBytes);
    if c.None? {
      return None;
    }
    var r := new RegCache(c.value);
    forall b | 0 <= b < BUCKETS ensures r.Shards()[b].index == map[] {
      r.cache.buckets[b].LedgerIsReplay();
    }
    hide Bucket.Valid;
    NewIsTruthful(hash, r.Shards(), store);
    rc := Some(r);
  }

  // ---------------------------------------------------------------- runs of lookups

  /** One call of findRegisteredTxids: the store as it is then, the txids, and whether the store answers. */
  datatype Call = Call(store: Store, txids: seq<string>, uncachedOk: bool, cachedOk: bool)

  /** A call looked `t` up before it was registered. */
  predicate Misses(c: Call, t: string) {
    t in c.txids && t !in c.store
  }

  /** One of the first `n` calls did. */
  ghost predicate MissedBefore(calls: seq<Call>, n: nat, t: string) {
    exists i :: 0 <= i < n && i < |calls| && Misses(calls[i], t)
  }

  /** What the calls so far can have made the cache deny. */
  ghost function MissedBy(calls: seq<Call>, n: nat): iset<string> {
    iset t | MissedBefore(calls, n, t)
  }

  lemma NothingMissed(calls: seq<Call>)
    ensures MissedBy(calls, 0) == iset{}
  {
  }

  lemma MissedNext(calls: seq<Call>, n: nat)
    requires n < |calls|
    ensures MissedBy(calls, n + 1) == MissedBy(calls, n) + iset t | t in calls[n].txids && t !in calls[n].store
  {
    forall t ensures MissedBefore(calls, n + 1, t) <==> MissedBefore(calls, n, t) || Misses(calls[n], t) {
    }
  }

  /** The answer is the store's, except for txids that an earlier call looked up before they were registered. */
  ghost predicate Answers(calls: seq<Call>, n: nat, r: Option<Store>)
    requires n < |calls|
  {
    var c := calls[n];
    c.uncachedOk && c.cachedOk ==>
      && r.Some?
      && (forall t | t in r.value :: t in c.txids && t in c.store && r.value[t] == c.store[t])
      && (forall t | t in c.txids && t in c.store && t !in r.value :: MissedBefore(calls, n, t))
  }

  lemma AnswersWell(hash: Bytes -> nat, ls: seq<Ledger>, calls: seq<Call>, n: nat, all: Store)
    requires |ls| == BUCKETS && n < |calls| && AllLower(calls[n].txids)
    requires Denied(hash, ls) <= MissedBy(calls, n) && all == Answerable(hash, ls, calls[n].store, calls[n].txids)
    ensures Answers(calls, n, Some(all))
  {
    hide Cached, LowerHex, MissedBefore;
    var c := calls[n];
    forall t | t in c.txids && t in c.store && t !in all ensures MissedBefore(calls, n, t) {
      assert t in Denied(hash, ls);
    }
  }

  /**
   Any run of lookups from a new cache, with lower-case txids as the service makes them and the store changing in
   between: a call returns the store's answer, and can only miss a txid that an earlier call looked up before it was
   registered.
   */
  method RunCalls(hash: Bytes -> nat, maxBytes: int, calls: seq<Call>) returns (results: seq<Option<Store>>)
    requires maxBytes > 0 && BucketBytes(maxBytes) < OFFSETS
    requires forall i | 0 <= i < |calls| :: AllLower(calls[i].txids)
    ensures |results| == |calls|
    ensures forall i | 0 <= i < |calls| :: Answers(calls, i, results[i])
  {
    hide Cached, Denied, LowerHex, Answers, Truthful, Cache.Valid, AllLower;
    var created := NewRegCache(hash, maxBytes, map[]);
    results := RunOn(created.value, calls);
  }

  /** The calls of a run, on a cache that denies nothing. */
  method RunOn(rc: RegCache, calls: seq<Call>) returns (results: seq<Option<Store>>)
    requires rc.Valid() && Denied(rc.cache.hash, rc.Shards()) == iset{}
    requires forall i | 0 <= i < |calls| :: AllLower(calls[i].txids)
    modifies rc.cache, rc.cache.buckets, rc.cache.Mem
    ensures |results| == |calls|
    ensures forall i | 0 <= i < |calls| :: Answers(calls, i, results[i])
  {
    hide Cached, Denied, LowerHex, Answers, Truthful, Cache.Valid, MissedBy, AllLower;
    NothingMissed(calls);
    results := [];
    while |results| < |calls|
      invariant |results| <= |calls| && rc.Valid() && fresh(rc.cache.Mem - old(rc.cache.Mem))
      invariant Denied(rc.cache.hash, rc.Shards()) <= MissedBy(calls, |results|)
      invariant forall i | 0 <= i < |results| :: Answers(calls, i, results[i])
    {
      var r := OneCall(rc, calls, |results|);
      MissedNext(calls, |results|);
      results := results + [r];
    }
  }

  /** One call of a run. */
  method OneCall(rc: RegCache, calls: seq<Call>, n: nat) returns (r: Option<Store>)
    requires rc.Valid() && n < |calls| && AllLower(calls[n].txids)
    requires Denied(rc.cache.hash, rc.Shards()) <= MissedBy(calls, n)
    modifies rc.cache, rc.cache.buckets, rc.cache.Mem
    ensures rc.Valid() && fresh(rc.cache.Mem - old(rc.cache.Mem)) && Answers(calls, n, r)
    ensures Denied(rc.cache.hash, rc.Shards())
         <= Denied(rc.cache.hash, old(rc.Shards())) + iset t | t in calls[n].txids && t !in calls[n].store
  {
    hide Cached, Denied, LowerHex, Truthful, Cache.Valid, MissedBefore, Answerable, NoAlias, LastAliased;
    var c := calls[n];
    ghost var ls := rc.Shards();
    var err, all := FindRegisteredTxids(rc, c.store, c.txids, c.uncachedOk, c.cachedOk);
    if !err && c.cachedOk {
      AnswersWell(rc.cache.hash, ls, calls, n, all);
    }
    r := if err then None else Some(all);
  }

  /** So if no txid is registered after a call that missed it, every call returns exactly the store's answer. */
  lemma NeverLateIsExact(calls: seq<Call>, n: nat, r: Option<Store>)
    requires n < |calls| && Answers(calls, n, r) && calls[n].uncachedOk && calls[n].cachedOk
    requires forall i, t | 0 <= i < n && Misses(calls[i], t) :: t !in calls[n].store
    ensures r == Some(BatchGet(calls[n].store, calls[n].txids))
  {
    var c := calls[n];
    forall t | MissedBefore(calls, n, t) ensures t !in c.store {
      var i :| 0 <= i < n && i < |calls| && Misses(calls[i], t);
    }
    assert r.value == BatchGet(c.store, c.txids);
  }

  /**
   A registration that comes too late: `t` is looked up, registered, and looked up again. Unless a mapping is refused,
   the second lookup returns the store's answer if and only if the store still has no `t`.
   */
  method LookUpAgain(rc: RegCache, before: Store, after: Store, t: string) returns (all: Store)
    requires rc.Valid() && IsTxid(t) && LowerHex(t) && t !in before
    requires !Cached(rc.cache.hash, rc.Shards(), t).cached
    modifies rc.cache, rc.cache.buckets, rc.cache.Mem
    ensures rc.Valid()
    ensures SameRefusals(old(rc.Snaps()), rc.Snaps()) ==>
              all == map[] && (all == BatchGet(after, [t]) <==> t !in after)
  {
    hide Denied, Truthful, Cache.Valid, HexDecode, SameRefusals, NoFewerRefusals, Cached, LastMarked, LowerHex,
      Answerable, LastAliased, NoAlias;
    ghost var hash, start := rc.cache.hash, rc.Snaps();
    OneAbsent(hash, rc.Shards(), before, t);
    var err, none := FindRegisteredTxids(rc, before, [t], true, true);
    ghost var ls, mid := rc.Shards(), rc.Snaps();
    if LastMarked(hash, ls, [t], NOT_REGISTERED) {
      MarkDenies(hash, ls, after, t);
    }
    err, all := FindRegisteredTxids(rc, after, [t], true, true);
    RefusalsBefore(start, mid, rc.Snaps());
    assert t in after ==> t in BatchGet(after, [t]);
  }

  /** A readable mark of `t` makes the next lookup of `t` find nothing. */
  lemma MarkDenies(hash: Bytes -> nat, ls: seq<Ledger>, store: Store, t: string)
    requires |ls| == BUCKETS && HexDecode(t).Some? && DecodedKeys([t]) == [HexDecode(t).value]
    requires Fits(HexDecode(t).value, [NOT_REGISTERED]) && LastMarked(hash, ls, [t], NOT_REGISTERED)
    ensures Cached(hash, ls, t) == Answer(false, true) && Answerable(hash, ls, store, [t]) == map[]
  {
    hide HexDecode, Fits, DecodedKeys;
    assert Cached(hash, ls, t) == Answer(false, true);
    hide Cached;
  }

  /** Looking up a registered txid makes the cache say so, unless a mapping is refused. */
  method LookUpPresent(rc: RegCache, store: Store, t: string) returns (all: Store)
    requires rc.Valid() && IsTxid(t) && t in store && !Cached(rc.cache.hash, rc.Shards(), t).cached
    modifies rc.cache, rc.cache.buckets, rc.cache.Mem
    ensures rc.Valid() && all == map[t := store[t]]
    ensures SameRefusals(old(rc.Snaps()), rc.Snaps()) ==>
              Cached(rc.cache.hash, rc.Shards(), t) == Answer(true, true)
  {
    hide Denied, Truthful, Cache.Valid, HexDecode, SameRefusals, NoFewerRefusals, Cached, LastMarked, LowerHex,
      LastAliased, NoAlias;
    ghost var hash := rc.cache.hash;
    OnePresent(hash, rc.Shards(), store, t);
    var err;
    err, all := FindRegisteredTxids(rc, store, [t], true, true);
    if LastMarked(hash, rc.Shards(), [t], REGISTERED) {
      MarkAffirms(hash, rc.Shards(), t);
    }
    assert t in [t];
  }

  lemma OnePresent(hash: Bytes -> nat, ls: seq<Ledger>, store: Store, t: string)
    requires |ls| == BUCKETS && IsTxid(t) && t in store && !Cached(hash, ls, t).cached
    ensures Absent(store, Uncached(hash, ls, [t])) == [] && Present(store, Uncached(hash, ls, [t])) == [t]
    ensures HexDecode(t).Some? && DecodedKeys([t]) == [HexDecode(t).value] && Fits(HexDecode(t).value, [REGISTERED])
    ensures Answerable(hash, ls, store, [t]) == map[t := store[t]]
  {
    OneKey(t);
    OneUncached(hash, ls, t);
    hide Cached, HexDecode, Uncached, DecodedKeys;
    assert [t][..0] == [];
    assert Absent(store, [t]) == Absent(store, []) && Present(store, [t]) == Present(store, []) + [t];
  }

  lemma MarkAffirms(hash: Bytes -> nat, ls: seq<Ledger>, t: string)
    requires |ls| == BUCKETS && HexDecode(t).Some? && DecodedKeys([t]) == [HexDecode(t).value]
    requires Fits(HexDecode(t).value, [REGISTERED]) && LastMarked(hash, ls, [t], REGISTERED)
    ensures Cached(hash, ls, t) == Answer(true, true)
  {
    hide HexDecode, Fits, DecodedKeys;
  }

  lemma RefusalsBefore(a: seq<Snap>, b: seq<Snap>, c: seq<Snap>)
    requires NoFewerRefusals(a, b) && NoFewerRefusals(b, c)
    ensures SameRefusals(a, c) ==> SameRefusals(a, b)
  {
  }
}
