/** The bounded LRU set of processed message hashes. */
module DedupCache {

  function Without(s: seq<string>, k: string): (r: seq<string>)
    ensures forall x :: x in r <==> x in s && x != k
    ensures k !in s ==> r == s
  {
    if s == [] then []
    else if s[0] == k then Without(s[1..], k)
    else [s[0]] + Without(s[1..], k)
  }

  /** The distinct keys of a history of Adds, most recently added first. */
  function Recent(adds: seq<string>): seq<string> {
    if adds == [] then []
    else
      var k := adds[|adds| - 1];
      [k] + Without(Recent(adds[..|adds| - 1]), k)
  }

  /** When `k` was added last. */
  function LastAdd(adds: seq<string>, k: string): (i: nat)
    requires k in adds
    ensures i < |adds| && adds[i] == k && forall j | i < j < |adds| :: adds[j] != k
  {
    if adds[|adds| - 1] == k then |adds| - 1 else LastAdd(adds[..|adds| - 1], k)
  }

  function Take(s: seq<string>, n: nat): seq<string> {
    if |s| <= n then s else s[..n]
  }

  /** The keys of `s` were all added, each later than those after it. */
  ghost predicate ByRecency(adds: seq<string>, s: seq<string>) {
    s != [] ==>
      && s[0] in adds
      && (forall x | x in s[1..] :: x in adds && LastAdd(adds, x) < LastAdd(adds, s[0]))
      && ByRecency(adds, s[1..])
  }

  lemma {:induction false} WithoutKeepsRecency(adds: seq<string>, s: seq<string>, k: string)
    requires ByRecency(adds, s)
    ensures ByRecency(adds, Without(s, k))
  {
    if s == [] {
    } else {
      WithoutKeepsRecency(adds, s[1..], k);
      if s[0] != k {
        assert Without(s, k)[1..] == Without(s[1..], k);
      }
    }
  }

  /** A later Add of another key changes no key's last Add. */
  lemma LastAddBefore(adds: seq<string>, k: string, x: string)
    requires x in adds && x != k
    ensures x in adds + [k] && LastAdd(adds + [k], x) == LastAdd(adds, x)
  {
    assert (adds + [k])[..|adds|] == adds;
  }

  lemma {:induction false} RecencyBefore(adds: seq<string>, k: string, s: seq<string>)
    requires ByRecency(adds, s) && k !in s
    ensures ByRecency(adds + [k], s)
    ensures forall x | x in s :: x in adds && LastAdd(adds + [k], x) < |adds|
  {
    if s == [] {
    } else {
      RecencyBefore(adds, k, s[1..]);
      LastAddBefore(adds, k, s[0]);
      forall x | x in s[1..] ensures LastAdd(adds + [k], x) == LastAdd(adds, x) {
        LastAddBefore(adds, k, x);
      }
      assert forall x | x in s :: x == s[0] || x in s[1..];
    }
  }

  /** `Recent` lists exactly the keys ever added, in order of their last Add. */
  lemma {:induction false} RecentIsByRecency(adds: seq<string>)
    ensures ByRecency(adds, Recent(adds)) && forall k :: k in Recent(adds) <==> k in adds
  {
    if adds == [] {
    } else {
      var before, k := adds[..|adds| - 1], adds[|adds| - 1];
      assert adds == before + [k];
      RecentIsByRecency(before);
      WithoutKeepsRecency(before, Recent(before), k);
      var rest := Without(Recent(before), k);
      RecencyBefore(before, k, rest);
      assert Recent(adds)[1..] == rest;
      assert forall x | x in adds :: x == k || x in before;
    }
  }

  /** How many different keys were added after the last Add of `k`. */
  function NewerThan(adds: seq<string>, k: string): set<string>
    requires k in adds
  {
    set x | x in adds && LastAdd(adds, x) > LastAdd(adds, k)
  }

  /** In a list by recency that has all keys, the keys before `k` are the newer ones. */
  lemma {:induction false} PositionIsAge(adds: seq<string>, s: seq<string>, i: nat)
    requires ByRecency(adds, s) && i < |s|
    ensures s[i] in adds
    ensures forall x | x in s :: x in adds && (x in s[..i] <==> LastAdd(adds, x) > LastAdd(adds, s[i]))
  {
    if i == 0 {
      assert forall x | x in s :: x == s[0] || x in s[1..];
    } else {
      PositionIsAge(adds, s[1..], i - 1);
      assert s[1..][i - 1] == s[i] && s[i] in s[1..] && s[..i] == [s[0]] + s[1..][..i - 1];
      assert forall x | x in s :: x == s[0] || x in s[1..];
    }
  }

  /** The `n` most recent keys, exactly: those after whose last Add fewer than `n` other keys were added. */
  lemma HeldExactly(adds: seq<string>, n: nat, k: string)
    ensures k in Take(Recent(adds), n) <==> k in adds && |NewerThan(adds, k)| < n
  {
    RecentIsByRecency(adds);
    var s := Recent(adds);
    hide Recent;
    if k in adds {
      var i :| 0 <= i < |s| && s[i] == k;
      PositionIsAge(adds, s, i);
      RecencyIsDistinct(adds, s);
      TakeIsDistinct(s, i);
      assert Take(s, i) == s[..i];
      DistinctSize(s[..i], NewerThan(adds, k));
      DistinctAt(s, i, n);
    }
  }

  /** A key of a list without repetitions is among the first `n` exactly if its place is. */
  lemma {:induction false} DistinctAt(s: seq<string>, i: nat, n: nat)
    requires Distinct(s) && i < |s|
    ensures s[i] in Take(s, n) <==> i < n
  {
    if i == 0 {
    } else if n == 0 {
    } else {
      DistinctAt(s[1..], i - 1, n - 1);
      assert s[i] == s[1..][i - 1] && s[i] in s[1..];
      assert Take(s, n) == [s[0]] + Take(s[1..], n - 1);
    }
  }

  ghost predicate Distinct(s: seq<string>) {
    s != [] ==> s[0] !in s[1..] && Distinct(s[1..])
  }

  lemma {:induction false} RecencyIsDistinct(adds: seq<string>, s: seq<string>)
    requires ByRecency(adds, s)
    ensures Distinct(s)
  {
    if s == [] {
    } else {
      RecencyIsDistinct(adds, s[1..]);
    }
  }

  lemma {:induction false} TakeIsDistinct(s: seq<string>, n: nat)
    requires Distinct(s)
    ensures Distinct(Take(s, n))
  {
    if |s| <= n || n == 0 {
    } else {
      TakeIsDistinct(s[1..], n - 1);
      assert Take(s, n)[1..] == Take(s[1..], n - 1);
    }
  }

  lemma {:induction false} DistinctSize(s: seq<string>, keys: set<string>)
    requires Distinct(s) && forall k :: k in keys <==> k in s
    ensures |keys| == |s|
  {
    if s == [] {
      assert keys == {};
    } else {
      assert forall k :: k in keys - {s[0]} <==> k in s[1..];
      DistinctSize(s[1..], keys - {s[0]});
    }
  }

  /** The first `n` keys after an Add of one that is already among them. */
  lemma {:induction false} TakeAfterHit(s: seq<string>, k: string, n: nat)
    requires k in Take(s, n) && Distinct(s)
    ensures Take([k] + Without(s, k), n) == [k] + Without(Take(s, n), k)
  {
    TakeTail(s, n);
    if s[0] == k {
      HitInFront(s, k, n);
    } else {
      TakeAfterHit(s[1..], k, n - 1);
      TakeCons(k, s[0], Without(s[1..], k), Without(Take(s[1..], n - 1), k), n);
    }
  }

  lemma TakeTail(s: seq<string>, n: nat)
    requires s != [] && n > 0
    ensures Take(s, n) != [] && Take(s, n)[0] == s[0] && Take(s, n)[1..] == Take(s[1..], n - 1)
  {
  }

  lemma HitInFront(s: seq<string>, k: string, n: nat)
    requires s != [] && n > 0 && s[0] == k && Distinct(s)
    ensures Take([k] + Without(s, k), n) == [k] + Without(Take(s, n), k)
  {
    TakeTail(s, n);
    assert Without(s, k) == s[1..];
    assert [k] + s[1..] == s;
    assert Without(Take(s, n), k) == Take(s[1..], n - 1);
  }

  lemma TakeCons(k: string, x: string, w: seq<string>, t: seq<string>, n: nat)
    requires n > 0 && Take([k] + w, n - 1) == [k] + t
    ensures Take([k] + ([x] + w), n) == [k] + ([x] + t)
  {
    assert ([k] + w)[1..] == w && ([k] + t)[1..] == t;
    if |w| + 1 <= n - 1 {
    } else {
      assert t == ([k] + w)[..n - 1][1..] == w[..n - 2];
      assert ([k] + ([x] + w))[..n] == [k] + ([x] + w[..n - 2]);
    }
  }

  /** The first `n` keys after an Add of one that is not among them. */
  lemma TakeAfterMiss(s: seq<string>, k: string, n: nat)
    requires k !in Take(s, n) && n > 0
    ensures Take([k] + Without(s, k), n) == [k] + Take(s, n - 1)
  {
    WithoutPrefix(s, k, n - 1);
    if |s| <= n {
      assert Without(s, k) == s;
    } else {
      var w := Without(s, k);
      assert ([k] + w)[..n] == [k] + w[..n - 1];
    }
  }

  lemma {:induction false} WithoutPrefix(s: seq<string>, k: string, n: nat)
    requires k !in Take(s, n + 1)
    ensures |s| > n + 1 ==> |Without(s, k)| >= n + 1 && Without(s, k)[..n] == s[..n]
  {
    if |s| <= n + 1 {
    } else {
      assert s[0] in Take(s, n + 1);
      if n > 0 {
        assert Take(s, n + 1)[1..] == Take(s[1..], n);
        WithoutPrefix(s[1..], k, n - 1);
        assert Without(s, k)[..n] == [s[0]] + Without(s[1..], k)[..n - 1];
      }
    }
  }

  class Cache {
    const maxSize: nat
    /** The keys of the lookup map. */
    var items: set<string>
    /** The eviction list, front first. */
    var eviction: seq<string>
    ghost var adds: seq<string>

    /** Map and list agree, and hold the most recently added keys, most recent first. */
    ghost predicate Valid()
      reads this
    {
      && 1 <= maxSize
      && eviction == Take(Recent(adds), maxSize)
      && (forall k :: k in items <==> k in eviction)
    }

    constructor (size: int)
      ensures Valid() && maxSize == (if size <= 0 then 1 else size) && adds == []
    {
      maxSize := if size <= 0 then 1 else size;
      items, eviction, adds := {}, [], [];
    }

    /** The eviction loop: oldest keys go until there is room for one more. */
    method Evict()
      requires 1 <= maxSize && |eviction| <= maxSize && Distinct(eviction)
      requires forall k :: k in items <==> k in eviction
      modifies this`items, this`eviction
      ensures eviction == Take(old(eviction), maxSize - 1)
      ensures forall k :: k in items <==> k in eviction
    {
      while |eviction| >= maxSize
        invariant |eviction| <= maxSize && Distinct(eviction)
        invariant eviction == old(eviction) || eviction == Take(old(eviction), maxSize - 1)
        invariant |eviction| < |old(eviction)| ==> eviction == Take(old(eviction), maxSize - 1)
        invariant forall k :: k in items <==> k in eviction
        decreases |eviction|
      {
        var back := eviction[|eviction| - 1];
        DropLast(eviction);
        eviction := eviction[..|eviction| - 1];
        items := items - {back};
      }
    }

    /** Add: true exactly when the key was not held; either way the key is the most recent one afterwards. */
    method Add(key: string) returns (added: bool)
      requires Valid()
      modifies this
      ensures Valid() && adds == old(adds) + [key]
      ensures added <==> key !in old(Take(Recent(adds), maxSize))
    {
      hide Without, ByRecency, Distinct;
      ghost var r := Recent(adds);
      RecentIsByRecency(adds);
      RecencyIsDistinct(adds, r);
      AddExtends(adds, key);
      if key in items {
        TakeAfterHit(r, key, maxSize);
        eviction := [key] + Without(eviction, key);
        adds := adds + [key];
        return false;
      }
      TakeAfterMiss(r, key, maxSize);
      TakeIsDistinct(r, maxSize);
      Evict();
      eviction := [key] + eviction;
      items := items + {key};
      adds := adds + [key];
      added := true;
    }

    /** Contains: does not change the order. */
    method Contains(key: string) returns (r: bool)
      requires Valid()
      ensures r <==> key in Take(Recent(adds), maxSize)
    {
      r := key in items;
    }

    /** Len. */
    method Len() returns (n: nat)
      requires Valid()
      ensures n == |Take(Recent(adds), maxSize)| && n <= maxSize
    {
      RecentIsByRecency(adds);
      RecencyIsDistinct(adds, Recent(adds));
      TakeIsDistinct(Recent(adds), maxSize);
      DistinctSize(eviction, items);
      n := |items|;
    }
  }

  lemma AddExtends(adds: seq<string>, k: string)
    ensures Recent(adds + [k]) == [k] + Without(Recent(adds), k)
  {
    assert (adds + [k])[..|adds|] == adds;
  }

  lemma {:induction false} DropLast(s: seq<string>)
    requires Distinct(s) && s != []
    ensures var front, back := s[..|s| - 1], s[|s| - 1];
            Distinct(front) && forall k :: k in front <==> k in s && k != back
  {
    if |s| == 1 {
    } else {
      DropLast(s[1..]);
      var front, rest := s[..|s| - 1], s[1..];
      assert front[1..] == rest[..|rest| - 1] && front == [s[0]] + front[1..] && s == [s[0]] + rest;
      assert s[|s| - 1] == rest[|rest| - 1] && rest[|rest| - 1] in rest;
    }
  }
}
