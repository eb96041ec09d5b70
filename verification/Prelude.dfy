/** Bytes, options and the few sequence facts the other modules share. */
module Prelude {
  type byte = x: int | 0 <= x < 256

  type Bytes = seq<byte>

  datatype Option<+T> = None | Some(value: T)

  /** `s` with the `|d|` elements from `at` on replaced by `d`. */
  function Splice<T>(s: seq<T>, at: nat, d: seq<T>): (r: seq<T>)
    requires at + |d| <= |s|
    ensures |r| == |s|
    ensures r[at..at + |d|] == d
    ensures forall i :: 0 <= i < at || at + |d| <= i < |s| ==> r[i] == s[i]
  {
    s[..at] + d + s[at + |d|..]
  }

  /** Writing `a` and then `b` right after it writes `a + b`. */
  lemma SpliceTwice<T>(s: seq<T>, at: nat, a: seq<T>, b: seq<T>)
    requires at + |a| + |b| <= |s|
    ensures Splice(Splice(s, at, a), at + |a|, b) == Splice(s, at, a + b)
  {
    var two := Splice(Splice(s, at, a), at + |a|, b);
    var one := Splice(s, at, a + b);
    forall i | 0 <= i < |s| ensures two[i] == one[i] {
      if at <= i < at + |a| {
        assert Splice(s, at, a)[i] == a[i - at];
      }
    }
  }

  /** A subset is no larger, and of the same size only if it is the whole set. */
  lemma {:induction false} SubsetSize<T>(a: set<T>, b: set<T>)
    requires a <= b
    ensures |a| <= |b| && (|a| == |b| ==> a == b)
  {
    if a == {} {
      assert |b| == 0 ==> b == {};
    } else {
      var x :| x in a;
      SubsetSize(a - {x}, b - {x});
      assert a == (a - {x}) + {x} && b == (b - {x}) + {x};
    }
  }

  /** Copies `d` over the bytes of `a` from `at` on. */
  method CopyInto(a: array<byte>, at: nat, d: Bytes)
    requires at + |d| <= a.Length
    modifies a
    ensures a[..] == Splice(old(a[..]), at, d)
  {
    ghost var was := a[..];
    var i := 0;
    while i < |d|
      invariant 0 <= i <= |d|
      invariant a[..] == Splice(was, at, d[..i])
    {
      SpliceTwice(was, at, d[..i], [d[i]]);
      assert d[..i] + [d[i]] == d[..i + 1];
      a[at + i] := d[i];
      i := i + 1;
    }
    assert d[..i] == d;
  }
}
