/** Sequence operations that the source spells with `Array.prototype.filter`
    and `Array.prototype.find`. */
module Seqs {
  import opened Wrappers

  /** `r` is an order-preserving subsequence of `s`. */
  predicate IsSubseq<T(==)>(r: seq<T>, s: seq<T>)
    decreases |s|
  {
    if r == [] then true
    else if s == [] then false
    else if r[0] == s[0] then IsSubseq(r[1..], s[1..])
    else IsSubseq(r, s[1..])
  }

  lemma {:induction false} IsSubseqRefl<T>(s: seq<T>)
    ensures IsSubseq(s, s)
  {
    if s != [] { IsSubseqRefl(s[1..]); }
  }

  /** `s.filter(keep)` */
  function Filter<T(==,!new)>(s: seq<T>, keep: T -> bool): (r: seq<T>)
    ensures forall x :: x in r <==> x in s && keep(x)
    ensures forall i :: 0 <= i < |r| ==> keep(r[i])
    ensures |r| <= |s|
    ensures IsSubseq(r, s)
  {
    if s == [] then []
    else if keep(s[0]) then [s[0]] + Filter(s[1..], keep)
    else Filter(s[1..], keep)
  }

  /** Filtering keeps everything exactly when every element passes. */
  lemma {:induction false} FilterKeepsAll<T(!new)>(s: seq<T>, keep: T -> bool)
    requires forall x :: x in s ==> keep(x)
    ensures Filter(s, keep) == s
  {
    if s != [] {
      assert forall x :: x in s[1..] ==> x in s;
      FilterKeepsAll(s[1..], keep);
    }
  }

  /** Filtering keeps nothing exactly when no element passes. */
  lemma {:induction false} FilterKeepsNone<T(!new)>(s: seq<T>, keep: T -> bool)
    requires forall x :: x in s ==> !keep(x)
    ensures Filter(s, keep) == []
  {
    if s != [] {
      assert forall x :: x in s[1..] ==> x in s;
      FilterKeepsNone(s[1..], keep);
    }
  }

  /** Two tests that agree on every element of `s` filter it alike. */
  lemma {:induction false} FilterCongruent<T(!new)>(s: seq<T>, f: T -> bool, g: T -> bool)
    requires forall x :: x in s ==> f(x) == g(x)
    ensures Filter(s, f) == Filter(s, g)
  {
    if s != [] {
      assert forall x :: x in s[1..] ==> x in s;
      FilterCongruent(s[1..], f, g);
    }
  }

  /** Filtering distributes over concatenation. */
  lemma {:induction false} FilterAppend<T(!new)>(a: seq<T>, b: seq<T>, keep: T -> bool)
    ensures Filter(a + b, keep) == Filter(a, keep) + Filter(b, keep)
  {
    if a == [] {
      assert a + b == b;
    } else {
      assert (a + b)[0] == a[0];
      assert (a + b)[1..] == a[1..] + b;
      FilterAppend(a[1..], b, keep);
    }
  }

  /** A sequence whose first `n` elements pass and the rest fail filters
      to its first `n`. */
  lemma FilterPrefix<T(!new)>(s: seq<T>, n: nat, keep: T -> bool)
    requires n <= |s|
    requires forall x :: x in s[..n] ==> keep(x)
    requires forall x :: x in s[n..] ==> !keep(x)
    ensures Filter(s, keep) == s[..n]
  {
    assert s == s[..n] + s[n..];
    FilterAppend(s[..n], s[n..], keep);
    FilterKeepsAll(s[..n], keep);
    FilterKeepsNone(s[n..], keep);
  }

  /** A sequence whose first `n` elements fail and the rest pass filters
      to its elements after the first `n`. */
  lemma FilterSuffix<T(!new)>(s: seq<T>, n: nat, keep: T -> bool)
    requires n <= |s|
    requires forall x :: x in s[..n] ==> !keep(x)
    requires forall x :: x in s[n..] ==> keep(x)
    ensures Filter(s, keep) == s[n..]
  {
    assert s == s[..n] + s[n..];
    FilterAppend(s[..n], s[n..], keep);
    FilterKeepsNone(s[..n], keep);
    FilterKeepsAll(s[n..], keep);
  }

  /** `s.find(p)`: the first element passing `p`, or `undefined`. */
  function FindFirst<T(==)>(s: seq<T>, p: T -> bool): (r: Option<T>)
    ensures r.None? <==> forall i :: 0 <= i < |s| ==> !p(s[i])
    ensures r.Some? ==> exists k :: 0 <= k < |s| && s[k] == r.value && p(s[k])
                                    && forall j :: 0 <= j < k ==> !p(s[j])
  {
    if s == [] then None
    else if p(s[0]) then Some(s[0])
    else
      var r := FindFirst(s[1..], p);
      assert r.Some? ==> exists k :: 0 <= k < |s| - 1 && s[1..][k] == r.value && p(s[1..][k])
                                      && forall j :: 0 <= j < k ==> !p(s[1..][j]);
      if r.Some? then
        var k :| 0 <= k < |s| - 1 && s[1..][k] == r.value && p(s[1..][k])
                 && forall j :: 0 <= j < k ==> !p(s[1..][j]);
        assert forall j :: 0 <= j < k + 1 ==> !p(s[j]) by {
          forall j | 0 <= j < k + 1 ensures !p(s[j]) {
            if j > 0 { assert s[j] == s[1..][j - 1]; }
          }
        }
        r
      else r
  }

  /** Once some element of `a` passes `p`, appending to `a` does not change
      what `find` returns. */
  lemma {:induction false} FindFirstAppend<T>(a: seq<T>, b: seq<T>, p: T -> bool)
    requires FindFirst(a, p).Some?
    ensures FindFirst(a + b, p) == FindFirst(a, p)
  {
    assert a != [];
    assert (a + b)[0] == a[0];
    if !p(a[0]) {
      assert (a + b)[1..] == a[1..] + b;
      FindFirstAppend(a[1..], b, p);
    }
  }
}
