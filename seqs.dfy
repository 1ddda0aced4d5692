/**
 * Facts about `filter_map` on sequences: keep, in order, the images of the
 * elements that a function maps to `Some`. Both the wordlist loader (an
 * iterator chain) and the enumeration loop (a `push` per accepted candidate)
 * are instances of it.
 */
module Seqs {
  import opened Wrappers

  /** The zero- or one-element sequence holding the value of `o`. */
  function ToSeq<T>(o: Option<T>): seq<T> {
    if o.Some? then [o.value] else []
  }

  /** `s` mapped through `f`, keeping only the `Some` results, in order. */
  function FilterMap<A, B>(f: A -> Option<B>, s: seq<A>): (r: seq<B>)
    ensures |r| <= |s|
  {
    if s == [] then [] else FilterMap(f, s[..|s| - 1]) + ToSeq(f(s[|s| - 1]))
  }

  /** The positions of `s` whose element `f` maps to `Some`, ascending. */
  function Kept<A, B>(f: A -> Option<B>, s: seq<A>): seq<nat> {
    if s == [] then []
    else Kept(f, s[..|s| - 1]) + (if f(s[|s| - 1]).Some? then [|s| - 1] else [])
  }

  /**
   * FilterMap keeps exactly the positions whose image is `Some`, in
   * ascending order, and its k-th entry is the image of the k-th kept one.
   */
  lemma {:induction false} FilterMapKept<A, B>(f: A -> Option<B>, s: seq<A>)
    ensures |Kept(f, s)| == |FilterMap(f, s)|
    ensures forall k :: 0 <= k < |Kept(f, s)| ==>
      Kept(f, s)[k] < |s| && f(s[Kept(f, s)[k]]) == Some(FilterMap(f, s)[k])
    ensures forall k, m :: 0 <= k < m < |Kept(f, s)| ==> Kept(f, s)[k] < Kept(f, s)[m]
    ensures forall j :: 0 <= j < |s| ==> (j in Kept(f, s) <==> f(s[j]).Some?)
  {
    if s != [] {
      var n := |s| - 1;
      var p := s[..n];
      FilterMapKept(f, p);
      var kp, rp := Kept(f, p), FilterMap(f, p);
      var ks, rs := Kept(f, s), FilterMap(f, s);
      if f(s[n]).Some? {
        assert ks == kp + [n] && rs == rp + [f(s[n]).value];
      } else {
        assert ks == kp && rs == rp;
      }
      forall k | 0 <= k < |ks|
        ensures ks[k] < |s| && f(s[ks[k]]) == Some(rs[k])
      {
        if k < |kp| {
          assert ks[k] == kp[k] && rs[k] == rp[k] && s[kp[k]] == p[kp[k]];
        }
      }
      forall j | 0 <= j < |s|
        ensures j in ks <==> f(s[j]).Some?
      {
        if j < n {
          assert s[j] == p[j];
          assert j in ks <==> j in kp;
        }
      }
    }
  }

  /** FilterMap distributes over concatenation. */
  lemma {:induction false} FilterMapAppend<A, B>(f: A -> Option<B>, s: seq<A>, t: seq<A>)
    ensures FilterMap(f, s + t) == FilterMap(f, s) + FilterMap(f, t)
    decreases |t|
  {
    if t == [] {
      assert s + t == s;
    } else {
      var t' := t[..|t| - 1];
      assert (s + t)[..|s + t| - 1] == s + t';
      assert (s + t)[|s + t| - 1] == t[|t| - 1];
      FilterMapAppend(f, s, t');
    }
  }

  /** When `f` maps every element of `s` to itself, FilterMap returns `s`. */
  lemma {:induction false} FilterMapFixed<A>(f: A -> Option<A>, s: seq<A>)
    requires forall x :: x in s ==> f(x) == Some(x)
    ensures FilterMap(f, s) == s
  {
    if s != [] {
      var x := s[|s| - 1];
      var p := s[..|s| - 1];
      assert s == p + [x];
      assert forall y :: y in p ==> y in s;
      FilterMapFixed(f, p);
      assert f(x) == Some(x);
    }
  }

  /** Removing one occurrence of `x` from both sides keeps two multisets equal. */
  lemma MultisetCancel<A>(p: seq<A>, a: seq<A>, b: seq<A>, x: A)
    requires multiset(p + [x]) == multiset(a + [x] + b)
    ensures multiset(p) == multiset(a + b)
  {
    var mp, mab := multiset(p), multiset(a + b);
    assert mp + multiset{x} == mab + multiset{x} by {
      assert multiset(a + [x] + b) == multiset(a) + multiset{x} + multiset(b);
    }
    forall y ensures mp[y] == mab[y] {
      assert (mp + multiset{x})[y] == mp[y] + multiset{x}[y];
      assert (mab + multiset{x})[y] == mab[y] + multiset{x}[y];
    }
  }

  /** The multiset FilterMap keeps depends only on the multiset of its input. */
  lemma {:induction false} FilterMapPermutation<A, B>(f: A -> Option<B>, s: seq<A>, t: seq<A>)
    requires multiset(s) == multiset(t)
    ensures multiset(FilterMap(f, s)) == multiset(FilterMap(f, t))
    decreases |s|
  {
    if s == [] {
      assert |t| == |multiset(t)| == 0;
    } else {
      var x := s[|s| - 1];
      var p := s[..|s| - 1];
      assert s == p + [x];
      assert x in multiset(t);
      var k :| 0 <= k < |t| && t[k] == x;
      var a, b := t[..k], t[k + 1..];
      assert t == a + [x] + b;
      MultisetCancel(p, a, b, x);
      FilterMapPermutation(f, p, a + b);
      FilterMapAppend(f, a, b);
      FilterMapAppend(f, a + [x], b);
      FilterMapAppend(f, a, [x]);
      assert FilterMap(f, [x]) == ToSeq(f(x)) by {
        assert [x][..0] == [];
      }
    }
  }
}
