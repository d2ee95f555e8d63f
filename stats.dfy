/** Sums, means and counts over sequences of exact reals: the column aggregates pandas
 *  computes, with NaN as None. */
module Stats {
  import opened Wrappers

  function Sum(vals: seq<real>): real
  {
    if vals == [] then 0.0 else vals[0] + Sum(vals[1..])
  }

  /** The mean pandas computes, NaN (None) for no values. */
  function Mean(vals: seq<real>): Option<real>
  {
    if vals == [] then None else Some(Sum(vals) / |vals| as real)
  }

  lemma {:induction false} SumWithin(vals: seq<real>, lo: real, hi: real)
    requires forall i :: 0 <= i < |vals| ==> lo <= vals[i] <= hi
    ensures lo * |vals| as real <= Sum(vals) <= hi * |vals| as real
  {
    if vals != [] {
      SumWithin(vals[1..], lo, hi);
    }
  }

  /** A mean lies within the range of the values it averages. */
  lemma MeanWithin(vals: seq<real>, lo: real, hi: real)
    requires forall i :: 0 <= i < |vals| ==> lo <= vals[i] <= hi
    ensures Mean(vals).Some? <==> vals != []
    ensures vals != [] ==> lo <= Mean(vals).value <= hi
  {
    if vals != [] {
      SumWithin(vals, lo, hi);
      var n := |vals| as real;
      var m := Sum(vals) / n;
      assert m * n == Sum(vals);
      if m < lo { assert m * n < lo * n; }
      if m > hi { assert m * n > hi * n; }
    }
  }

  /** The number of elements satisfying `p`. */
  function Count<T>(s: seq<T>, p: T -> bool): (n: nat)
    ensures n <= |s|
  {
    if s == [] then 0 else (if p(s[0]) then 1 else 0) + Count(s[1..], p)
  }

  lemma {:induction false} CountMonotone<T>(s: seq<T>, p: T -> bool, q: T -> bool)
    requires forall i :: 0 <= i < |s| && p(s[i]) ==> q(s[i])
    ensures Count(s, p) <= Count(s, q)
  {
    if s != [] {
      assert forall i :: 0 <= i < |s[1..]| ==> s[1..][i] == s[i + 1];
      CountMonotone(s[1..], p, q);
    }
  }

  /** Inclusion-exclusion: those satisfying `either` are those satisfying `p` plus those
   *  satisfying `q` minus those satisfying `both`. */
  lemma {:induction false} CountUnion<T>(s: seq<T>, p: T -> bool, q: T -> bool, either: T -> bool, both: T -> bool)
    requires forall i :: 0 <= i < |s| ==> (either(s[i]) <==> p(s[i]) || q(s[i]))
    requires forall i :: 0 <= i < |s| ==> (both(s[i]) <==> p(s[i]) && q(s[i]))
    ensures Count(s, either) + Count(s, both) == Count(s, p) + Count(s, q)
  {
    if s != [] {
      assert forall i :: 0 <= i < |s[1..]| ==> s[1..][i] == s[i + 1];
      CountUnion(s[1..], p, q, either, both);
    }
  }

  /** The elements satisfying `p`, in order: a boolean-mask selection of rows. */
  function Filter<T>(s: seq<T>, p: T -> bool): (r: seq<T>)
    ensures |r| == Count(s, p)
    ensures forall i :: 0 <= i < |r| ==> p(r[i])
    ensures forall x :: x in r ==> x in s
  {
    if s == [] then [] else (if p(s[0]) then [s[0]] else []) + Filter(s[1..], p)
  }

  /** An element satisfying `p` is kept. */
  lemma {:induction false} FilterKeeps<T>(s: seq<T>, p: T -> bool, i: nat)
    requires i < |s| && p(s[i])
    ensures s[i] in Filter(s, p)
  {
    if i > 0 {
      FilterKeeps(s[1..], p, i - 1);
    }
  }

  /** Nothing is kept when no element satisfies `p`. */
  lemma {:induction false} FilterNone<T>(s: seq<T>, p: T -> bool)
    ensures (forall x :: x in s ==> !p(x)) ==> Filter(s, p) == []
  {
    if s != [] {
      FilterNone(s[1..], p);
      if forall x :: x in s ==> !p(x) {
        assert s[0] in s;
        assert forall x :: x in s[1..] ==> x in s;
      }
    }
  }

  /** The filtered sequence holds exactly the elements that satisfy `p`. */
  lemma FilterMembers<T>(s: seq<T>, p: T -> bool)
    ensures forall x :: x in Filter(s, p) <==> x in s && p(x)
  {
    forall x | x in s && p(x) ensures x in Filter(s, p) {
      var i :| 0 <= i < |s| && s[i] == x;
      FilterKeeps(s, p, i);
    }
  }
}
