/** Ordering helpers: Python's string comparison, a stable sort by a strict "comes before"
 *  relation (Python's `sorted`), sorted-unique lists (pandas `groupby` keys, `sorted(set(...))`)
 *  and keep-first de-duplication (pandas `drop_duplicates(keep='first')`). */
module Sorting {

  /** Python's `a < b` on `str`: code point order, a proper prefix first. */
  predicate LexLess(a: string, b: string)
    decreases |a|
  {
    if |a| == 0 then |b| > 0
    else |b| > 0 && (a[0] < b[0] || (a[0] == b[0] && LexLess(a[1..], b[1..])))
  }

  lemma {:induction false} LexLessIrreflexive(a: string)
    ensures !LexLess(a, a)
    decreases |a|
  {
    if |a| > 0 { LexLessIrreflexive(a[1..]); }
  }

  lemma {:induction false} LexLessTransitive(a: string, b: string, c: string)
    requires LexLess(a, b) && LexLess(b, c)
    ensures LexLess(a, c)
    decreases |a|
  {
    if |a| > 0 && a[0] == b[0] && b[0] == c[0] {
      LexLessTransitive(a[1..], b[1..], c[1..]);
    }
  }

  lemma {:induction false} LexLessTotal(a: string, b: string)
    ensures a == b || LexLess(a, b) || LexLess(b, a)
    decreases |a|
  {
    if |a| > 0 && |b| > 0 && a[0] == b[0] {
      LexLessTotal(a[1..], b[1..]);
      if a[1..] == b[1..] { assert a == [a[0]] + a[1..] && b == [b[0]] + b[1..]; }
    }
  }

  /** `before` is a strict order: irreflexive and transitive. */
  ghost predicate StrictOrder<T(!new)>(before: (T, T) -> bool)
  {
    (forall a :: !before(a, a))
    && (forall a, b, c :: before(a, b) && before(b, c) ==> before(a, c))
  }

  /** No element is strictly before an element that precedes it. */
  ghost predicate SortedBy<T>(s: seq<T>, before: (T, T) -> bool)
  {
    forall i, j :: 0 <= i < j < |s| ==> !before(s[j], s[i])
  }

  /** Places `x` before the first element it is strictly before: after every element it ties with. */
  function Insert<T>(x: T, s: seq<T>, before: (T, T) -> bool): (r: seq<T>)
    ensures |r| == |s| + 1
  {
    if s == [] then [x]
    else if before(x, s[0]) then [x] + s
    else
      assert s == [s[0]] + s[1..];
      [s[0]] + Insert(x, s[1..], before)
  }

  /** A stable sort: `sorted(s, key=...)`, where `before(a, b)` says that the key of `a` sorts first. */
  function SortBy<T>(s: seq<T>, before: (T, T) -> bool): (r: seq<T>)
    ensures |r| == |s|
  {
    if s == [] then [] else Insert(s[|s| - 1], SortBy(s[..|s| - 1], before), before)
  }

  lemma {:induction false} InsertPermutes<T>(x: T, s: seq<T>, before: (T, T) -> bool)
    ensures multiset(Insert(x, s, before)) == multiset(s) + multiset{x}
    decreases |s|
  {
    if s != [] && !before(x, s[0]) {
      InsertPermutes(x, s[1..], before);
      assert s == [s[0]] + s[1..];
    }
  }

  /** `SortBy` is a permutation of its input. */
  lemma {:induction false} SortByPermutes<T>(s: seq<T>, before: (T, T) -> bool)
    ensures multiset(SortBy(s, before)) == multiset(s)
    decreases |s|
  {
    if s != [] {
      SortByPermutes(s[..|s| - 1], before);
      InsertPermutes(s[|s| - 1], SortBy(s[..|s| - 1], before), before);
      assert s == s[..|s| - 1] + [s[|s| - 1]];
    }
  }

  lemma {:induction false} InsertSorted<T(!new)>(x: T, s: seq<T>, before: (T, T) -> bool)
    requires StrictOrder(before)
    requires SortedBy(s, before)
    ensures SortedBy(Insert(x, s, before), before)
    decreases |s|
  {
    if s != [] && !before(x, s[0]) {
      InsertSorted(x, s[1..], before);
      var r := Insert(x, s[1..], before);
      InsertPermutes(x, s[1..], before);
      forall k | 0 <= k < |r| ensures !before(r[k], s[0]) {
        assert r[k] in multiset(r);
        if r[k] == x {
        } else {
          assert r[k] in multiset(s[1..]);
          var j :| 0 <= j < |s[1..]| && s[1..][j] == r[k];
          assert s[j + 1] == r[k];
        }
      }
    }
  }

  /** The result of `SortBy` is sorted whenever `before` is a strict order. */
  lemma {:induction false} SortBySorted<T(!new)>(s: seq<T>, before: (T, T) -> bool)
    requires StrictOrder(before)
    ensures SortedBy(SortBy(s, before), before)
    decreases |s|
  {
    if s != [] {
      SortBySorted(s[..|s| - 1], before);
      InsertSorted(s[|s| - 1], SortBy(s[..|s| - 1], before), before);
    }
  }

  /** `x` goes last when it sorts before no element of `s`. */
  lemma {:induction false} InsertLast<T>(x: T, s: seq<T>, before: (T, T) -> bool)
    requires forall k :: 0 <= k < |s| ==> !before(x, s[k])
    ensures Insert(x, s, before) == s + [x]
    decreases |s|
  {
    if s != [] {
      InsertLast(x, s[1..], before);
    }
  }

  /** A stable sort leaves a sequence that is already in order as it is. */
  lemma {:induction false} SortByOrdered<T>(s: seq<T>, before: (T, T) -> bool)
    requires SortedBy(s, before)
    ensures SortBy(s, before) == s
    decreases |s|
  {
    if s != [] {
      var init := s[..|s| - 1];
      assert SortedBy(init, before);
      SortByOrdered(init, before);
      InsertLast(s[|s| - 1], init, before);
      assert init + [s[|s| - 1]] == s;
    }
  }

  /** Strictly increasing in Python's string order (so no value repeats). */
  ghost predicate StrictlyIncreasing(s: seq<string>)
  {
    forall i, j :: 0 <= i < j < |s| ==> LexLess(s[i], s[j])
  }

  /** Adds `x` to an increasing list unless it is already there. */
  function InsertUnique(x: string, s: seq<string>): (r: seq<string>)
    ensures forall k :: k in r <==> k in s || k == x
  {
    if s == [] then [x]
    else if x == s[0] then s
    else if LexLess(x, s[0]) then [x] + s
    else
      assert s == [s[0]] + s[1..];
      [s[0]] + InsertUnique(x, s[1..])
  }

  /** `sorted(set(s))`: the distinct values of `s` in increasing order. */
  function SortedUnique(s: seq<string>): (r: seq<string>)
    ensures forall k :: k in r <==> k in s
  {
    if s == [] then []
    else
      assert s == s[..|s| - 1] + [s[|s| - 1]];
      InsertUnique(s[|s| - 1], SortedUnique(s[..|s| - 1]))
  }

  lemma {:induction false} InsertUniqueIncreasing(x: string, s: seq<string>)
    requires StrictlyIncreasing(s)
    ensures StrictlyIncreasing(InsertUnique(x, s))
    decreases |s|
  {
    if s != [] && x != s[0] && !LexLess(x, s[0]) {
      LexLessTotal(x, s[0]);
      InsertUniqueIncreasing(x, s[1..]);
      var r := InsertUnique(x, s[1..]);
      forall k | 0 <= k < |r| ensures LexLess(s[0], r[k]) {
        if r[k] != x {
          assert r[k] in s[1..];
          var j :| 0 <= j < |s[1..]| && s[1..][j] == r[k];
          assert s[j + 1] == r[k];
        }
      }
    } else if s != [] && x != s[0] {
      forall j | 0 <= j < |s| ensures LexLess(x, s[j]) {
        if j > 0 { LexLessTransitive(x, s[0], s[j]); }
      }
    }
  }

  /** The distinct values come out in strictly increasing order, so none repeats. */
  lemma {:induction false} SortedUniqueIncreasing(s: seq<string>)
    ensures StrictlyIncreasing(SortedUnique(s))
    decreases |s|
  {
    if s != [] {
      SortedUniqueIncreasing(s[..|s| - 1]);
      InsertUniqueIncreasing(s[|s| - 1], SortedUnique(s[..|s| - 1]));
    }
  }

  /** Keeps the first element for each key and drops the later ones, keeping the order. */
  function DedupFirst<T, K(==)>(s: seq<T>, key: T -> K): (r: seq<T>)
    ensures |r| <= |s|
    ensures forall x :: x in r ==> x in s
    decreases |s|
  {
    if s == [] then []
    else
      var rest := DedupFirst(s[..|s| - 1], key);
      if HasKey(rest, key, key(s[|s| - 1])) then rest else rest + [s[|s| - 1]]
  }

  /** Some element of `s` has key `k`. */
  predicate HasKey<T, K(==)>(s: seq<T>, key: T -> K, k: K)
    ensures HasKey(s, key, k) <==> exists i :: 0 <= i < |s| && key(s[i]) == k
  {
    if s == [] then false
    else key(s[0]) == k || HasKey(s[1..], key, k)
  }

  /** The index of the first element of `s` with key `k`. */
  function FirstKeyIndex<T, K(==)>(s: seq<T>, key: T -> K, k: K): (i: nat)
    requires HasKey(s, key, k)
    ensures i < |s| && key(s[i]) == k
    ensures forall j :: 0 <= j < i ==> key(s[j]) != k
  {
    if key(s[0]) == k then 0 else 1 + FirstKeyIndex(s[1..], key, k)
  }

  /** The first index of a key is the same in `s` and in any prefix of `s` holding that key. */
  lemma FirstKeyIndexPrefix<T, K>(s: seq<T>, key: T -> K, k: K, n: nat)
    requires n <= |s| && HasKey(s[..n], key, k)
    ensures HasKey(s, key, k) && FirstKeyIndex(s, key, k) == FirstKeyIndex(s[..n], key, k)
  {
    var i2 := FirstKeyIndex(s[..n], key, k);
    assert s[..n][i2] == s[i2];
  }

  lemma HasKeySnoc<T, K>(s: seq<T>, x: T, key: T -> K, k: K)
    ensures HasKey(s + [x], key, k) <==> HasKey(s, key, k) || key(x) == k
  {
    if HasKey(s + [x], key, k) {
      var i :| 0 <= i < |s + [x]| && key((s + [x])[i]) == k;
      if i < |s| { assert s[i] == (s + [x])[i]; }
    }
    if HasKey(s, key, k) {
      var i :| 0 <= i < |s| && key(s[i]) == k;
      assert (s + [x])[i] == s[i];
    }
    if key(x) == k {
      assert (s + [x])[|s|] == x;
    }
  }

  /** `DedupFirst` keeps exactly the keys of `s`. */
  lemma {:induction false} DedupFirstKeys<T, K>(s: seq<T>, key: T -> K)
    ensures forall k :: HasKey(DedupFirst(s, key), key, k) <==> HasKey(s, key, k)
    decreases |s|
  {
    if s != [] {
      var n := |s| - 1;
      var init := s[..n];
      var last := s[n];
      var rest := DedupFirst(init, key);
      DedupFirstKeys(init, key);
      assert s == init + [last];
      forall k ensures HasKey(DedupFirst(s, key), key, k) <==> HasKey(s, key, k) {
        HasKeySnoc(init, last, key, k);
        HasKeySnoc(rest, last, key, k);
      }
    }
  }

  /** `DedupFirst` keeps each key once. */
  lemma {:induction false} DedupFirstDistinct<T, K>(s: seq<T>, key: T -> K)
    ensures forall i, j :: 0 <= i < j < |DedupFirst(s, key)| ==> key(DedupFirst(s, key)[i]) != key(DedupFirst(s, key)[j])
    decreases |s|
  {
    if s != [] {
      var n := |s| - 1;
      var rest := DedupFirst(s[..n], key);
      DedupFirstDistinct(s[..n], key);
      var r := DedupFirst(s, key);
      if !HasKey(rest, key, key(s[n])) {
        assert r == rest + [s[n]];
        forall i, j | 0 <= i < j < |r| ensures key(r[i]) != key(r[j]) {
          assert r[i] == rest[i];
          if j < |rest| { assert r[j] == rest[j]; } else { assert r[j] == s[n]; }
        }
      }
    }
  }

  /** The element `DedupFirst` keeps for a key is the first element of `s` with that key. */
  lemma {:induction false} DedupFirstPicksFirst<T, K>(s: seq<T>, key: T -> K)
    ensures forall i :: 0 <= i < |DedupFirst(s, key)| ==> HasKey(s, key, key(DedupFirst(s, key)[i]))
    ensures forall i :: 0 <= i < |DedupFirst(s, key)| ==>
      DedupFirst(s, key)[i] == s[FirstKeyIndex(s, key, key(DedupFirst(s, key)[i]))]
    decreases |s|
  {
    if s != [] {
      var n := |s| - 1;
      var init := s[..n];
      var last := s[n];
      var rest := DedupFirst(init, key);
      DedupFirstPicksFirst(init, key);
      var r := DedupFirst(s, key);
      forall i | 0 <= i < |rest| ensures HasKey(s, key, key(rest[i])) && rest[i] == s[FirstKeyIndex(s, key, key(rest[i]))] {
        assert HasKey(init, key, key(rest[i])) && rest[i] == init[FirstKeyIndex(init, key, key(rest[i]))];
        FirstKeyIndexPrefix(s, key, key(rest[i]), n);
      }
      if !HasKey(rest, key, key(last)) {
        DedupFirstKeys(init, key);
        assert HasKey(s, key, key(last)) by { assert key(s[n]) == key(last); }
        var f := FirstKeyIndex(s, key, key(last));
        assert f == n;
        forall i | 0 <= i < |r| ensures HasKey(s, key, key(r[i])) && r[i] == s[FirstKeyIndex(s, key, key(r[i]))] {
          if i < |rest| { assert r[i] == rest[i]; }
        }
      }
    }
  }

  /** After a sort by `before`, the element `DedupFirst` keeps for a key is not beaten by any
   *  element with that key: the newest record per key when `before` means "newer". */
  lemma DedupFirstKeepsBest<T(!new), K>(s: seq<T>, key: T -> K, before: (T, T) -> bool)
    requires StrictOrder(before) && SortedBy(s, before)
    ensures var r := DedupFirst(s, key);
      forall i, j :: 0 <= i < |r| && 0 <= j < |s| && key(s[j]) == key(r[i]) ==> !before(s[j], r[i])
  {
    DedupFirstPicksFirst(s, key);
    var r := DedupFirst(s, key);
    forall i, j | 0 <= i < |r| && 0 <= j < |s| && key(s[j]) == key(r[i]) ensures !before(s[j], r[i]) {
      var f := FirstKeyIndex(s, key, key(r[i]));
      assert f <= j;
    }
  }
}
