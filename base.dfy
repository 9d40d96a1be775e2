/** Small building blocks shared by the model: optional values, results with an error,
    Python's rendering of integers as text and its ordering of strings, and the stable
    sort that Python's `list.sort(key=...)` performs. */
module Base {

  datatype Option<T> = None | Some(value: T)

  datatype Result<T, E> = Ok(value: T) | Failure(error: E)

  /** True when `s` has `p` as a prefix (Python's `str.startswith`). */
  predicate StartsWith(s: string, p: string) {
    |p| <= |s| && s[..|p|] == p
  }

  /** True when `s` has `p` as a suffix (Python's `str.endswith`). */
  predicate EndsWith(s: string, p: string) {
    |p| <= |s| && s[|s| - |p|..] == p
  }

  function DigitChar(d: nat): (c: char)
    requires d < 10
  {
    "0123456789"[d]
  }

  /** Decimal text of a natural number, as Python's `str(n)` writes it. */
  function NatToString(n: nat): (r: string)
    ensures |r| >= 1
    decreases n
  {
    if n < 10 then [DigitChar(n)] else NatToString(n / 10) + [DigitChar(n % 10)]
  }

  /** Decimal text of an integer, with a leading '-' when negative (Python's `str(i)`). */
  function IntToString(i: int): (r: string)
    ensures i >= 0 ==> r == NatToString(i)
    ensures i < 0 ==> r == "-" + NatToString(-i)
  {
    if i >= 0 then NatToString(i) else "-" + NatToString(-i)
  }

  /** Python's slice `s[start:stop]` for non-negative `start`, with a negative `stop`
      counted from the end; out-of-range bounds are clamped and an empty range gives "". */
  function PySlice(s: string, start: nat, stop: int): (r: string)
    ensures |r| <= |s|
    ensures r == [] || (start < |s| && start + |r| <= |s| && r == s[start..start + |r|])
    ensures stop < 0 ==> r == (if start < |s| + stop then s[start..|s| + stop] else [])
    ensures stop >= 0 ==>
      r == (if start < stop && start < |s| then s[start..if stop <= |s| then stop else |s|] else [])
  {
    var b := if start <= |s| then start else |s|;
    var e0 := if stop >= 0 then stop else |s| + stop;
    var e := if e0 < 0 then 0 else if e0 > |s| then |s| else e0;
    if b < e then s[b..e] else ""
  }

  // ---------------------------------------------------------------------------
  // String ordering: Python compares `str` values code point by code point.

  /** `a <= b` in Python's lexicographic order on strings. */
  predicate LexLe(a: string, b: string)
    decreases |a|
  {
    a == [] || (b != [] && (a[0] < b[0] || (a[0] == b[0] && LexLe(a[1..], b[1..]))))
  }

  lemma {:induction false} LexLeReflexive(a: string)
    ensures LexLe(a, a)
    decreases |a|
  {
    if a != [] { LexLeReflexive(a[1..]); }
  }

  lemma {:induction false} LexLeTotal(a: string, b: string)
    ensures LexLe(a, b) || LexLe(b, a)
    decreases |a|
  {
    if a != [] && b != [] && a[0] == b[0] {
      LexLeTotal(a[1..], b[1..]);
    }
  }

  lemma {:induction false} LexLeTransitive(a: string, b: string, c: string)
    requires LexLe(a, b) && LexLe(b, c)
    ensures LexLe(a, c)
    decreases |a|
  {
    if a != [] && b[0] == a[0] && c[0] == b[0] {
      LexLeTransitive(a[1..], b[1..], c[1..]);
    }
  }

  lemma {:induction false} LexLeAntisymmetric(a: string, b: string)
    requires LexLe(a, b) && LexLe(b, a)
    ensures a == b
    decreases |a|
  {
    if a != [] {
      LexLeAntisymmetric(a[1..], b[1..]);
      assert a == [a[0]] + a[1..] && b == [b[0]] + b[1..];
    }
  }

  // ---------------------------------------------------------------------------
  // Stable sorting by a string key (Python's `list.sort(key=k)`, which is stable).

  predicate SortedBy<T>(s: seq<T>, key: T -> string) {
    forall i, j :: 0 <= i < j < |s| ==> LexLe(key(s[i]), key(s[j]))
  }

  /** Inserts `x` in front of the first element whose key is not smaller than `x`'s. */
  function InsertBy<T>(x: T, s: seq<T>, key: T -> string): (r: seq<T>)
    decreases |s|
  {
    if s == [] || LexLe(key(x), key(s[0])) then [x] + s
    else [s[0]] + InsertBy(x, s[1..], key)
  }

  function SortBy<T>(s: seq<T>, key: T -> string): (r: seq<T>)
    decreases |s|
  {
    if s == [] then [] else InsertBy(s[0], SortBy(s[1..], key), key)
  }

  /** The elements of `s` whose key is `k`, in their order in `s`. */
  function WithKey<T>(s: seq<T>, key: T -> string, k: string): (r: seq<T>)
    decreases |s|
  {
    if s == [] then []
    else (if key(s[0]) == k then [s[0]] else []) + WithKey(s[1..], key, k)
  }

  lemma {:induction false} InsertByFacts<T>(x: T, s: seq<T>, key: T -> string)
    requires SortedBy(s, key)
    ensures multiset(InsertBy(x, s, key)) == multiset{x} + multiset(s)
    ensures SortedBy(InsertBy(x, s, key), key)
    decreases |s|
  {
    if s == [] || LexLe(key(x), key(s[0])) {
      var r := [x] + s;
      forall i, j | 0 <= i < j < |r| ensures LexLe(key(r[i]), key(r[j])) {
        if i == 0 {
          if j > 1 { LexLeTransitive(key(x), key(s[0]), key(s[j - 1])); }
        }
      }
    } else {
      var t := s[1..];
      assert s == [s[0]] + t;
      InsertByFacts(x, t, key);
      var rest := InsertBy(x, t, key);
      var r := [s[0]] + rest;
      LexLeTotal(key(x), key(s[0]));
      forall i, j | 0 <= i < j < |r| ensures LexLe(key(r[i]), key(r[j])) {
        if i == 0 {
          var y := r[j];
          assert y in multiset(rest);
          assert y == x || y in multiset(t);
          if y != x {
            var m :| 0 <= m < |t| && t[m] == y;
            assert s[m + 1] == y;
          }
        }
      }
    }
  }

  /** The sorted result is ordered by key and holds exactly the input's elements. */
  lemma {:induction false} SortByIsSortedPermutation<T>(s: seq<T>, key: T -> string)
    ensures SortedBy(SortBy(s, key), key)
    ensures multiset(SortBy(s, key)) == multiset(s)
    decreases |s|
  {
    if s != [] {
      SortByIsSortedPermutation(s[1..], key);
      InsertByFacts(s[0], SortBy(s[1..], key), key);
      assert s == [s[0]] + s[1..];
    }
  }

  lemma {:induction false} WithKeyAppend<T>(a: seq<T>, b: seq<T>, key: T -> string, k: string)
    ensures WithKey(a + b, key, k) == WithKey(a, key, k) + WithKey(b, key, k)
    decreases |a|
  {
    if a != [] {
      assert (a + b)[0] == a[0] && (a + b)[1..] == a[1..] + b;
      WithKeyAppend(a[1..], b, key, k);
      var h := if key(a[0]) == k then [a[0]] else [];
      calc {
        WithKey(a + b, key, k);
        h + WithKey(a[1..] + b, key, k);
        h + (WithKey(a[1..], key, k) + WithKey(b, key, k));
        (h + WithKey(a[1..], key, k)) + WithKey(b, key, k);
      }
    } else {
      assert a + b == b;
    }
  }

  lemma {:induction false} InsertByWithKey<T>(x: T, s: seq<T>, key: T -> string, k: string)
    requires SortedBy(s, key)
    ensures WithKey(InsertBy(x, s, key), key, k)
         == (if key(x) == k then [x] else []) + WithKey(s, key, k)
    decreases |s|
  {
    if s == [] || LexLe(key(x), key(s[0])) {
      var r := [x] + s;
      assert r[0] == x && r[1..] == s;
    } else {
      var t := s[1..];
      assert SortedBy(t, key);
      InsertByWithKey(x, t, key, k);
      var r := [s[0]] + InsertBy(x, t, key);
      assert r[0] == s[0] && r[1..] == InsertBy(x, t, key);
      assert WithKey(r, key, k) == (if key(s[0]) == k then [s[0]] else []) + WithKey(InsertBy(x, t, key), key, k);
      assert WithKey(s, key, k) == (if key(s[0]) == k then [s[0]] else []) + WithKey(t, key, k);
      if key(x) == k && key(s[0]) == k {
        LexLeReflexive(k);
        assert false;
      }
    }
  }

  /** The sort is stable: elements with equal keys keep their relative order. */
  lemma {:induction false} SortByStable<T>(s: seq<T>, key: T -> string, k: string)
    ensures WithKey(SortBy(s, key), key, k) == WithKey(s, key, k)
    decreases |s|
  {
    if s != [] {
      SortByStable(s[1..], key, k);
      SortByIsSortedPermutation(s[1..], key);
      InsertByWithKey(s[0], SortBy(s[1..], key), key, k);
    }
  }

  lemma SortByLength<T>(s: seq<T>, key: T -> string)
    ensures |SortBy(s, key)| == |s|
  {
    SortByIsSortedPermutation(s, key);
    assert |multiset(SortBy(s, key))| == |multiset(s)|;
  }
}
