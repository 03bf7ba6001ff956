/**
 * Sequence operations shared by the front-end components: JavaScript's
 * `Array.prototype.filter`, a JavaScript `Set` kept as a duplicate-free sequence
 * in insertion order, and a stable sort by a string key.
 */
module SeqUtil {

  /** `s.filter(p)`: the elements satisfying `p`, in their original order. */
  function Filter<T>(s: seq<T>, p: T -> bool): (r: seq<T>)
    ensures |r| <= |s|
    ensures forall i :: 0 <= i < |r| ==> r[i] in s && p(r[i])
    ensures forall i :: 0 <= i < |s| && p(s[i]) ==> s[i] in r
  {
    if s == [] then []
    else
      assert s == [s[0]] + s[1..];
      if p(s[0]) then [s[0]] + Filter(s[1..], p)
      else Filter(s[1..], p)
  }

  function Not<T>(p: T -> bool): T -> bool
  {
    x => !p(x)
  }

  function And<T>(p: T -> bool, q: T -> bool): T -> bool
  {
    x => p(x) && q(x)
  }

  lemma {:induction false} FilterAppend<T>(a: seq<T>, b: seq<T>, p: T -> bool)
    ensures Filter(a + b, p) == Filter(a, p) + Filter(b, p)
  {
    if a == [] {
      assert a + b == b;
    } else {
      assert (a + b)[1..] == a[1..] + b;
      FilterAppend(a[1..], b, p);
    }
  }

  /** Filtering twice is filtering once by the conjunction. */
  lemma {:induction false} FilterFilter<T>(s: seq<T>, p: T -> bool, q: T -> bool)
    ensures Filter(Filter(s, p), q) == Filter(s, And(p, q))
  {
    if s != [] {
      FilterFilter(s[1..], p, q);
    }
  }

  /** A filter that every element passes keeps the whole sequence. */
  lemma {:induction false} FilterKeepsAll<T>(s: seq<T>, p: T -> bool)
    requires forall i :: 0 <= i < |s| ==> p(s[i])
    ensures Filter(s, p) == s
  {
    if s != [] {
      FilterKeepsAll(s[1..], p);
    }
  }

  /** Filtering by two predicates that agree on every element gives the same result. */
  lemma {:induction false} FilterSameOn<T>(s: seq<T>, p: T -> bool, q: T -> bool)
    requires forall i :: 0 <= i < |s| ==> p(s[i]) == q(s[i])
    ensures Filter(s, p) == Filter(s, q)
  {
    if s != [] {
      FilterSameOn(s[1..], p, q);
    }
  }

  /** The elements that pass and those that fail together are the whole sequence. */
  lemma {:induction false} FilterSplitsMultiset<T>(s: seq<T>, p: T -> bool)
    ensures multiset(Filter(s, p)) + multiset(Filter(s, Not(p))) == multiset(s)
  {
    if s != [] {
      FilterSplitsMultiset(s[1..], p);
      assert s == [s[0]] + s[1..];
    }
  }

  /** `s.filter(y => y !== x)`: every occurrence of `x` removed. */
  function Without<T(==)>(s: seq<T>, x: T): (r: seq<T>)
    ensures x !in r
    ensures forall i :: 0 <= i < |r| ==> r[i] in s
    ensures forall i :: 0 <= i < |s| && s[i] != x ==> s[i] in r
  {
    Filter(s, NotEq(x))
  }

  function NotEq<T(==)>(x: T): T -> bool
  {
    y => y != x
  }

  /** Removing a value that does not occur changes nothing. */
  lemma WithoutAbsent<T>(s: seq<T>, x: T)
    requires x !in s
    ensures Without(s, x) == s
  {
    FilterKeepsAll(s, NotEq(x));
  }

  /** Removing from a concatenation removes from each part. */
  lemma WithoutAppend<T>(a: seq<T>, b: seq<T>, x: T)
    ensures Without(a + b, x) == Without(a, x) + Without(b, x)
  {
    FilterAppend(a, b, NotEq(x));
  }

  lemma WithoutNoDup<T>(s: seq<T>, x: T)
    requires NoDup(s)
    ensures NoDup(Without(s, x))
  {
    FilterNoDup(s, NotEq(x));
  }

  /** No element occurs twice. */
  predicate NoDup<T(==)>(s: seq<T>)
  {
    forall i, j :: 0 <= i < j < |s| ==> s[i] != s[j]
  }

  lemma {:induction false} FilterNoDup<T>(s: seq<T>, p: T -> bool)
    requires NoDup(s)
    ensures NoDup(Filter(s, p))
  {
    if s != [] {
      FilterNoDup(s[1..], p);
      assert s[0] !in s[1..] by {
        forall j | 0 <= j < |s[1..]| ensures s[1..][j] != s[0] {
          assert s[1..][j] == s[j + 1];
        }
      }
    }
  }

  /** `Set.add`: append `x` unless it is already there. */
  function SetAdd<T(==)>(s: seq<T>, x: T): (r: seq<T>)
    requires NoDup(s)
    ensures NoDup(r)
    ensures x in r
    ensures forall i :: 0 <= i < |s| ==> s[i] in r
    ensures forall i :: 0 <= i < |r| ==> r[i] in s || r[i] == x
  {
    if x in s then s else s + [x]
  }

  /** `Set.delete`: remove `x`, keeping the order of the rest. */
  function SetDelete<T(==)>(s: seq<T>, x: T): (r: seq<T>)
    requires NoDup(s)
    ensures NoDup(r)
    ensures x !in r
    ensures forall i :: 0 <= i < |r| ==> r[i] in s
    ensures forall i :: 0 <= i < |s| && s[i] != x ==> s[i] in r
  {
    WithoutNoDup(s, x);
    Without(s, x)
  }

  /** `new Set(list)`, read back with `Array.from`: first occurrences, in order. */
  function Dedupe<T(==)>(s: seq<T>): (r: seq<T>)
    ensures NoDup(r)
    ensures forall i :: 0 <= i < |r| ==> r[i] in s
    ensures forall i :: 0 <= i < |s| ==> s[i] in r
  {
    if s == [] then []
    else SetAdd(Dedupe(s[..|s| - 1]), s[|s| - 1])
  }

  /** A loop over `s` that has reached index `j` has seen one more element at `j + 1`. */
  lemma PrefixAppend<T>(before: seq<T>, s: seq<T>, j: int)
    requires 0 <= j < |s|
    ensures before + s[..j + 1] == before + s[..j] + [s[j]]
  {
    assert s[..j + 1] == s[..j] + [s[j]];
  }

  /** One more element is one more `Set.add`. */
  lemma DedupeAppend<T>(s: seq<T>, x: T)
    ensures Dedupe(s + [x]) == SetAdd(Dedupe(s), x)
  {
    assert (s + [x])[..|s|] == s;
  }

  lemma {:induction false} DedupeKeepsNoDup<T>(s: seq<T>)
    requires NoDup(s)
    ensures Dedupe(s) == s
  {
    if s != [] {
      var init := s[..|s| - 1];
      assert NoDup(init) by {
        forall i, j | 0 <= i < j < |init| ensures init[i] != init[j] {
          assert init[i] == s[i] && init[j] == s[j];
        }
      }
      DedupeKeepsNoDup(init);
      assert s[|s| - 1] !in init by {
        forall i | 0 <= i < |init| ensures init[i] != s[|s| - 1] {
          assert init[i] == s[i];
        }
      }
      assert init + [s[|s| - 1]] == s;
    }
  }

  // ----- a stable sort by a string key -----

  /**
   * Code-point lexicographic order: the total order that stands in for the
   * browser's locale collation (`localeCompare`) and for the UTF-16
   * code-unit order of the default `Array.prototype.sort`.
   */
  predicate StrLe(a: string, b: string)
  {
    if a == [] then true
    else if b == [] then false
    else if a[0] != b[0] then a[0] < b[0]
    else StrLe(a[1..], b[1..])
  }

  lemma {:induction false} StrLeRefl(a: string)
    ensures StrLe(a, a)
  {
    if a != [] {
      StrLeRefl(a[1..]);
    }
  }

  lemma {:induction false} StrLeTotal(a: string, b: string)
    ensures StrLe(a, b) || StrLe(b, a)
  {
    if a != [] && b != [] && a[0] == b[0] {
      StrLeTotal(a[1..], b[1..]);
    }
  }

  lemma {:induction false} StrLeTrans(a: string, b: string, c: string)
    requires StrLe(a, b) && StrLe(b, c)
    ensures StrLe(a, c)
  {
    if a != [] && b != [] && c != [] && a[0] == b[0] && b[0] == c[0] {
      StrLeTrans(a[1..], b[1..], c[1..]);
    }
  }

  lemma {:induction false} StrLeAntisym(a: string, b: string)
    requires StrLe(a, b) && StrLe(b, a)
    ensures a == b
  {
    if a != [] && b != [] {
      StrLeAntisym(a[1..], b[1..]);
      assert a == [a[0]] + a[1..] && b == [b[0]] + b[1..];
    }
  }

  predicate SortedBy<T>(s: seq<T>, key: T -> string)
  {
    forall i, j :: 0 <= i < j < |s| ==> StrLe(key(s[i]), key(s[j]))
  }

  /** Insert `x` in front of the first element whose key is not below its own. */
  function InsertBy<T>(x: T, s: seq<T>, key: T -> string): (r: seq<T>)
    ensures multiset(r) == multiset(s) + multiset{x}
  {
    if s == [] || StrLe(key(x), key(s[0])) then [x] + s
    else
      assert s == [s[0]] + s[1..];
      [s[0]] + InsertBy(x, s[1..], key)
  }

  /** Insertion sort; elements with equal keys keep their original order. */
  function SortBy<T>(s: seq<T>, key: T -> string): (r: seq<T>)
    ensures multiset(r) == multiset(s)
  {
    if s == [] then []
    else
      assert s == [s[0]] + s[1..];
      InsertBy(s[0], SortBy(s[1..], key), key)
  }

  lemma {:induction false} InsertBySorted<T>(x: T, s: seq<T>, key: T -> string)
    requires SortedBy(s, key)
    ensures SortedBy(InsertBy(x, s, key), key)
  {
    if s != [] && !StrLe(key(x), key(s[0])) {
      var t := s[1..];
      assert SortedBy(t, key) by {
        forall i, j | 0 <= i < j < |t| ensures StrLe(key(t[i]), key(t[j])) {
          assert t[i] == s[i + 1] && t[j] == s[j + 1];
        }
      }
      InsertBySorted(x, t, key);
      var r := InsertBy(x, t, key);
      StrLeTotal(key(x), key(s[0]));
      forall k | 0 <= k < |r| ensures StrLe(key(s[0]), key(r[k])) {
        assert r[k] in multiset(t) + multiset{x} by {
          assert r[k] in multiset(r);
        }
        if r[k] != x {
          assert r[k] in t;
          var m :| 0 <= m < |t| && t[m] == r[k];
          assert s[m + 1] == r[k];
        }
      }
      forall i, j | 0 <= i < j < |[s[0]] + r| ensures StrLe(key(([s[0]] + r)[i]), key(([s[0]] + r)[j])) {
        if i > 0 {
          assert ([s[0]] + r)[i] == r[i - 1] && ([s[0]] + r)[j] == r[j - 1];
        }
      }
    } else if s != [] {
      forall j | 0 <= j < |s| ensures StrLe(key(x), key(s[j])) {
        if j > 0 {
          StrLeTrans(key(x), key(s[0]), key(s[j]));
        }
      }
      forall i, j | 0 <= i < j < |[x] + s| ensures StrLe(key(([x] + s)[i]), key(([x] + s)[j])) {
        if i > 0 {
          assert ([x] + s)[i] == s[i - 1] && ([x] + s)[j] == s[j - 1];
        }
      }
    }
  }

  /** The sort's output is ordered by the key. */
  lemma {:induction false} SortBySorted<T>(s: seq<T>, key: T -> string)
    ensures SortedBy(SortBy(s, key), key)
  {
    if s != [] {
      SortBySorted(s[1..], key);
      InsertBySorted(s[0], SortBy(s[1..], key), key);
    }
  }

  /** The elements whose key is `k`. */
  function KeyIs<T>(key: T -> string, k: string): T -> bool
  {
    y => key(y) == k
  }

  lemma {:induction false} InsertByStable<T>(x: T, s: seq<T>, key: T -> string, k: string)
    ensures Filter(InsertBy(x, s, key), KeyIs(key, k))
         == (if key(x) == k then [x] else []) + Filter(s, KeyIs(key, k))
  {
    if s == [] || StrLe(key(x), key(s[0])) {
      FilterCons(x, s, KeyIs(key, k));
    } else {
      InsertByStable(x, s[1..], key, k);
      StrLeRefl(key(x));
      InsertByStableStep(x, s, key, k);
    }
  }

  lemma InsertByStableStep<T>(x: T, s: seq<T>, key: T -> string, k: string)
    requires s != [] && key(x) != key(s[0])
    requires Filter(InsertBy(x, s[1..], key), KeyIs(key, k))
          == (if key(x) == k then [x] else []) + Filter(s[1..], KeyIs(key, k))
    ensures Filter([s[0]] + InsertBy(x, s[1..], key), KeyIs(key, k))
         == (if key(x) == k then [x] else []) + Filter(s, KeyIs(key, k))
  {
    var p := KeyIs(key, k);
    var rest := InsertBy(x, s[1..], key);
    FilterCons(s[0], rest, p);
    FilterUnfold(s, p);
  }

  lemma FilterUnfold<T>(s: seq<T>, p: T -> bool)
    requires s != []
    ensures Filter(s, p) == (if p(s[0]) then [s[0]] else []) + Filter(s[1..], p)
  {
  }

  lemma FilterCons<T>(x: T, s: seq<T>, p: T -> bool)
    ensures Filter([x] + s, p) == (if p(x) then [x] else []) + Filter(s, p)
  {
    assert ([x] + s)[0] == x && ([x] + s)[1..] == s;
  }

  /**
   * Stability: among the elements with any one key, the sort keeps the input order.
   */
  lemma {:induction false} SortByStable<T>(s: seq<T>, key: T -> string, k: string)
    ensures Filter(SortBy(s, key), KeyIs(key, k)) == Filter(s, KeyIs(key, k))
  {
    if s != [] {
      SortByStable(s[1..], key, k);
      InsertByStable(s[0], SortBy(s[1..], key), key, k);
    }
  }

  /**
   * Sorting strings by `StrLe`, which stands in for the default
   * `Array.prototype.sort` of a string array; that sort compares UTF-16 code
   * units, and the two orders differ only between characters above U+FFFF
   * and those from U+E000 to U+FFFF.
   */
  function SortStrings(s: seq<string>): (r: seq<string>)
    ensures multiset(r) == multiset(s)
  {
    SortBy(s, (x: string) => x)
  }

  /** Sorting keeps a duplicate-free sequence duplicate-free. */
  lemma PermutationNoDup<T>(a: seq<T>, b: seq<T>)
    requires multiset(a) == multiset(b) && NoDup(a)
    ensures NoDup(b)
  {
    forall i, j | 0 <= i < j < |b| ensures b[i] != b[j] {
      if b[i] == b[j] {
        assert multiset(b)[b[i]] >= 2 by {
          var rest := b[..i] + b[i + 1..];
          assert b == b[..i] + [b[i]] + b[i + 1..];
          assert b[j] in rest by {
            assert rest[j - 1] == b[j];
          }
          assert multiset(b) == multiset(rest) + multiset{b[i]};
        }
        NoDupCount(a, b[i]);
      }
    }
  }

  lemma {:induction false} NoDupCount<T>(a: seq<T>, x: T)
    requires NoDup(a)
    ensures multiset(a)[x] <= 1
  {
    if a != [] {
      var t := a[1..];
      assert NoDup(t) by {
        forall i, j | 0 <= i < j < |t| ensures t[i] != t[j] {
          assert t[i] == a[i + 1] && t[j] == a[j + 1];
        }
      }
      NoDupCount(t, x);
      assert a == [a[0]] + t;
      if x == a[0] {
        assert x !in t by {
          forall i | 0 <= i < |t| ensures t[i] != x {
            assert t[i] == a[i + 1];
          }
        }
      }
    }
  }

  /** `s.map(f)`. */
  function Map<T, U>(s: seq<T>, f: T -> U): (r: seq<U>)
    ensures |r| == |s|
    ensures forall i :: 0 <= i < |s| ==> r[i] == f(s[i])
  {
    seq(|s|, i requires 0 <= i < |s| => f(s[i]))
  }

  /** A map of a non-empty sequence is the image of its head followed by the map of its tail. */
  lemma MapCons<T, U>(s: seq<T>, f: T -> U)
    requires s != []
    ensures Map(s, f) == [f(s[0])] + Map(s[1..], f)
  {
  }

  /**
   * Filtering after a map by a test that reads the mapped value the way `p`
   * reads the original is the map of the filtered sequence.
   */
  lemma {:induction false} MapFilter<T, U>(s: seq<T>, f: T -> U, p: T -> bool, q: U -> bool)
    requires forall i :: 0 <= i < |s| ==> q(f(s[i])) == p(s[i])
    ensures Filter(Map(s, f), q) == Map(Filter(s, p), f)
  {
    if s != [] {
      var m := Map(s, f);
      MapCons(s, f);
      assert m[0] == f(s[0]) && m[1..] == Map(s[1..], f);
      MapFilter(s[1..], f, p, q);
      FilterUnfold(s, p);
      FilterUnfold(m, q);
      var rest := Filter(s[1..], p);
      if p(s[0]) {
        MapCons([s[0]] + rest, f);
        assert ([s[0]] + rest)[1..] == rest;
      }
    }
  }
}
