/** `Array.prototype.sort` with a comparator. Since ES2019 the sort is
    stable; it is modelled by a stable insertion sort, which for a
    consistent comparator is the unique stable ordering of the input. */
module Sorting {
  import opened Wrappers
  import opened Strings
  import opened Seqs

  /** `cmp(a, b)` and `cmp(b, a)` disagree in sign on the values in `u`. */
  ghost predicate Antisymmetric<T>(cmp: (T, T) -> int, u: set<T>) {
    forall a, b :: a in u && b in u ==> cmp(a, b) == -cmp(b, a)
  }

  /** "Not after" is transitive on the values in `u`. */
  ghost predicate Transitive<T>(cmp: (T, T) -> int, u: set<T>) {
    forall a, b, c :: a in u && b in u && c in u && cmp(a, b) <= 0 && cmp(b, c) <= 0 ==> cmp(a, c) <= 0
  }

  /** A comparator that is consistent on the values in `u`. A comparator whose
      result can be NaN (which `sort` reads as 0) is consistent only on the
      values where it is not. */
  ghost predicate IsComparator<T>(cmp: (T, T) -> int, u: set<T>) {
    Antisymmetric(cmp, u) && Transitive(cmp, u)
  }

  function Elements<T>(s: seq<T>): set<T> {
    set x | x in s
  }

  /** Each element ordered no later than its successor. */
  predicate Chained<T>(s: seq<T>, cmp: (T, T) -> int) {
    forall i :: 0 < i < |s| ==> cmp(s[i - 1], s[i]) <= 0
  }

  /** Every element ordered no later than each element after it. */
  predicate SortedBy<T>(s: seq<T>, cmp: (T, T) -> int) {
    forall i, j :: 0 <= i < j < |s| ==> cmp(s[i], s[j]) <= 0
  }

  /** `x` placed before the first element it does not come after. */
  function Insert<T>(x: T, s: seq<T>, cmp: (T, T) -> int): (r: seq<T>)
    ensures |r| == |s| + 1
    ensures multiset(r) == multiset(s) + multiset{x}
    ensures forall k :: 0 <= k < |r| ==> r[k] == x || r[k] in s
  {
    if s == [] then [x]
    else if cmp(x, s[0]) <= 0 then [x] + s
    else
      assert s == [s[0]] + s[1..];
      [s[0]] + Insert(x, s[1..], cmp)
  }

  /** The sorted copy that `[...s].sort(cmp)` returns. */
  function SortWith<T>(s: seq<T>, cmp: (T, T) -> int): (r: seq<T>)
    ensures |r| == |s|
    ensures multiset(r) == multiset(s)
  {
    if s == [] then []
    else
      assert s == [s[0]] + s[1..];
      Insert(s[0], SortWith(s[1..], cmp), cmp)
  }

  lemma {:induction false} InsertChained<T>(x: T, s: seq<T>, cmp: (T, T) -> int, u: set<T>)
    requires Antisymmetric(cmp, u) && x in u && Elements(s) <= u && Chained(s, cmp)
    ensures Chained(Insert(x, s, cmp), cmp)
  {
    if s != [] && cmp(x, s[0]) > 0 {
      TailFacts(s, cmp, u);
      InsertChained(x, s[1..], cmp, u);
      var rest := Insert(x, s[1..], cmp);
      assert s[0] in Elements(s);
      assert cmp(s[0], x) <= 0;
      InsertHead(x, s[1..], cmp);
      ConsChained(s[0], rest, cmp);
    }
  }

  /** The tail of a chained sequence over `u` is chained and over `u`. */
  lemma TailFacts<T>(s: seq<T>, cmp: (T, T) -> int, u: set<T>)
    requires s != [] && Elements(s) <= u && Chained(s, cmp)
    ensures Elements(s[1..]) <= u && Chained(s[1..], cmp)
  {
    forall y | y in s[1..] ensures y in u {
      assert y in s;
    }
    forall i | 0 < i < |s[1..]| ensures cmp(s[1..][i - 1], s[1..][i]) <= 0 {
      assert s[1..][i - 1] == s[i] && s[1..][i] == s[i + 1];
    }
  }

  /** Inserting leaves at the front either the new value or the old head. */
  lemma InsertHead<T>(x: T, s: seq<T>, cmp: (T, T) -> int)
    ensures Insert(x, s, cmp)[0] == x || (s != [] && Insert(x, s, cmp)[0] == s[0])
  {
  }

  /** An element ordered no later than the head of a chained sequence
      extends it. */
  lemma ConsChained<T>(a: T, rest: seq<T>, cmp: (T, T) -> int)
    requires Chained(rest, cmp) && rest != [] && cmp(a, rest[0]) <= 0
    ensures Chained([a] + rest, cmp)
  {
    var r := [a] + rest;
    forall i | 0 < i < |r| ensures cmp(r[i - 1], r[i]) <= 0 {
      if i > 1 {
        assert r[i - 1] == rest[i - 2] && r[i] == rest[i - 1];
      }
    }
  }

  lemma {:induction false} SortChained<T>(s: seq<T>, cmp: (T, T) -> int, u: set<T>)
    requires Antisymmetric(cmp, u) && Elements(s) <= u
    ensures Chained(SortWith(s, cmp), cmp)
  {
    if s != [] {
      assert s[0] in Elements(s);
      assert Elements(s[1..]) <= u by {
        forall y | y in s[1..] ensures y in u {
          assert y in s;
        }
      }
      SortChained(s[1..], cmp, u);
      var t := SortWith(s[1..], cmp);
      assert Elements(t) <= u by {
        forall y | y in t ensures y in u {
          assert y in multiset(t);
          assert y in multiset(s[1..]);
          assert y in s[1..];
        }
      }
      InsertChained(s[0], t, cmp, u);
    }
  }

  /** With a transitive comparator, ordered neighbours mean an ordered sequence. */
  lemma {:induction false} ChainedSorted<T>(s: seq<T>, cmp: (T, T) -> int, u: set<T>)
    requires Transitive(cmp, u) && Elements(s) <= u && Chained(s, cmp)
    ensures SortedBy(s, cmp)
  {
    if s != [] {
      assert Chained(s[1..], cmp);
      assert Elements(s[1..]) <= u by {
        forall y | y in s[1..] ensures y in u {
          assert y in s;
        }
      }
      ChainedSorted(s[1..], cmp, u);
      forall i, j | 0 <= i < j < |s| ensures cmp(s[i], s[j]) <= 0 {
        if i == 0 && j > 1 {
          assert s[0] in Elements(s) && s[1] in Elements(s) && s[j] in Elements(s);
          assert cmp(s[0], s[1]) <= 0 && s[1..][0] == s[1] && s[1..][j - 1] == s[j];
        } else if i > 0 {
          assert s[1..][i - 1] == s[i] && s[1..][j - 1] == s[j];
        }
      }
    }
  }

  /** A sort with a comparator consistent on the input leaves the result ordered. */
  lemma SortSorted<T>(s: seq<T>, cmp: (T, T) -> int)
    requires IsComparator(cmp, Elements(s))
    ensures SortedBy(SortWith(s, cmp), cmp)
  {
    var u := Elements(s);
    SortChained(s, cmp, u);
    var r := SortWith(s, cmp);
    assert Elements(r) <= u by {
      forall y | y in r ensures y in u {
        assert y in multiset(r);
        assert y in multiset(s);
      }
    }
    ChainedSorted(r, cmp, u);
  }

  /** Sorting an already ordered sequence changes nothing (stability). */
  lemma {:induction false} SortOfSorted<T>(s: seq<T>, cmp: (T, T) -> int)
    requires SortedBy(s, cmp)
    ensures SortWith(s, cmp) == s
  {
    if s != [] {
      var tail := s[1..];
      assert SortedBy(tail, cmp) by {
        forall i, j | 0 <= i < j < |tail| ensures cmp(tail[i], tail[j]) <= 0 {
          assert tail[i] == s[i + 1] && tail[j] == s[j + 1];
        }
      }
      SortOfSorted(tail, cmp);
      assert SortWith(s, cmp) == Insert(s[0], tail, cmp);
      if tail != [] {
        assert cmp(s[0], tail[0]) <= 0 by {
          assert tail[0] == s[1];
        }
      }
      assert s == [s[0]] + tail;
    }
  }

  /** A comparator that finds every pair equal keeps the input order. */
  lemma AllTiesKeepOrder<T>(s: seq<T>, cmp: (T, T) -> int)
    requires forall i, j :: 0 <= i < |s| && 0 <= j < |s| ==> cmp(s[i], s[j]) == 0
    ensures SortWith(s, cmp) == s
  {
    SortOfSorted(s, cmp);
  }

  /** `x - y` on two numbers either of which may be NaN (`None`);
      `sort` reads a NaN comparison as 0. */
  function NumericOrder(x: Option<int>, y: Option<int>): int {
    if x.Some? && y.Some? then x.value - y.value else 0
  }

  predicate AllKeyed<T>(s: seq<T>, key: T -> Option<int>) {
    forall k :: 0 <= k < |s| ==> key(s[k]).Some?
  }

  predicate KeyAscending<T>(s: seq<T>, key: T -> Option<int>)
    requires AllKeyed(s, key)
  {
    forall i, j :: 0 <= i < j < |s| ==> key(s[i]).value <= key(s[j]).value
  }

  /** A sort by a numeric key that is never NaN on the input orders the
      result by ascending key. */
  lemma SortByKey<T(!new)>(s: seq<T>, cmp: (T, T) -> int, key: T -> Option<int>)
    requires forall a, b :: cmp(a, b) == NumericOrder(key(a), key(b))
    requires AllKeyed(s, key)
    ensures AllKeyed(SortWith(s, cmp), key) && KeyAscending(SortWith(s, cmp), key)
  {
    var u := Elements(s);
    forall a | a in u ensures key(a).Some? {
      var k :| 0 <= k < |s| && s[k] == a;
    }
    assert IsComparator(cmp, u);
    SortSorted(s, cmp);
    var r := SortWith(s, cmp);
    forall k | 0 <= k < |r| ensures key(r[k]).Some? {
      assert r[k] in multiset(s);
      assert r[k] in u;
    }
    forall i, j | 0 <= i < j < |r| ensures key(r[i]).value <= key(r[j]).value {
      assert cmp(r[i], r[j]) <= 0;
      assert key(r[i]).Some? && key(r[j]).Some?;
      var x, y := key(r[i]), key(r[j]);
      assert cmp(r[i], r[j]) == NumericOrder(x, y);
      assert NumericOrder(x, y) == x.value - y.value;
    }
  }

  predicate KeyDescending<T>(s: seq<T>, key: T -> Option<int>)
    requires AllKeyed(s, key)
  {
    forall i, j :: 0 <= i < j < |s| ==> key(s[i]).value >= key(s[j]).value
  }

  function Negated(x: Option<int>): Option<int> {
    if x.Some? then Some(-x.value) else None
  }

  /** A sort by a numeric key, ascending or negated, that is never NaN on the
      input orders the result by that key in that direction. */
  lemma SortByKeyDirected<T(!new)>(s: seq<T>, cmp: (T, T) -> int, key: T -> Option<int>, ascending: bool)
    requires forall a, b :: cmp(a, b) == if ascending then NumericOrder(key(a), key(b)) else -NumericOrder(key(a), key(b))
    requires AllKeyed(s, key)
    ensures AllKeyed(SortWith(s, cmp), key)
    ensures ascending ==> KeyAscending(SortWith(s, cmp), key)
    ensures !ascending ==> KeyDescending(SortWith(s, cmp), key)
  {
    if ascending {
      SortByKey(s, cmp, key);
    } else {
      var neg := (x: T) => Negated(key(x));
      assert forall a, b :: cmp(a, b) == NumericOrder(neg(a), neg(b));
      SortByKey(s, cmp, neg);
      var r := SortWith(s, cmp);
      assert forall k :: 0 <= k < |r| ==> key(r[k]).Some? by {
        forall k | 0 <= k < |r| ensures key(r[k]).Some? {
          assert neg(r[k]).Some?;
        }
      }
    }
  }

  /** `a.localeCompare(b)` on string keys, ascending or negated. */
  function TextOrder(a: string, b: string, ascending: bool): int {
    if ascending then Compare(a, b) else -Compare(a, b)
  }

  /** A sort by a string key orders the result by that key in that direction. */
  lemma SortByTextDirected<T(!new)>(s: seq<T>, cmp: (T, T) -> int, key: T -> string, ascending: bool)
    requires forall a, b :: cmp(a, b) == TextOrder(key(a), key(b), ascending)
    ensures ascending ==> forall i, j :: 0 <= i < j < |s| ==> Compare(key(SortWith(s, cmp)[i]), key(SortWith(s, cmp)[j])) <= 0
    ensures !ascending ==> forall i, j :: 0 <= i < j < |s| ==> Compare(key(SortWith(s, cmp)[j]), key(SortWith(s, cmp)[i])) <= 0
  {
    var u := Elements(s);
    forall a, b | a in u && b in u ensures cmp(a, b) == -cmp(b, a) {
      CompareAntisymmetric(key(a), key(b));
    }
    forall a, b, c | a in u && b in u && c in u && cmp(a, b) <= 0 && cmp(b, c) <= 0
      ensures cmp(a, c) <= 0
    {
      if ascending {
        CompareTransitive(key(a), key(b), key(c));
      } else {
        CompareAntisymmetric(key(a), key(b));
        CompareAntisymmetric(key(b), key(c));
        CompareAntisymmetric(key(a), key(c));
        CompareTransitive(key(c), key(b), key(a));
      }
    }
    SortSorted(s, cmp);
    var r := SortWith(s, cmp);
    if !ascending {
      forall i, j | 0 <= i < j < |s| ensures Compare(key(r[j]), key(r[i])) <= 0 {
        assert cmp(r[i], r[j]) <= 0;
        CompareAntisymmetric(key(r[i]), key(r[j]));
      }
    }
  }

  /** Ordered by the negated comparator is ordered backwards by the original. */
  lemma SortedNegated<T>(s: seq<T>, cmp: (T, T) -> int, neg: (T, T) -> int)
    requires Antisymmetric(cmp, Elements(s))
    requires forall a, b :: neg(a, b) == -cmp(a, b)
    ensures SortedBy(s, neg) <==> forall i, j :: 0 <= i < j < |s| ==> cmp(s[j], s[i]) <= 0
  {
    forall i, j | 0 <= i < j < |s| ensures neg(s[i], s[j]) <= 0 <==> cmp(s[j], s[i]) <= 0 {
      assert s[i] in Elements(s) && s[j] in Elements(s);
    }
  }

  /** The order of `sort()` without a comparator on strings: by character code. */
  function CodeOrder(): (string, string) -> int {
    (a: string, b: string) => Compare(a, b)
  }

  /** `Array.from(set).sort()` on the insertion-ordered values of a set. */
  function SortStrings(s: seq<string>): seq<string> {
    SortWith(s, CodeOrder())
  }

  /** Sorting values without repeats gives the same values, each once, in
      strictly increasing order. */
  lemma SortStringsDistinct(s: seq<string>)
    requires Distinct(s)
    ensures Elements(SortStrings(s)) == Elements(s)
    ensures forall i, j :: 0 <= i < j < |SortStrings(s)| ==> Compare(SortStrings(s)[i], SortStrings(s)[j]) < 0
  {
    var r := SortStrings(s);
    SortByTextDirected(s, CodeOrder(), (t: string) => t, true);
    DistinctPermutation(s, r);
    SameElements(s, r);
  }

  lemma SameElements<T>(a: seq<T>, b: seq<T>)
    requires multiset(a) == multiset(b)
    ensures Elements(a) == Elements(b)
  {
    forall x | x in a ensures x in b {
      assert x in multiset(a);
    }
    forall x | x in b ensures x in a {
      assert x in multiset(b);
    }
  }
}
