// Shared vocabulary: optional values, sequence aggregates, a stable sort by
// key, and the string helpers of the JavaScript runtime the client relies on
// (trim, split, parseInt, String(n), padStart).

module Common {

  datatype Option<T> = None | Some(value: T)

  /** A JSON scalar of a request or response body. */
  datatype Json = JBool(b: bool) | JNum(n: int) | JStr(s: string) | JNull

  /** The 'all' | 'active' | 'completed' choice of the to-do lists. */
  datatype CompletionFilter = ShowAll | ShowActive | ShowCompleted

  predicate Kept(f: CompletionFilter, completed: bool)
  {
    match f
    case ShowAll => true
    case ShowActive => !completed
    case ShowCompleted => completed
  }

  // ---------------------------------------------------------------------
  // Sequence aggregates, all defined from the back so that a loop running
  // left to right keeps `acc == F(s[..i])` as its invariant.
  // ---------------------------------------------------------------------

  /** Array.prototype.filter: the order-preserving subsequence satisfying p. */
  function Filter<T>(s: seq<T>, p: T -> bool): (r: seq<T>)
    ensures |r| <= |s|
    ensures forall i :: 0 <= i < |r| ==> r[i] in s && p(r[i])
    ensures forall i :: 0 <= i < |s| && p(s[i]) ==> s[i] in r
    ensures multiset(r) <= multiset(s)
  {
    if s == [] then []
    else
      assert s == s[..|s|-1] + [s[|s|-1]];
      Filter(s[..|s|-1], p) + (if p(s[|s|-1]) then [s[|s|-1]] else [])
  }

  /** Number of elements satisfying p. */
  function Count<T>(s: seq<T>, p: T -> bool): (n: nat)
    ensures n <= |s|
  {
    if s == [] then 0
    else Count(s[..|s|-1], p) + (if p(s[|s|-1]) then 1 else 0)
  }

  /** Sum of f over the elements. */
  function Sum<T>(s: seq<T>, f: T -> int): int
  {
    if s == [] then 0 else Sum(s[..|s|-1], f) + f(s[|s|-1])
  }

  /** Array.prototype.map. */
  function MapSeq<T, U>(s: seq<T>, f: T -> U): (r: seq<U>)
    ensures |r| == |s| && forall i :: 0 <= i < |s| ==> r[i] == f(s[i])
  {
    seq(|s|, i requires 0 <= i < |s| => f(s[i]))
  }

  predicate NoDuplicates<T(==)>(s: seq<T>)
  {
    forall i, j :: 0 <= i < j < |s| ==> s[i] != s[j]
  }

  /** `[...new Set(s)]`: the distinct values in first-occurrence order. */
  function Distinct<T(==)>(s: seq<T>): (r: seq<T>)
    ensures NoDuplicates(r)
    ensures forall i :: 0 <= i < |r| ==> r[i] in s
    ensures forall i :: 0 <= i < |s| ==> s[i] in r
    ensures |r| <= |s|
  {
    if s == [] then []
    else
      var d := Distinct(s[..|s|-1]);
      if s[|s|-1] in d then d else d + [s[|s|-1]]
  }

  /** `findIndex`: the position of the first element satisfying p, None when none does. */
  function FindFirst<T>(s: seq<T>, p: T -> bool): (r: Option<nat>)
    ensures r.Some? ==> r.value < |s| && p(s[r.value]) && forall j :: 0 <= j < r.value ==> !p(s[j])
    ensures r.None? <==> forall j :: 0 <= j < |s| ==> !p(s[j])
  {
    if s == [] then None
    else if p(s[0]) then Some(0)
    else
      var t := FindFirst(s[1..], p);
      if t.Some? then Some(t.value + 1) else None
  }

  lemma {:induction false} CountIsFilterLength<T>(s: seq<T>, p: T -> bool)
    ensures Count(s, p) == |Filter(s, p)|
  {
    if s != [] { CountIsFilterLength(s[..|s|-1], p); }
  }

  /** Every element satisfies exactly one of p and its negation. */
  lemma {:induction false} CountPartition<T>(s: seq<T>, p: T -> bool)
    ensures Count(s, p) + Count(s, x => !p(x)) == |s|
  {
    if s != [] { CountPartition(s[..|s|-1], p); }
  }

  /** Counts of a predicate and of its negation add up to the length. */
  lemma {:induction false} CountComplement<T>(s: seq<T>, p: T -> bool, q: T -> bool)
    requires forall x :: q(x) == !p(x)
    ensures Count(s, p) + Count(s, q) == |s|
  {
    if s != [] { CountComplement(s[..|s| - 1], p, q); }
  }

  lemma {:induction false} CountMonotone<T>(s: seq<T>, p: T -> bool, q: T -> bool)
    requires forall x :: p(x) ==> q(x)
    ensures Count(s, p) <= Count(s, q)
  {
    if s != [] { CountMonotone(s[..|s|-1], p, q); }
  }

  /** Counts of two predicates that never hold together add up. */
  lemma {:induction false} CountDisjoint<T>(s: seq<T>, p: T -> bool, q: T -> bool, r: T -> bool)
    requires forall x :: p(x) ==> !q(x)
    requires forall x :: p(x) || q(x) ==> r(x)
    ensures Count(s, p) + Count(s, q) <= Count(s, r)
  {
    if s != [] { CountDisjoint(s[..|s|-1], p, q, r); }
  }

  lemma {:induction false} SumNonNegative<T>(s: seq<T>, f: T -> int)
    requires forall x :: x in s ==> f(x) >= 0
    ensures Sum(s, f) >= 0
  {
    if s != [] {
      assert forall x :: x in s[..|s|-1] ==> x in s;
      SumNonNegative(s[..|s|-1], f);
    }
  }

  lemma {:induction false} SumAppend<T>(s: seq<T>, t: seq<T>, f: T -> int)
    ensures Sum(s + t, f) == Sum(s, f) + Sum(t, f)
  {
    if t == [] {
      assert s + t == s;
    } else {
      assert (s + t)[..|s + t| - 1] == s + t[..|t|-1];
      SumAppend(s, t[..|t|-1], f);
    }
  }

  lemma {:induction false} CountAppend<T>(s: seq<T>, t: seq<T>, p: T -> bool)
    ensures Count(s + t, p) == Count(s, p) + Count(t, p)
  {
    if t == [] {
      assert s + t == s;
    } else {
      assert (s + t)[..|s + t| - 1] == s + t[..|t|-1];
      CountAppend(s, t[..|t|-1], p);
    }
  }

  lemma {:induction false} FilterAppend<T>(s: seq<T>, t: seq<T>, p: T -> bool)
    ensures Filter(s + t, p) == Filter(s, p) + Filter(t, p)
  {
    if t == [] {
      assert s + t == s;
    } else {
      assert (s + t)[..|s + t| - 1] == s + t[..|t|-1];
      FilterAppend(s, t[..|t|-1], p);
    }
  }

  lemma MapSeqAppend<T, U>(a: seq<T>, b: seq<T>, f: T -> U)
    ensures MapSeq(a + b, f) == MapSeq(a, f) + MapSeq(b, f)
  {
    assert forall i :: 0 <= i < |a| + |b| ==> MapSeq(a + b, f)[i] == (MapSeq(a, f) + MapSeq(b, f))[i];
  }

  /** Filtering after mapping is mapping after filtering, when q(f(x)) is p(x). */
  lemma {:induction false} FilterMapCommute<T, U>(s: seq<T>, p: T -> bool, f: T -> U, q: U -> bool)
    requires forall i :: 0 <= i < |s| ==> q(f(s[i])) == p(s[i])
    ensures MapSeq(Filter(s, p), f) == Filter(MapSeq(s, f), q)
  {
    if s != [] {
      var init, x := s[..|s| - 1], s[|s| - 1];
      assert forall i :: 0 <= i < |init| ==> init[i] == s[i];
      FilterMapCommute(init, p, f, q);
      assert s == init + [x];
      assert MapSeq(s, f) == MapSeq(init, f) + [f(x)] by { MapSeqAppend(init, [x], f); }
      FilterAppend(init, [x], p);
      FilterAppend(MapSeq(init, f), [f(x)], q);
      MapSeqAppend(Filter(init, p), Filter([x], p), f);
      FilterOneMapped(x, p, f, q);
    }
  }

  lemma FilterOneMapped<T, U>(x: T, p: T -> bool, f: T -> U, q: U -> bool)
    requires q(f(x)) == p(x)
    ensures MapSeq(Filter([x], p), f) == Filter([f(x)], q)
  {
    assert [x][..0] == [] && [f(x)][..0] == [];
  }

  lemma MultisetSubsetSize<T>(a: multiset<T>, b: multiset<T>)
    requires a <= b
    ensures |a| <= |b|
  {
    assert b == a + (b - a);
  }

  /** `total / count`, or 0 when there is nothing to average. */
  function Mean(total: int, n: nat): (r: real)
    ensures n == 0 ==> r == 0.0
    ensures n > 0 ==> r * (n as real) == total as real
  {
    if n > 0 then total as real / n as real else 0.0
  }

  /** With every weight at least 1, the sum is at least the length. */
  lemma {:induction false} SumAtLeastLength<T>(s: seq<T>, f: T -> int)
    requires forall i :: 0 <= i < |s| ==> f(s[i]) >= 1
    ensures Sum(s, f) >= |s|
  {
    if s != [] {
      SumAtLeastLength(s[..|s| - 1], f);
    }
  }

  lemma MeanNotBelowOne(total: int, n: nat)
    requires n > 0 && total >= n
    ensures Mean(total, n) >= 1.0
  {
    var avg := Mean(total, n);
    if avg < 1.0 {
      assert avg * (n as real) < n as real;
    }
  }

  /** Summing f over the kept elements is summing a weight that is f there and 0 elsewhere. */
  lemma {:induction false} SumOfFilter<T>(s: seq<T>, p: T -> bool, f: T -> int, g: T -> int)
    requires forall i :: 0 <= i < |s| ==> g(s[i]) == if p(s[i]) then f(s[i]) else 0
    ensures Sum(Filter(s, p), f) == Sum(s, g)
  {
    if s != [] {
      var init, x := s[..|s| - 1], s[|s| - 1];
      SumOfFilter(init, p, f, g);
      SumAppend(Filter(init, p), if p(x) then [x] else [], f);
    }
  }

  lemma {:induction false} SumMonotone<T>(s: seq<T>, f: T -> int, g: T -> int)
    requires forall i :: 0 <= i < |s| ==> f(s[i]) <= g(s[i])
    ensures Sum(s, f) <= Sum(s, g)
  {
    if s != [] {
      SumMonotone(s[..|s| - 1], f, g);
    }
  }

  /** A sum of non-negative weights is at least any one of them. */
  lemma {:induction false} SumAtLeastElement<T>(s: seq<T>, f: T -> int, k: nat)
    requires forall i :: 0 <= i < |s| ==> f(s[i]) >= 0
    requires k < |s|
    ensures Sum(s, f) >= f(s[k])
  {
    var init := s[..|s| - 1];
    if k == |s| - 1 {
      SumNonNegative(init, f);
    } else {
      SumAtLeastElement(init, f, k);
    }
  }

  /** Two sequences with the same multiset have the same members. */
  lemma SameMembers<T>(r: seq<T>, s: seq<T>)
    requires multiset(r) == multiset(s)
    ensures forall i :: 0 <= i < |r| ==> r[i] in s
    ensures forall i :: 0 <= i < |s| ==> s[i] in r
  {
    forall i | 0 <= i < |r| ensures r[i] in s {
      assert r[i] in multiset(s);
    }
    forall i | 0 <= i < |s| ensures s[i] in r {
      assert s[i] in multiset(r);
    }
  }

  lemma {:induction false} FilterAllKept<T>(s: seq<T>, p: T -> bool)
    requires forall i :: 0 <= i < |s| ==> p(s[i])
    ensures Filter(s, p) == s
  {
    if s != [] {
      var init := s[..|s| - 1];
      KeptPrefix(s, init, p);
      FilterAllKept(init, p);
      LastSplit(s);
    }
  }

  /** Filtering keeps every occurrence of a kept value and none of a dropped one. */
  lemma {:induction false} FilterMultiplicity<T>(s: seq<T>, p: T -> bool, x: T)
    ensures multiset(Filter(s, p))[x] == if p(x) then multiset(s)[x] else 0
  {
    if s != [] {
      var init, y := s[..|s| - 1], s[|s| - 1];
      FilterMultiplicity(init, p, x);
      LastSplit(s);
      assert multiset(s) == multiset(init) + multiset{y};
    }
  }

  /** Filtering twice is filtering once by both tests. */
  lemma {:induction false} FilterFilter<T>(s: seq<T>, p: T -> bool, q: T -> bool, pq: T -> bool)
    requires forall x :: pq(x) == (p(x) && q(x))
    ensures Filter(Filter(s, p), q) == Filter(s, pq)
  {
    if s != [] {
      var init, x := s[..|s| - 1], s[|s| - 1];
      FilterFilter(init, p, q, pq);
      FilterAppend(Filter(init, p), if p(x) then [x] else [], q);
    }
  }

  lemma KeptPrefix<T>(s: seq<T>, init: seq<T>, p: T -> bool)
    requires s != [] && init == s[..|s| - 1] && forall i :: 0 <= i < |s| ==> p(s[i])
    ensures forall i :: 0 <= i < |init| ==> p(init[i])
    ensures p(s[|s| - 1])
  {
  }

  lemma PrefixSnoc<T>(s: seq<T>, i: nat)
    requires i < |s|
    ensures s[..i + 1] == s[..i] + [s[i]]
  {
  }

  lemma PrefixAll<T>(s: seq<T>)
    ensures s[..|s|] == s
  {
  }

  lemma LastSplit<T>(s: seq<T>)
    requires s != []
    ensures s[..|s| - 1] + [s[|s| - 1]] == s
  {
  }

  /** Extending a prefix by one element adds that element's vote to the count. */
  lemma CountPrefixStep<T>(s: seq<T>, i: nat, p: T -> bool)
    requires i < |s|
    ensures Count(s[..i + 1], p) == Count(s[..i], p) + (if p(s[i]) then 1 else 0)
  {
    assert s[..i + 1][..i] == s[..i];
  }

  lemma {:induction false} CountNone<T>(s: seq<T>, p: T -> bool)
    requires forall i :: 0 <= i < |s| ==> !p(s[i])
    ensures Count(s, p) == 0
  {
    if s != [] {
      CountNone(s[..|s| - 1], p);
    }
  }

  // ---------------------------------------------------------------------
  // Grouped sums: summing a weight per distinct key, then over the keys,
  // accounts for every element exactly once.
  // ---------------------------------------------------------------------

  /** Sum of w over the elements whose key is k. */
  function SumWhere<T, K(==)>(s: seq<T>, key: T -> K, k: K, w: T -> int): int
  {
    if s == [] then 0
    else SumWhere(s[..|s|-1], key, k, w) + (if key(s[|s|-1]) == k then w(s[|s|-1]) else 0)
  }

  /** The per-key sum is the sum over the elements carrying the key. */
  lemma {:induction false} SumWhereIsFilteredSum<T, K>(s: seq<T>, key: T -> K, k: K, w: T -> int, p: T -> bool)
    requires forall x :: p(x) == (key(x) == k)
    ensures Sum(Filter(s, p), w) == SumWhere(s, key, k, w)
  {
    if s != [] {
      var init, x := s[..|s| - 1], s[|s| - 1];
      SumWhereIsFilteredSum(init, key, k, w, p);
      SumAppend(Filter(init, p), if p(x) then [x] else [], w);
    }
  }

  /** Sum over the keys ks of the per-key sums. */
  function SumOverKeys<T, K(==)>(ks: seq<K>, s: seq<T>, key: T -> K, w: T -> int): int
  {
    if ks == [] then 0
    else SumOverKeys(ks[..|ks|-1], s, key, w) + SumWhere(s, key, ks[|ks|-1], w)
  }

  lemma {:induction false} SumWhereAbsent<T, K>(s: seq<T>, key: T -> K, k: K, w: T -> int)
    requires forall i :: 0 <= i < |s| ==> key(s[i]) != k
    ensures SumWhere(s, key, k, w) == 0
  {
    if s != [] { SumWhereAbsent(s[..|s|-1], key, k, w); }
  }

  lemma {:induction false} SumOverKeysStep<T, K>(ks: seq<K>, s: seq<T>, x: T, key: T -> K, w: T -> int)
    requires NoDuplicates(ks)
    ensures SumOverKeys(ks, s + [x], key, w)
         == SumOverKeys(ks, s, key, w) + (if key(x) in ks then w(x) else 0)
  {
    if ks != [] {
      var init := ks[..|ks|-1];
      assert (s + [x])[..|s + [x]| - 1] == s;
      assert NoDuplicates(init);
      SumOverKeysStep(init, s, x, key, w);
      assert key(x) in ks <==> key(x) in init || key(x) == ks[|ks|-1];
      assert key(x) == ks[|ks|-1] ==> key(x) !in init;
    }
  }

  /** The sum of the per-key sums over the distinct keys is the total sum. */
  lemma {:induction false} GroupedSumIsTotal<T, K>(s: seq<T>, key: T -> K, w: T -> int)
    ensures SumOverKeys(Distinct(MapSeq(s, key)), s, key, w) == Sum(s, w)
  {
    if s != [] {
      GroupedSumIsTotal(s[..|s|-1], key, w);
      GroupedSumLast(s, key, w);
    }
  }

  /** The last element adds its weight to the grouped sum. */
  lemma GroupedSumLast<T, K>(s: seq<T>, key: T -> K, w: T -> int)
    requires s != []
    ensures SumOverKeys(Distinct(MapSeq(s, key)), s, key, w)
         == SumOverKeys(Distinct(MapSeq(s[..|s|-1], key)), s[..|s|-1], key, w) + w(s[|s|-1])
  {
    var p, x := s[..|s|-1], s[|s|-1];
    var d := Distinct(MapSeq(p, key));
    DistinctOfMapLast(s, key);
    SumOverKeysLast(d, s, key, w);
    if key(x) !in d {
      SumOverKeysLast(d + [key(x)], s, key, w);
      assert (d + [key(x)])[..|d|] == d;
      SumWhereNewKey(p, key, key(x), w);
    }
  }

  lemma DistinctOfMapLast<T, K>(s: seq<T>, key: T -> K)
    requires s != []
    ensures var d := Distinct(MapSeq(s[..|s|-1], key));
            Distinct(MapSeq(s, key)) == if key(s[|s|-1]) in d then d else d + [key(s[|s|-1])]
  {
    assert MapSeq(s, key)[..|s|-1] == MapSeq(s[..|s|-1], key);
  }

  lemma SumOverKeysLast<T, K>(ks: seq<K>, s: seq<T>, key: T -> K, w: T -> int)
    requires s != [] && NoDuplicates(ks)
    ensures SumOverKeys(ks, s, key, w)
         == SumOverKeys(ks, s[..|s|-1], key, w) + (if key(s[|s|-1]) in ks then w(s[|s|-1]) else 0)
  {
    assert s == s[..|s|-1] + [s[|s|-1]];
    SumOverKeysStep(ks, s[..|s|-1], s[|s|-1], key, w);
  }

  lemma SumWhereNewKey<T, K>(p: seq<T>, key: T -> K, k: K, w: T -> int)
    requires k !in Distinct(MapSeq(p, key))
    ensures SumWhere(p, key, k, w) == 0
  {
    forall i | 0 <= i < |p| ensures key(p[i]) != k {
      assert MapSeq(p, key)[i] == key(p[i]);
    }
    SumWhereAbsent(p, key, k, w);
  }

  // ---------------------------------------------------------------------
  // A stable sort by a two-level integer key (what Array.prototype.sort
  // does with a consistent comparator since ES2019).
  // ---------------------------------------------------------------------

  datatype Key = Key(major: int, minor: int)

  predicate KeyLe(a: Key, b: Key)
  {
    a.major < b.major || (a.major == b.major && a.minor <= b.minor)
  }

  predicate SortedByKey<T>(s: seq<T>, key: T -> Key)
  {
    forall i, j :: 0 <= i < j < |s| ==> KeyLe(key(s[i]), key(s[j]))
  }

  /** Insert x after every element of r whose key is not greater. */
  function InsertByKey<T>(r: seq<T>, x: T, key: T -> Key): (o: seq<T>)
    ensures multiset(o) == multiset(r) + multiset{x}
    ensures |o| == |r| + 1
  {
    if r == [] then [x]
    else if KeyLe(key(r[|r|-1]), key(x)) then r + [x]
    else
      assert r == r[..|r|-1] + [r[|r|-1]];
      InsertByKey(r[..|r|-1], x, key) + [r[|r|-1]]
  }

  function SortByKey<T>(s: seq<T>, key: T -> Key): (o: seq<T>)
    ensures multiset(o) == multiset(s)
    ensures |o| == |s|
  {
    if s == [] then []
    else
      assert s == s[..|s|-1] + [s[|s|-1]];
      InsertByKey(SortByKey(s[..|s|-1], key), s[|s|-1], key)
  }

  lemma SortedSnoc<T>(r: seq<T>, x: T, key: T -> Key)
    requires SortedByKey(r, key)
    requires forall k :: 0 <= k < |r| ==> KeyLe(key(r[k]), key(x))
    ensures SortedByKey(r + [x], key)
  {
  }

  lemma {:induction false} InsertByKeySorted<T>(r: seq<T>, x: T, key: T -> Key)
    requires SortedByKey(r, key)
    ensures SortedByKey(InsertByKey(r, x, key), key)
  {
    if r == [] {
    } else {
      var init, last := r[..|r|-1], r[|r|-1];
      if KeyLe(key(last), key(x)) {
        forall k | 0 <= k < |r| ensures KeyLe(key(r[k]), key(x)) {
          if k < |r| - 1 { assert KeyLe(key(r[k]), key(last)); }
        }
        SortedSnoc(r, x, key);
      } else {
        assert SortedByKey(init, key);
        InsertByKeySorted(init, x, key);
        var o := InsertByKey(init, x, key);
        forall k | 0 <= k < |o| ensures KeyLe(key(o[k]), key(last)) {
          assert o[k] in multiset(o);
          if o[k] != x {
            assert o[k] in multiset(init);
            var i :| 0 <= i < |init| && init[i] == o[k];
            assert r[i] == init[i];
          }
        }
        SortedSnoc(o, last, key);
      }
    }
  }

  /** The sort returns its input's elements ordered by key. */
  lemma {:induction false} SortByKeySorted<T>(s: seq<T>, key: T -> Key)
    ensures SortedByKey(SortByKey(s, key), key)
  {
    if s != [] {
      SortByKeySorted(s[..|s|-1], key);
      InsertByKeySorted(SortByKey(s[..|s|-1], key), s[|s|-1], key);
    }
  }

  // ---------------------------------------------------------------------
  // Strings.
  // ---------------------------------------------------------------------

  /** The characters JavaScript's trim removes and its regexp `\s` matches. */
  predicate IsJsSpace(c: char)
  {
    c == ' ' || c == '\t' || c == '\n' || c == '\r' || c == '\U{000B}' || c == '\U{000C}'
    || c == '\U{00A0}' || c == '\U{1680}' || ('\U{2000}' <= c <= '\U{200A}')
    || c == '\U{2028}' || c == '\U{2029}' || c == '\U{202F}' || c == '\U{205F}'
    || c == '\U{3000}' || c == '\U{FEFF}'
  }

  function TrimStart(s: string): (r: string)
    ensures r == [] || !IsJsSpace(r[0])
    ensures |r| <= |s| && r == s[|s| - |r|..]
  {
    if s != [] && IsJsSpace(s[0]) then TrimStart(s[1..]) else s
  }

  function TrimEnd(s: string): (r: string)
    ensures r == [] || !IsJsSpace(r[|r|-1])
    ensures |r| <= |s| && r == s[..|r|]
  {
    if s != [] && IsJsSpace(s[|s|-1]) then TrimEnd(s[..|s|-1]) else s
  }

  /** String.prototype.trim. */
  function Trim(s: string): string
  {
    TrimEnd(TrimStart(s))
  }

  predicate IsBlank(s: string)
  {
    forall i :: 0 <= i < |s| ==> IsJsSpace(s[i])
  }

  lemma {:induction false} TrimStartBlank(s: string)
    ensures TrimStart(s) == [] <==> IsBlank(s)
  {
    if s != [] {
      BlankCons(s);
      if IsJsSpace(s[0]) {
        TrimStartBlank(s[1..]);
      }
    }
  }

  lemma BlankCons(s: string)
    requires s != []
    ensures IsBlank(s) <==> IsJsSpace(s[0]) && IsBlank(s[1..])
  {
    if IsJsSpace(s[0]) && IsBlank(s[1..]) {
      forall i | 0 <= i < |s| ensures IsJsSpace(s[i]) {
        if i > 0 { assert s[i] == s[1..][i-1]; }
      }
    }
  }

  /** `s.trim() === ''` exactly when every character is white space. */
  lemma TrimEmptyIffBlank(s: string)
    ensures Trim(s) == [] <==> IsBlank(s)
  {
    TrimStartBlank(s);
    var t := TrimStart(s);
    if t != [] {
      assert TrimEnd(t) != [] by {
        var e := TrimEnd(t);
        if e == [] {
          assert !IsJsSpace(t[0]);
          TrimEndKeepsNonSpace(t);
        }
      }
    }
  }

  lemma {:induction false} TrimEndKeepsNonSpace(t: string)
    requires t != [] && !IsJsSpace(t[0])
    ensures TrimEnd(t) != []
  {
    if IsJsSpace(t[|t|-1]) {
      assert |t| > 1;
      TrimEndKeepsNonSpace(t[..|t|-1]);
    }
  }

  lemma MiddleOf<T>(a: seq<T>, b: seq<T>, c: seq<T>)
    ensures (a + b + c)[|a|..|a + b + c| - |c|] == b
  {
  }

  predicate StartsWith(s: string, prefix: string)
  {
    |prefix| <= |s| && s[..|prefix|] == prefix
  }

  predicate OccursAt(s: string, sub: string, i: int)
  {
    0 <= i <= |s| - |sub| && s[i..i + |sub|] == sub
  }

  /** String.prototype.includes. */
  predicate Contains(s: string, sub: string)
  {
    exists i :: 0 <= i <= |s| - |sub| && OccursAt(s, sub, i)
  }

  function LowerChar(c: char): char
  {
    if 'A' <= c <= 'Z' then (c as int + 32) as char else c
  }

  function UpperChar(c: char): char
  {
    if 'a' <= c <= 'z' then (c as int - 32) as char else c
  }

  function Lower(s: string): (r: string)
    ensures |r| == |s| && forall i :: 0 <= i < |s| ==> r[i] == LowerChar(s[i])
  {
    seq(|s|, i requires 0 <= i < |s| => LowerChar(s[i]))
  }

  function Upper(s: string): (r: string)
    ensures |r| == |s| && forall i :: 0 <= i < |s| ==> r[i] == UpperChar(s[i])
  {
    seq(|s|, i requires 0 <= i < |s| => UpperChar(s[i]))
  }

  /** Index of the first occurrence of c at or after `from`, if any. */
  function IndexOfFrom(s: string, c: char, from: nat): (r: Option<nat>)
    decreases |s| - from
    ensures r.Some? ==> from <= r.value < |s| && s[r.value] == c
    ensures r.Some? ==> forall k :: from <= k < r.value ==> s[k] != c
    ensures r.None? ==> forall k :: from <= k < |s| ==> s[k] != c
  {
    if from >= |s| then None
    else if s[from] == c then Some(from)
    else IndexOfFrom(s, c, from + 1)
  }

  /** The first occurrence of c is found from the start. */
  lemma FirstIndexOf(s: string, c: char, k: nat)
    requires k < |s| && s[k] == c
    requires forall j :: 0 <= j < k ==> s[j] != c
    ensures IndexOfFrom(s, c, 0) == Some(k)
  {
  }

  /** String.prototype.split with a one-character separator. */
  function Split(s: string, sep: char): (r: seq<string>)
    ensures |r| >= 1
    ensures forall i :: 0 <= i < |r| ==> sep !in r[i]
  {
    match IndexOfFrom(s, sep, 0)
    case None => [s]
    case Some(k) =>
      assert forall j :: 0 <= j < k ==> s[..k][j] == s[j];
      [s[..k]] + Split(s[k+1..], sep)
  }

  /** Array.prototype.join. */
  function Join(parts: seq<string>, sep: char): string
  {
    if parts == [] then ""
    else if |parts| == 1 then parts[0]
    else parts[0] + [sep] + Join(parts[1..], sep)
  }

  /** Splitting and joining again gives back the string. */
  lemma {:induction false} JoinSplit(s: string, sep: char)
    ensures Join(Split(s, sep), sep) == s
    decreases |s|
  {
    match IndexOfFrom(s, sep, 0)
    case None =>
    case Some(k) =>
      JoinSplit(s[k+1..], sep);
      AroundIndex(s, k);
  }

  lemma AroundIndex<T>(s: seq<T>, k: nat)
    requires k < |s|
    ensures s == s[..k] + [s[k]] + s[k+1..]
  {
  }

  // ---------------------------------------------------------------------
  // Numbers as strings.
  // ---------------------------------------------------------------------

  predicate IsDigit(c: char) { '0' <= c <= '9' }

  function DigitChar(d: nat): char
    requires d < 10
  {
    ('0' as int + d) as char
  }

  /** String(n) for a non-negative integer. */
  function NatToStr(n: nat): (r: string)
    ensures |r| >= 1
    ensures forall i :: 0 <= i < |r| ==> IsDigit(r[i])
    ensures n >= 10 ==> |r| >= 2
    ensures n < 10 ==> |r| == 1
  {
    if n < 10 then [DigitChar(n)] else NatToStr(n / 10) + [DigitChar(n % 10)]
  }

  /** String(i) for an integer. */
  function IntToStr(i: int): string
  {
    if i < 0 then "-" + NatToStr(-i) else NatToStr(i)
  }

  /** Value of a run of decimal digits. */
  function DigitsValue(s: string): nat
    requires forall i :: 0 <= i < |s| ==> IsDigit(s[i])
  {
    if s == [] then 0
    else
      assert IsDigit(s[|s|-1]);
      DigitsValue(s[..|s|-1]) * 10 + (s[|s|-1] as int - '0' as int)
  }

  lemma {:induction false} DigitsOfNatToStr(n: nat)
    ensures DigitsValue(NatToStr(n)) == n
  {
    if n >= 10 {
      DigitsOfNatToStr(n / 10);
      var s := NatToStr(n);
      assert s[..|s|-1] == NatToStr(n / 10);
    }
  }

  /** `String(n).padStart(2, '0')`. */
  function Pad2(n: nat): (r: string)
    ensures |r| >= 2
    ensures forall i :: 0 <= i < |r| ==> IsDigit(r[i])
    ensures DigitsValue(r) == n
  {
    DigitsOfNatToStr(n);
    if n < 10 then
      assert DigitsValue("0" + NatToStr(n)) == n by {
        assert ("0" + NatToStr(n))[..1] == "0";
      }
      "0" + NatToStr(n)
    else NatToStr(n)
  }

  /** Length of the longest prefix of s made of decimal digits. */
  function DigitRun(s: string): (n: nat)
    ensures n <= |s|
    ensures forall i :: 0 <= i < n ==> IsDigit(s[i])
    ensures n < |s| ==> !IsDigit(s[n])
  {
    if s == [] || !IsDigit(s[0]) then 0 else 1 + DigitRun(s[1..])
  }

  predicate IsHexDigit(c: char)
  {
    IsDigit(c) || ('a' <= c <= 'f') || ('A' <= c <= 'F')
  }

  function HexValue(c: char): nat
    requires IsHexDigit(c)
  {
    if IsDigit(c) then c as int - '0' as int
    else if 'a' <= c <= 'f' then c as int - 'a' as int + 10
    else c as int - 'A' as int + 10
  }

  function HexRun(s: string): (n: nat)
    ensures n <= |s| && forall i :: 0 <= i < n ==> IsHexDigit(s[i])
  {
    if s == [] || !IsHexDigit(s[0]) then 0 else 1 + HexRun(s[1..])
  }

  function HexDigitsValue(s: string): nat
    requires forall i :: 0 <= i < |s| ==> IsHexDigit(s[i])
  {
    if s == [] then 0 else HexDigitsValue(s[..|s|-1]) * 16 + HexValue(s[|s|-1])
  }

  /**
   * Global parseInt: leading white space is skipped, one sign is read, and
   * the longest digit prefix is converted; `None` stands for NaN. With
   * allowHex (no radix argument) a `0x`/`0X` prefix switches to base 16;
   * parseInt(s, 10) passes false.
   */
  function ParseInt(s: string, allowHex: bool): Option<int>
  {
    ParseSigned(TrimStart(s), allowHex)
  }

  /** One optional sign, then ParseUnsigned. */
  function ParseSigned(t: string, allowHex: bool): Option<int>
  {
    var neg := t != [] && t[0] == '-';
    var u := if t != [] && (t[0] == '-' || t[0] == '+') then t[1..] else t;
    match ParseUnsigned(u, allowHex)
    case None => None
    case Some(v) => Some(if neg then 0 - v else v as int)
  }

  /** The digits after the sign: decimal, or hexadecimal after `0x`. */
  function ParseUnsigned(u: string, allowHex: bool): Option<nat>
  {
    if allowHex && |u| >= 2 && u[0] == '0' && (u[1] == 'x' || u[1] == 'X') then
      var h := u[2..];
      var n := HexRun(h);
      if n == 0 then None else Some(HexDigitsValue(h[..n]))
    else
      var n := DigitRun(u);
      if n == 0 then None else Some(DigitsValue(u[..n]))
  }

  lemma ParseUnsignedOfDigits(d: string, allowHex: bool)
    requires d != [] && forall i :: 0 <= i < |d| ==> IsDigit(d[i])
    ensures ParseUnsigned(d, allowHex) == Some(DigitsValue(d))
  {
    DigitRunAll(d);
    assert d[..|d|] == d;
    assert |d| >= 2 ==> IsDigit(d[1]);
  }

  lemma TrimStartKeeps(s: string)
    requires s != [] && !IsJsSpace(s[0])
    ensures TrimStart(s) == s
  {
  }

  lemma ParseSignedPlain(t: string, allowHex: bool)
    requires t != [] && t[0] != '-' && t[0] != '+'
    ensures ParseSigned(t, allowHex)
         == match ParseUnsigned(t, allowHex) case None => None case Some(v) => Some(v as int)
  {
  }

  lemma ParseSignedMinus(t: string, allowHex: bool, v: nat)
    requires t != [] && t[0] == '-'
    requires ParseUnsigned(t[1..], allowHex) == Some(v)
    ensures ParseSigned(t, allowHex) == Some(0 - v)
  {
  }

  lemma ParseIntOfDigits(d: string, allowHex: bool)
    requires d != [] && forall i :: 0 <= i < |d| ==> IsDigit(d[i])
    ensures ParseInt(d, allowHex) == Some(DigitsValue(d) as int)
  {
    assert IsDigit(d[0]);
    TrimStartKeeps(d);
    ParseSignedPlain(d, allowHex);
    ParseUnsignedOfDigits(d, allowHex);
  }

  /** A leading minus sign negates what the rest reads as. */
  lemma ParseIntOfMinus(u: string, allowHex: bool, v: nat)
    requires ParseUnsigned(u, allowHex) == Some(v)
    ensures ParseInt("-" + u, allowHex) == Some(0 - v)
  {
    var t := "-" + u;
    assert t[0] == '-';
    TrimStartKeeps(t);
    assert t[1..] == u;
    ParseSignedMinus(t, allowHex, v);
  }

  lemma ParseUnsignedOfNatToStr(n: nat, allowHex: bool)
    ensures ParseUnsigned(NatToStr(n), allowHex) == Some(n)
  {
    DigitsOfNatToStr(n);
    ParseUnsignedOfDigits(NatToStr(n), allowHex);
  }

  lemma ParseIntOfIntToStr(i: int, allowHex: bool)
    ensures ParseInt(IntToStr(i), allowHex) == Some(i)
  {
    if i < 0 {
      ParseIntOfNegative(i, allowHex);
    } else {
      ParseIntOfNonNegative(i, allowHex);
    }
  }

  lemma ParseIntOfNegative(i: int, allowHex: bool)
    requires i < 0
    ensures ParseInt(IntToStr(i), allowHex) == Some(i)
  {
    var d := NatToStr(-i);
    assert IntToStr(i) == "-" + d;
    ParseUnsignedOfNatToStr(-i, allowHex);
    ParseIntOfMinus(d, allowHex, -i);
  }

  lemma ParseIntOfNonNegative(i: int, allowHex: bool)
    requires i >= 0
    ensures ParseInt(IntToStr(i), allowHex) == Some(i)
  {
    var d := NatToStr(i);
    assert IntToStr(i) == d;
    DigitsOfNatToStr(i);
    ParseIntOfDigits(d, allowHex);
  }

  lemma {:induction false} DigitRunAll(s: string)
    requires forall i :: 0 <= i < |s| ==> IsDigit(s[i])
    ensures DigitRun(s) == |s|
  {
    if s != [] { DigitRunAll(s[1..]); }
  }

  /** String.prototype.repeat. */
  function Repeat(s: string, n: nat): (r: string)
    ensures |r| == n * |s|
  {
    if n == 0 then "" else s + Repeat(s, n - 1)
  }
}
