/**
 * List operations shared by the CRM's handlers: filtering, counting,
 * summing, the add-or-remove toggle used by every chip and checkbox list,
 * and the stable sort JavaScript's `Array.prototype.sort` performs.
 */
module Lists {

  // ------------------------------------------------------------ filtering

  /** `xs.filter(f)`. */
  function Filter<T>(xs: seq<T>, f: T -> bool): (r: seq<T>)
    ensures |r| <= |xs|
    ensures forall i :: 0 <= i < |r| ==> f(r[i])
  {
    if xs == [] then [] else (if f(xs[0]) then [xs[0]] else []) + Filter(xs[1..], f)
  }

  /** Everything a filter keeps comes from its input. */
  lemma {:induction false} FilterKeeps<T>(xs: seq<T>, f: T -> bool)
    ensures forall i :: 0 <= i < |Filter(xs, f)| ==> Filter(xs, f)[i] in xs
  {
    if xs != [] {
      FilterKeeps(xs[1..], f);
      var r := Filter(xs, f);
      var rest := Filter(xs[1..], f);
      forall i | 0 <= i < |r| ensures r[i] in xs {
        if !f(xs[0]) {
          assert r[i] == rest[i];
          assert rest[i] in xs[1..];
        } else if i > 0 {
          assert r[i] == rest[i - 1];
          assert rest[i - 1] in xs[1..];
        }
      }
    }
  }

  /** Nothing that passes is left out. */
  lemma {:induction false} FilterComplete<T>(xs: seq<T>, f: T -> bool)
    ensures forall i :: 0 <= i < |xs| && f(xs[i]) ==> xs[i] in Filter(xs, f)
  {
    if xs != [] {
      FilterComplete(xs[1..], f);
      forall i | 0 <= i < |xs| && f(xs[i]) ensures xs[i] in Filter(xs, f) {
        if i > 0 {
          assert xs[i] == xs[1..][i - 1];
        }
      }
    }
  }

  lemma FilterStep<T>(xs: seq<T>, f: T -> bool)
    requires xs != []
    ensures Filter(xs, f) == (if f(xs[0]) then [xs[0]] else []) + Filter(xs[1..], f)
  {
  }

  /** One filtering step: the head, if it passes, then the filtered rest. */
  lemma FilterCons<T>(x: T, rest: seq<T>, f: T -> bool)
    ensures Filter([x] + rest, f) == (if f(x) then [x] else []) + Filter(rest, f)
  {
    assert ([x] + rest)[1..] == rest;
  }

  lemma AppendAssoc<T>(a: seq<T>, b: seq<T>, c: seq<T>)
    ensures a + (b + c) == (a + b) + c
  {
  }

  /** Filtering distributes over concatenation, which is what keeps the input order. */
  lemma {:induction false} FilterAppend<T>(a: seq<T>, b: seq<T>, f: T -> bool)
    ensures Filter(a + b, f) == Filter(a, f) + Filter(b, f)
  {
    if a == [] {
      assert a + b == b;
    } else {
      assert (a + b)[1..] == a[1..] + b;
      FilterAppend(a[1..], b, f);
    }
  }

  lemma FilterAll<T>(xs: seq<T>, f: T -> bool)
    requires forall x :: x in xs ==> f(x)
    ensures Filter(xs, f) == xs
  {
  }

  lemma FilterNone<T>(xs: seq<T>, f: T -> bool)
    requires forall x :: x in xs ==> !f(x)
    ensures Filter(xs, f) == []
  {
  }

  /** Two tests that agree on every element select the same elements. */
  lemma {:induction false} FilterCongruent<T>(xs: seq<T>, f: T -> bool, g: T -> bool)
    requires forall i :: 0 <= i < |xs| ==> f(xs[i]) == g(xs[i])
    ensures Filter(xs, f) == Filter(xs, g)
  {
    if xs != [] {
      FilterCongruent(xs[1..], f, g);
    }
  }

  /** `r` is `xs` with some elements left out and the rest in their order. */
  ghost predicate SubseqOf<T>(r: seq<T>, xs: seq<T>)
    decreases |xs|
  {
    if r == [] then true
    else if xs == [] then false
    else if r[0] == xs[0] then SubseqOf(r[1..], xs[1..])
    else SubseqOf(r, xs[1..])
  }

  lemma {:induction false} SubseqTail<T>(r: seq<T>, xs: seq<T>)
    requires r != [] && SubseqOf(r, xs)
    ensures SubseqOf(r[1..], xs)
    decreases |xs|, 1
  {
    if r[0] != xs[0] {
      SubseqTail(r, xs[1..]);
    }
    SubseqSkip(r[1..], xs);
  }

  /** Dropping the first element of `xs` only ever loses a matching place. */
  lemma {:induction false} SubseqSkip<T>(r: seq<T>, xs: seq<T>)
    requires xs != [] && SubseqOf(r, xs[1..])
    ensures SubseqOf(r, xs)
    decreases |xs|, 0
  {
    if r != [] && r[0] == xs[0] {
      SubseqTail(r, xs[1..]);
    }
  }

  /** A filter keeps the order of what it keeps. */
  lemma {:induction false} FilterSubseq<T>(xs: seq<T>, f: T -> bool)
    ensures SubseqOf(Filter(xs, f), xs)
  {
    if xs != [] {
      FilterSubseq(xs[1..], f);
      var r := Filter(xs, f);
      if f(xs[0]) {
        assert r[1..] == Filter(xs[1..], f);
      } else {
        assert r == Filter(xs[1..], f);
        SubseqSkip(r, xs);
      }
    }
  }

  /** `xs.filter(f).length`. */
  function Count<T>(xs: seq<T>, f: T -> bool): (n: nat)
    ensures n <= |xs|
  {
    |Filter(xs, f)|
  }

  /** Every element either passes a test or fails it. */
  lemma {:induction false} CountComplement<T>(xs: seq<T>, f: T -> bool, g: T -> bool)
    requires forall i :: 0 <= i < |xs| ==> (g(xs[i]) <==> !f(xs[i]))
    ensures Count(xs, f) + Count(xs, g) == |xs|
  {
    if xs != [] {
      CountComplement(xs[1..], f, g);
    }
  }

  /** A stricter test never counts more. */
  lemma {:induction false} CountImplies<T>(xs: seq<T>, f: T -> bool, g: T -> bool)
    requires forall i :: 0 <= i < |xs| ==> f(xs[i]) ==> g(xs[i])
    ensures Count(xs, f) <= Count(xs, g)
  {
    if xs != [] {
      CountImplies(xs[1..], f, g);
    }
  }

  /** Two tests no element passes together count at most the whole list. */
  lemma {:induction false} CountDisjoint<T>(xs: seq<T>, f: T -> bool, g: T -> bool)
    requires forall i :: 0 <= i < |xs| ==> !(f(xs[i]) && g(xs[i]))
    ensures Count(xs, f) + Count(xs, g) <= |xs|
  {
    if xs != [] {
      CountDisjoint(xs[1..], f, g);
    }
  }

  /** `xs.reduce((acc, x) => acc + g(x), 0)`. */
  function Sum<T>(xs: seq<T>, g: T -> real): (r: real)
  {
    if xs == [] then 0.0 else g(xs[0]) + Sum(xs[1..], g)
  }

  lemma {:induction false} SumAppend<T>(a: seq<T>, b: seq<T>, g: T -> real)
    ensures Sum(a + b, g) == Sum(a, g) + Sum(b, g)
  {
    if a == [] {
      assert a + b == b;
    } else {
      assert (a + b)[1..] == a[1..] + b;
      SumAppend(a[1..], b, g);
    }
  }

  lemma {:induction false} SumNonNegative<T>(xs: seq<T>, g: T -> real)
    requires forall x :: x in xs ==> g(x) >= 0.0
    ensures Sum(xs, g) >= 0.0
  {
    if xs != [] {
      SumNonNegative(xs[1..], g);
    }
  }

  /** `xs.map(g)`. */
  function Map<T, U>(xs: seq<T>, g: T -> U): (r: seq<U>)
    ensures |r| == |xs| && forall i :: 0 <= i < |xs| ==> r[i] == g(xs[i])
  {
    seq(|xs|, i requires 0 <= i < |xs| => g(xs[i]))
  }

  // --------------------------------------------------------------- toggle

  /** `xs.filter(y => y !== x)`. */
  function Remove<T(==)>(xs: seq<T>, x: T): (r: seq<T>)
    ensures forall i :: 0 <= i < |r| ==> r[i] in xs && r[i] != x
    ensures forall i :: 0 <= i < |xs| && xs[i] != x ==> xs[i] in r
    ensures x !in xs ==> r == xs
  {
    if xs == [] then [] else (if xs[0] == x then [] else [xs[0]]) + Remove(xs[1..], x)
  }

  /** `xs.includes(x) ? xs.filter(y => y !== x) : [...xs, x]`. */
  function Toggle<T(==)>(xs: seq<T>, x: T): (r: seq<T>)
    ensures x in r <==> x !in xs
    ensures forall i :: 0 <= i < |r| && r[i] != x ==> r[i] in xs
    ensures forall i :: 0 <= i < |xs| && xs[i] != x ==> xs[i] in r
    ensures x !in xs ==> r == xs + [x]
  {
    if x in xs then Remove(xs, x) else xs + [x]
  }

  lemma {:induction false} RemoveLast<T>(xs: seq<T>, x: T)
    requires x !in xs
    ensures Remove(xs + [x], x) == xs
  {
    if xs == [] {
      assert [x][1..] == [];
    } else {
      assert (xs + [x])[1..] == xs[1..] + [x];
      RemoveLast(xs[1..], x);
    }
  }

  /** Toggling a value that was absent, twice, gives back the list exactly. */
  lemma ToggleTwice<T>(xs: seq<T>, x: T)
    requires x !in xs
    ensures Toggle(Toggle(xs, x), x) == xs
  {
    RemoveLast(xs, x);
  }

  // ----------------------------------------------------------- stable sort

  /** Keys compared lexicographically, as comparators returning "first, then second" do. */
  predicate KeyLess(a: (int, int), b: (int, int)) {
    a.0 < b.0 || (a.0 == b.0 && a.1 < b.1)
  }

  ghost predicate SortedBy<T>(s: seq<T>, key: T -> (int, int)) {
    forall i, j :: 0 <= i < j < |s| ==> !KeyLess(key(s[j]), key(s[i]))
  }

  /** Inserts `x` after every element whose key is not greater than its own. */
  function InsertBy<T>(x: T, s: seq<T>, key: T -> (int, int)): (r: seq<T>)
    ensures |r| == |s| + 1
    ensures multiset(r) == multiset(s) + multiset{x}
  {
    if s == [] then [x]
    else if KeyLess(key(x), key(s[0])) then [x] + s
    else
      assert s == [s[0]] + s[1..];
      [s[0]] + InsertBy(x, s[1..], key)
  }

  /** The list sorted by `key`, equal keys in their original order. */
  function SortBy<T>(xs: seq<T>, key: T -> (int, int)): (r: seq<T>)
    ensures |r| == |xs|
    ensures multiset(r) == multiset(xs)
  {
    if xs == [] then []
    else
      assert xs == xs[..|xs| - 1] + [xs[|xs| - 1]];
      InsertBy(xs[|xs| - 1], SortBy(xs[..|xs| - 1], key), key)
  }

  lemma {:induction false} InsertBySorted<T>(x: T, s: seq<T>, key: T -> (int, int))
    requires SortedBy(s, key)
    ensures SortedBy(InsertBy(x, s, key), key)
  {
    var r := InsertBy(x, s, key);
    if s != [] && !KeyLess(key(x), key(s[0])) {
      InsertBySorted(x, s[1..], key);
      var t := InsertBy(x, s[1..], key);
      forall i, j | 0 <= i < j < |r| ensures !KeyLess(key(r[j]), key(r[i])) {
        if i == 0 {
          assert r[j] in multiset(t);
          if r[j] != x {
            assert r[j] in multiset(s[1..]);
            var m :| 0 <= m < |s[1..]| && s[1..][m] == r[j];
            assert s[m + 1] == r[j];
          }
        }
      }
    }
  }

  /** The result of `SortBy` is ordered by key. */
  lemma {:induction false} SortBySorted<T>(xs: seq<T>, key: T -> (int, int))
    ensures SortedBy(SortBy(xs, key), key)
  {
    if xs != [] {
      SortBySorted(xs[..|xs| - 1], key);
      InsertBySorted(xs[|xs| - 1], SortBy(xs[..|xs| - 1], key), key);
    }
  }

  function HasKey<T>(key: T -> (int, int), k: (int, int)): T -> bool {
    y => key(y) == k
  }

  lemma {:induction false} FilterInsertBy<T>(x: T, s: seq<T>, key: T -> (int, int), k: (int, int))
    requires SortedBy(s, key)
    ensures Filter(InsertBy(x, s, key), HasKey(key, k))
         == Filter(s, HasKey(key, k)) + (if key(x) == k then [x] else [])
  {
    if s == [] {
    } else if KeyLess(key(x), key(s[0])) {
      FilterInsertedFirst(x, s, key, k);
    } else {
      assert SortedBy(s[1..], key);
      FilterInsertBy(x, s[1..], key, k);
      FilterInsertedLater(x, s, key, k);
    }
  }

  lemma FilterInsertedLater<T>(x: T, s: seq<T>, key: T -> (int, int), k: (int, int))
    requires s != [] && !KeyLess(key(x), key(s[0]))
    requires Filter(InsertBy(x, s[1..], key), HasKey(key, k))
          == Filter(s[1..], HasKey(key, k)) + (if key(x) == k then [x] else [])
    ensures Filter(InsertBy(x, s, key), HasKey(key, k))
         == Filter(s, HasKey(key, k)) + (if key(x) == k then [x] else [])
  {
    var f := HasKey(key, k);
    var t := InsertBy(x, s[1..], key);
    var head := if f(s[0]) then [s[0]] else [];
    var last := if key(x) == k then [x] else [];
    assert InsertBy(x, s, key) == [s[0]] + t;
    FilterCons(s[0], t, f);
    FilterStep(s, f);
    AppendAssoc(head, Filter(s[1..], f), last);
  }

  lemma FilterInsertedFirst<T>(x: T, s: seq<T>, key: T -> (int, int), k: (int, int))
    requires s != [] && SortedBy(s, key) && KeyLess(key(x), key(s[0]))
    ensures Filter([x] + s, HasKey(key, k)) == Filter(s, HasKey(key, k)) + (if key(x) == k then [x] else [])
  {
    var f := HasKey(key, k);
    assert ([x] + s)[1..] == s;
    if key(x) == k {
      forall y | y in s ensures !f(y) {
        var j :| 0 <= j < |s| && s[j] == y;
        if j > 0 { assert !KeyLess(key(s[j]), key(s[0])); }
      }
      FilterNone(s, f);
    }
  }

  /** Stability: among the elements with any one key, the sorted list keeps their input order. */
  lemma {:induction false} SortByStable<T>(xs: seq<T>, key: T -> (int, int), k: (int, int))
    ensures Filter(SortBy(xs, key), HasKey(key, k)) == Filter(xs, HasKey(key, k))
  {
    if xs != [] {
      var init := xs[..|xs| - 1];
      var x := xs[|xs| - 1];
      var f := HasKey(key, k);
      var sorted := SortBy(init, key);
      assert SortBy(xs, key) == InsertBy(x, sorted, key);
      SortByStable(init, key, k);
      SortBySorted(init, key);
      FilterInsertBy(x, sorted, key, k);
      FilterSnoc(xs, f);
    }
  }

  /** Filtering a list is filtering all but its last element, then the last one. */
  lemma FilterSnoc<T>(xs: seq<T>, f: T -> bool)
    requires xs != []
    ensures Filter(xs, f) == Filter(xs[..|xs| - 1], f) + (if f(xs[|xs| - 1]) then [xs[|xs| - 1]] else [])
  {
    var init := xs[..|xs| - 1];
    var x := xs[|xs| - 1];
    assert Filter([x], f) == (if f(x) then [x] else []) by {
      FilterStep([x], f);
      assert [x][1..] == [];
    }
    assert Filter(xs, f) == Filter(init, f) + Filter([x], f) by {
      assert xs == init + [x];
      FilterAppend(init, [x], f);
    }
  }

  // ------------------------------------------------------ comparator sort

  /** The comparator orders `a` no later than `b`. */
  predicate NotAfter<T>(cmp: (T, T) -> int, a: T, b: T) {
    cmp(a, b) <= 0
  }

  /**
   * What `Array.prototype.sort` asks of a comparator, on the values at hand:
   * swapping the arguments flips the sign, and "not after" is transitive.
   */
  ghost predicate Consistent<T>(cmp: (T, T) -> int, xs: seq<T>) {
    (forall a, b :: a in xs && b in xs && cmp(a, b) >= 0 ==> NotAfter(cmp, b, a))
    && (forall a, b, c :: a in xs && b in xs && c in xs && NotAfter(cmp, a, b) && NotAfter(cmp, b, c) ==> NotAfter(cmp, a, c))
  }

  ghost predicate SortedWith<T>(s: seq<T>, cmp: (T, T) -> int) {
    forall i, j :: 0 <= i < j < |s| ==> NotAfter(cmp, s[i], s[j])
  }

  /** Inserts `x` before the first element it must precede. */
  function InsertWith<T>(x: T, s: seq<T>, cmp: (T, T) -> int): (r: seq<T>)
    ensures |r| == |s| + 1
    ensures multiset(r) == multiset(s) + multiset{x}
  {
    if s == [] then [x]
    else if cmp(x, s[0]) < 0 then [x] + s
    else
      assert s == [s[0]] + s[1..];
      [s[0]] + InsertWith(x, s[1..], cmp)
  }

  /** `xs.sort(cmp)` as a stable insertion sort. */
  function SortWith<T>(xs: seq<T>, cmp: (T, T) -> int): (r: seq<T>)
    ensures |r| == |xs|
    ensures multiset(r) == multiset(xs)
  {
    if xs == [] then []
    else
      assert xs == xs[..|xs| - 1] + [xs[|xs| - 1]];
      InsertWith(xs[|xs| - 1], SortWith(xs[..|xs| - 1], cmp), cmp)
  }

  lemma ConsistentSub<T>(cmp: (T, T) -> int, xs: seq<T>, ys: seq<T>)
    requires Consistent(cmp, xs)
    requires forall y :: y in ys ==> y in xs
    ensures Consistent(cmp, ys)
  {
  }

  lemma {:induction false} InsertWithSorted<T>(x: T, s: seq<T>, cmp: (T, T) -> int)
    requires SortedWith(s, cmp)
    requires Consistent(cmp, s + [x])
    ensures SortedWith(InsertWith(x, s, cmp), cmp)
  {
    if s == [] {
    } else if cmp(x, s[0]) < 0 {
      InsertedFirst(x, s, cmp);
    } else {
      var all := s + [x];
      assert forall y :: y in s[1..] + [x] ==> y in all;
      ConsistentSub(cmp, all, s[1..] + [x]);
      InsertWithSorted(x, s[1..], cmp);
      InsertedLater(x, s, cmp);
    }
  }

  /** `x` placed before a sorted list whose head it must precede. */
  lemma InsertedFirst<T>(x: T, s: seq<T>, cmp: (T, T) -> int)
    requires s != [] && cmp(x, s[0]) < 0
    requires SortedWith(s, cmp) && Consistent(cmp, s + [x])
    ensures SortedWith([x] + s, cmp)
  {
    var r := [x] + s;
    var all := s + [x];
    assert x in all && s[0] in all;
    forall i, j | 0 <= i < j < |r| ensures NotAfter(cmp, r[i], r[j]) {
      if i == 0 {
        assert r[j] == s[j - 1];
        if j > 1 {
          assert s[j - 1] in all;
          assert NotAfter(cmp, s[0], s[j - 1]);
        }
      } else {
        assert r[i] == s[i - 1] && r[j] == s[j - 1];
      }
    }
  }

  /** The head of a sorted list kept in front of the sorted insertion into its tail. */
  lemma InsertedLater<T>(x: T, s: seq<T>, cmp: (T, T) -> int)
    requires s != [] && cmp(x, s[0]) >= 0
    requires SortedWith(s, cmp) && Consistent(cmp, s + [x])
    requires SortedWith(InsertWith(x, s[1..], cmp), cmp)
    ensures SortedWith([s[0]] + InsertWith(x, s[1..], cmp), cmp)
  {
    var t := InsertWith(x, s[1..], cmp);
    var r := [s[0]] + t;
    var all := s + [x];
    assert x in all && s[0] in all;
    assert NotAfter(cmp, s[0], x);
    forall i, j | 0 <= i < j < |r| ensures NotAfter(cmp, r[i], r[j]) {
      if i == 0 {
        assert r[j] == t[j - 1];
        assert r[j] in multiset(t);
        if r[j] != x {
          assert r[j] in multiset(s[1..]);
          var m :| 0 <= m < |s[1..]| && s[1..][m] == r[j];
          assert s[m + 1] == r[j];
        }
      } else {
        assert r[i] == t[i - 1] && r[j] == t[j - 1];
      }
    }
  }

  /** With a consistent comparator the result is in order. */
  lemma {:induction false} SortWithSorted<T>(xs: seq<T>, cmp: (T, T) -> int)
    requires Consistent(cmp, xs)
    ensures SortedWith(SortWith(xs, cmp), cmp)
  {
    if xs != [] {
      var init := xs[..|xs| - 1];
      var x := xs[|xs| - 1];
      assert xs == init + [x];
      ConsistentSub(cmp, xs, init);
      SortWithSorted(init, cmp);
      var s := SortWith(init, cmp);
      forall y | y in s + [x] ensures y in xs {
        if y != x {
          assert y in multiset(s);
          assert y in multiset(init);
        }
      }
      ConsistentSub(cmp, xs, s + [x]);
      InsertWithSorted(x, s, cmp);
    }
  }
}
