/** Sequence operations shared by every screen: order-preserving filtering,
    summing, and the stable ascending sort by an integer key that JavaScript's
    `Array.prototype.sort((a, b) => key(a) - key(b))` performs (stable since
    ES2019), together with the facts the engines need about it. */
module Seqs {
  import opened Wrappers

  // ---------------------------------------------------------------------------
  // Filtering and summing

  /** `s.filter(p)`: the order-preserving subsequence of elements satisfying `p`. */
  function Filter<T>(s: seq<T>, p: T -> bool): (r: seq<T>)
    ensures |r| <= |s|
    ensures forall i :: 0 <= i < |r| ==> p(r[i])
  {
    if |s| == 0 then []
    else Filter(s[..|s| - 1], p) + (if p(s[|s| - 1]) then [s[|s| - 1]] else [])
  }

  /** Filtering keeps exactly the elements satisfying `p`. */
  lemma {:induction false} FilterMembers<T>(s: seq<T>, p: T -> bool)
    ensures forall i :: 0 <= i < |Filter(s, p)| ==> Filter(s, p)[i] in s
    ensures forall i :: 0 <= i < |s| && p(s[i]) ==> s[i] in Filter(s, p)
  {
    if |s| > 0 {
      FilterMembers(s[..|s| - 1], p);
      var init := s[..|s| - 1];
      assert forall i :: 0 <= i < |init| ==> init[i] == s[i];
    }
  }

  /** The number of elements of `s` satisfying `p`, counted one by one. */
  function CountWhere<T>(s: seq<T>, p: T -> bool): nat {
    if |s| == 0 then 0 else CountWhere(s[..|s| - 1], p) + (if p(s[|s| - 1]) then 1 else 0)
  }

  /** `r` lists the elements of `s` satisfying `p`, each once, in their order in
      `s`, and nothing else: it has one entry per such element, and the element
      at position `i` of `s` sits at the number of such elements before it. */
  ghost predicate KeepsInOrder<T>(s: seq<T>, p: T -> bool, r: seq<T>) {
    && |r| == CountWhere(s, p)
    && forall i :: 0 <= i < |s| && p(s[i]) ==> CountWhere(s[..i], p) < |r| && r[CountWhere(s[..i], p)] == s[i]
  }

  /** Filtering lists the elements satisfying the test in their order. */
  lemma {:induction false} FilterInOrder<T>(s: seq<T>, p: T -> bool)
    ensures KeepsInOrder(s, p, Filter(s, p))
  {
    if |s| > 0 {
      var n := |s| - 1;
      var init := s[..n];
      FilterInOrder(init, p);
      assert s[..n] == init;
      forall i | 0 <= i < n
        ensures s[..i] == init[..i] && s[i] == init[i]
      {
      }
    }
  }

  /** Every rank below the count belongs to some element satisfying the test. */
  lemma {:induction false} RankIsTaken<T>(s: seq<T>, p: T -> bool, k: nat)
    requires k < CountWhere(s, p)
    ensures exists i :: 0 <= i < |s| && p(s[i]) && CountWhere(s[..i], p) == k
  {
    var n := |s| - 1;
    var init := s[..n];
    if k < CountWhere(init, p) {
      RankIsTaken(init, p, k);
      var i :| 0 <= i < |init| && p(init[i]) && CountWhere(init[..i], p) == k;
      assert s[..i] == init[..i];
    } else {
      assert s[..n] == init;
    }
  }

  /** The order specification pins the result down: at most one sequence meets it. */
  lemma KeepsInOrderUnique<T>(s: seq<T>, p: T -> bool, a: seq<T>, b: seq<T>)
    requires KeepsInOrder(s, p, a) && KeepsInOrder(s, p, b)
    ensures a == b
  {
    forall k | 0 <= k < |a|
      ensures a[k] == b[k]
    {
      RankIsTaken(s, p, k);
    }
  }

  /** Filtering keeps a key that tells the elements apart telling them apart. */
  lemma {:induction false} FilterKeepsDistinct<T, K>(s: seq<T>, p: T -> bool, key: T -> K)
    requires forall i, j :: 0 <= i < j < |s| ==> key(s[i]) != key(s[j])
    ensures forall i, j :: 0 <= i < j < |Filter(s, p)| ==> key(Filter(s, p)[i]) != key(Filter(s, p)[j])
  {
    if |s| > 0 {
      var n := |s| - 1;
      var init := s[..n];
      FilterKeepsDistinct(init, p, key);
      FilterMembers(init, p);
      var f := Filter(init, p);
      forall j | 0 <= j < |f|
        ensures key(f[j]) != key(s[n])
      {
        var i :| 0 <= i < n && init[i] == f[j];
      }
    }
  }

  lemma {:induction false} FilterAppend<T>(a: seq<T>, b: seq<T>, p: T -> bool)
    ensures Filter(a + b, p) == Filter(a, p) + Filter(b, p)
  {
    if |b| == 0 {
      assert a + b == a;
    } else {
      var ab := a + b;
      var init, x := b[..|b| - 1], b[|b| - 1];
      var t := if p(x) then [x] else [];
      assert ab[..|ab| - 1] == a + init && ab[|ab| - 1] == x;
      FilterAppend(a, init, p);
      assert Filter(ab, p) == Filter(a + init, p) + t;
      assert Filter(b, p) == Filter(init, p) + t;
      assert (Filter(a, p) + Filter(init, p)) + t == Filter(a, p) + (Filter(init, p) + t);
    }
  }

  lemma {:induction false} FilterAll<T>(s: seq<T>, p: T -> bool)
    requires forall i :: 0 <= i < |s| ==> p(s[i])
    ensures Filter(s, p) == s
  {
    if |s| > 0 {
      FilterAll(s[..|s| - 1], p);
    }
  }

  lemma {:induction false} FilterNone<T>(s: seq<T>, p: T -> bool)
    requires forall i :: 0 <= i < |s| ==> !p(s[i])
    ensures Filter(s, p) == []
  {
    if |s| > 0 {
      FilterNone(s[..|s| - 1], p);
    }
  }

  /** The conjunction of two tests. */
  function Both<T>(p: T -> bool, q: T -> bool): T -> bool {
    x => p(x) && q(x)
  }

  /** Filtering twice is filtering once by both tests. */
  lemma {:induction false} FilterFilter<T>(s: seq<T>, p: T -> bool, q: T -> bool)
    ensures Filter(Filter(s, p), q) == Filter(s, Both(p, q))
  {
    if |s| > 0 {
      var init := s[..|s| - 1];
      var x := s[|s| - 1];
      FilterFilter(init, p, q);
      FilterAppend(Filter(init, p), if p(x) then [x] else [], q);
      if p(x) {
        FilterSingle(x, q);
      }
    }
  }

  /** Tests that agree on every element of `s` filter it alike. */
  lemma {:induction false} FilterCongruent<T>(s: seq<T>, p: T -> bool, q: T -> bool)
    requires forall i :: 0 <= i < |s| ==> p(s[i]) == q(s[i])
    ensures Filter(s, p) == Filter(s, q)
  {
    if |s| > 0 {
      FilterCongruent(s[..|s| - 1], p, q);
    }
  }
  /** Two filters commute. */
  lemma FilterCommute<T>(s: seq<T>, p: T -> bool, q: T -> bool)
    ensures Filter(Filter(s, p), q) == Filter(Filter(s, q), p)
  {
    FilterFilter(s, p, q);
    FilterFilter(s, q, p);
    FilterCongruent(s, Both(p, q), Both(q, p));
  }

  /** An in-place update in which every element failing `keep` stops
      satisfying `p`, and every other element is unchanged, filters by `p`
      like dropping the elements failing `keep` first. */
  lemma {:induction false} FilterAfterUpdate<T>(s: seq<T>, t: seq<T>, keep: T -> bool, p: T -> bool)
    requires |t| == |s|
    requires forall i :: 0 <= i < |s| ==> if keep(s[i]) then t[i] == s[i] else !p(t[i])
    ensures Filter(t, p) == Filter(Filter(s, keep), p)
  {
    if |s| > 0 {
      var n := |s| - 1;
      assert forall i :: 0 <= i < n ==> s[..n][i] == s[i] && t[..n][i] == t[i];
      FilterAfterUpdate(s[..n], t[..n], keep, p);
      var b := if keep(s[n]) then [s[n]] else [];
      assert Filter(s, keep) == Filter(s[..n], keep) + b;
      FilterAppend(Filter(s[..n], keep), b, p);
      if keep(s[n]) {
        FilterSingle(s[n], p);
      } else {
        assert Filter(b, p) == [];
      }
    }
  }


  /** The negation of a test. */
  function Not<T>(p: T -> bool): T -> bool {
    x => !p(x)
  }

  /** A test and its negation split `s`: every element lands in exactly one part. */
  lemma {:induction false} FilterSplit<T>(s: seq<T>, p: T -> bool)
    ensures |Filter(s, p)| + |Filter(s, Not(p))| == |s|
  {
    if |s| > 0 {
      FilterSplit(s[..|s| - 1], p);
    }
  }

  /** `s.map(f)`. */
  function Map<T, U>(s: seq<T>, f: T -> U): (r: seq<U>)
    ensures |r| == |s|
    ensures forall i :: 0 <= i < |s| ==> r[i] == f(s[i])
  {
    if |s| == 0 then [] else Map(s[..|s| - 1], f) + [f(s[|s| - 1])]
  }

  /** The concatenation of the parts in order, or None as soon as one part is
      missing: a batch that aborts when any of its steps does. */
  function FlattenAll<T>(parts: seq<Option<seq<T>>>): (r: Option<seq<T>>)
    ensures r.None? <==> exists i :: 0 <= i < |parts| && parts[i].None?
  {
    if |parts| == 0 then Some([])
    else
      var init := parts[..|parts| - 1];
      assert forall i :: 0 <= i < |init| ==> init[i] == parts[i];
      match FlattenAll(init)
      case None => None
      case Some(w) =>
        match parts[|parts| - 1]
        case None => None
        case Some(v) => Some(w + v)
  }

  /** The flattened batch holds every element of every part, and nothing else. */
  lemma {:induction false} FlattenAllMembers<T>(parts: seq<Option<seq<T>>>)
    requires FlattenAll(parts).Some?
    ensures forall i, x :: 0 <= i < |parts| && parts[i].Some? && x in parts[i].value ==> x in FlattenAll(parts).value
    ensures forall x :: x in FlattenAll(parts).value ==>
      exists i :: 0 <= i < |parts| && parts[i].Some? && x in parts[i].value
  {
    if |parts| > 0 {
      var n := |parts| - 1;
      var init := parts[..n];
      assert forall i :: 0 <= i < n ==> init[i] == parts[i];
      FlattenAllMembers(init);
      var before := FlattenAll(init).value;
      assert FlattenAll(parts).value == before + parts[n].value;
      forall x | x in FlattenAll(parts).value
        ensures exists i :: 0 <= i < |parts| && parts[i].Some? && x in parts[i].value
      {
        if x in before {
          var i :| 0 <= i < n && init[i].Some? && x in init[i].value;
          assert parts[i] == init[i];
        }
      }
    }
  }

  /** Σ f(x) over the elements of `s`. */
  function SumOf<T>(s: seq<T>, f: T -> int): int {
    if |s| == 0 then 0 else SumOf(s[..|s| - 1], f) + f(s[|s| - 1])
  }

  lemma {:induction false} SumOfAppend<T>(a: seq<T>, b: seq<T>, f: T -> int)
    ensures SumOf(a + b, f) == SumOf(a, f) + SumOf(b, f)
  {
    if |b| == 0 {
      assert a + b == a;
    } else {
      var ab := a + b;
      assert ab[..|ab| - 1] == a + b[..|b| - 1];
      SumOfAppend(a, b[..|b| - 1], f);
    }
  }

  lemma SumOfCons<T>(x: T, s: seq<T>, f: T -> int)
    ensures SumOf([x] + s, f) == f(x) + SumOf(s, f)
  {
    SumOfAppend([x], s, f);
    assert [x][..0] == [];
  }

  function LastOf<T>(s: seq<T>): (r: Option<T>)
    ensures r.None? <==> |s| == 0
    ensures r.Some? ==> r.value == s[|s| - 1]
  {
    if |s| == 0 then None else Some(s[|s| - 1])
  }

  /** The last element satisfying `p` in input order: the value a `Map` built
      from `s` keeps for a key, since later entries overwrite earlier ones. */
  function LastWhere<T>(s: seq<T>, p: T -> bool): (r: Option<T>)
    ensures r.None? <==> forall i :: 0 <= i < |s| ==> !p(s[i])
    ensures r.Some? ==> exists i :: 0 <= i < |s| && s[i] == r.value && p(s[i])
                                    && forall j :: i < j < |s| ==> !p(s[j])
  {
    if |s| == 0 then None
    else if p(s[|s| - 1]) then Some(s[|s| - 1])
    else
      var init := s[..|s| - 1];
      var r := LastWhere(init, p);
      assert forall j :: 0 <= j < |init| ==> init[j] == s[j];
      assert r.Some? ==> exists i :: 0 <= i < |s| && s[i] == r.value && p(s[i])
                                    && forall j :: i < j < |s| ==> !p(s[j]) by {
        if r.Some? {
          var i :| 0 <= i < |init| && init[i] == r.value && p(init[i])
                   && forall j :: i < j < |init| ==> !p(init[j]);
          forall j | i < j < |s|
            ensures !p(s[j])
          {
            if j < |init| {
              assert s[j] == init[j];
            }
          }
        }
      }
      r
  }

  /** No value occurs twice. */
  predicate Distinct<T(==)>(s: seq<T>) {
    forall i, j :: 0 <= i < j < |s| ==> s[i] != s[j]
  }

  // ---------------------------------------------------------------------------
  // Stable sort by an integer key

  ghost predicate SortedBy<T>(s: seq<T>, key: T -> int) {
    forall i, j :: 0 <= i < j < |s| ==> key(s[i]) <= key(s[j])
  }

  /** Places `x` after every element whose key is at most `key(x)`; the
      insertion step of a stable insertion sort. */
  function InsertByKey<T>(l: seq<T>, x: T, key: T -> int): (r: seq<T>)
    ensures |r| == |l| + 1
  {
    if |l| == 0 || key(l[|l| - 1]) <= key(x) then l + [x]
    else InsertByKey(l[..|l| - 1], x, key) + [l[|l| - 1]]
  }

  /** Every key in `s` is at most `b`. */
  ghost predicate KeysAtMost<T>(s: seq<T>, key: T -> int, b: int) {
    forall i :: 0 <= i < |s| ==> key(s[i]) <= b
  }

  lemma {:induction false} InsertKeysAtMost<T>(l: seq<T>, x: T, key: T -> int, b: int)
    requires KeysAtMost(l, key, b) && key(x) <= b
    ensures KeysAtMost(InsertByKey(l, x, key), key, b)
  {
    if |l| > 0 && key(l[|l| - 1]) > key(x) {
      InsertKeysAtMost(l[..|l| - 1], x, key, b);
    }
  }

  /** Inserting into a sorted sequence keeps it sorted. */
  lemma {:induction false} InsertKeepsSorted<T>(l: seq<T>, x: T, key: T -> int)
    requires SortedBy(l, key)
    ensures SortedBy(InsertByKey(l, x, key), key)
  {
    if |l| > 0 && key(l[|l| - 1]) > key(x) {
      var init := l[..|l| - 1];
      var last := l[|l| - 1];
      InsertKeepsSorted(init, x, key);
      InsertKeysAtMost(init, x, key, key(last));
    }
  }

  /** Inserting adds exactly `x`. */
  lemma {:induction false} InsertPermutes<T>(l: seq<T>, x: T, key: T -> int)
    ensures multiset(InsertByKey(l, x, key)) == multiset(l) + multiset{x}
  {
    if |l| > 0 && key(l[|l| - 1]) > key(x) {
      var init := l[..|l| - 1];
      InsertPermutes(init, x, key);
      assert l == init + [l[|l| - 1]];
    }
  }

  /** `[...s].sort((a, b) => key(a) - key(b))`: stable ascending sort. */
  function SortByKey<T>(s: seq<T>, key: T -> int): (r: seq<T>)
    ensures |r| == |s|
    ensures SortedBy(r, key)
  {
    if |s| == 0 then []
    else
      var sorted := SortByKey(s[..|s| - 1], key);
      InsertKeepsSorted(sorted, s[|s| - 1], key);
      InsertByKey(sorted, s[|s| - 1], key)
  }

  /** The sort is a permutation of its input. */
  lemma {:induction false} SortPermutes<T>(s: seq<T>, key: T -> int)
    ensures multiset(SortByKey(s, key)) == multiset(s)
  {
    if |s| > 0 {
      SortPermutes(s[..|s| - 1], key);
      InsertPermutes(SortByKey(s[..|s| - 1], key), s[|s| - 1], key);
      assert s == s[..|s| - 1] + [s[|s| - 1]];
    }
  }

  /** The sort keeps exactly the elements it was given. */
  lemma SortMembers<T>(s: seq<T>, key: T -> int)
    ensures forall x :: x in SortByKey(s, key) <==> x in s
  {
    SortPermutes(s, key);
    forall x
      ensures x in SortByKey(s, key) <==> x in s
    {
      assert x in SortByKey(s, key) <==> x in multiset(SortByKey(s, key));
      assert x in s <==> x in multiset(s);
    }
  }

  lemma SortByKeyAppend<T>(s: seq<T>, x: T, key: T -> int)
    ensures SortByKey(s + [x], key) == InsertByKey(SortByKey(s, key), x, key)
  {
    assert (s + [x])[..|s|] == s;
  }

  lemma SortedElementsBelowLast<T>(l: seq<T>, key: T -> int, y: T)
    requires SortedBy(l, key) && |l| > 0 && y in l
    ensures key(y) <= key(l[|l| - 1])
  {
    var k :| 0 <= k < |l| && l[k] == y;
  }

  lemma FilterSingle<T>(x: T, p: T -> bool)
    ensures Filter([x], p) == if p(x) then [x] else []
  {
    assert [x][..0] == [];
  }

  lemma {:induction false} FilterKeysAtMost<T>(l: seq<T>, p: T -> bool, key: T -> int, b: int)
    requires KeysAtMost(l, key, b)
    ensures KeysAtMost(Filter(l, p), key, b)
  {
    if |l| > 0 {
      FilterKeysAtMost(l[..|l| - 1], p, key, b);
    }
  }

  /** Inserting an element whose key is not below any other appends it. */
  lemma InsertAtEnd<T>(l: seq<T>, x: T, key: T -> int)
    requires KeysAtMost(l, key, key(x))
    ensures InsertByKey(l, x, key) == l + [x]
  {
  }

  /** Inserting before a final element with a greater key. */
  lemma InsertBeforeLast<T>(m: seq<T>, last: T, x: T, key: T -> int)
    requires key(last) > key(x)
    ensures InsertByKey(m + [last], x, key) == InsertByKey(m, x, key) + [last]
  {
    assert (m + [last])[..|m|] == m;
  }

  /** Filtering commutes with inserting into a sorted sequence. */
  lemma {:induction false} FilterInsert<T>(l: seq<T>, x: T, key: T -> int, p: T -> bool)
    requires SortedBy(l, key)
    ensures Filter(InsertByKey(l, x, key), p)
         == if p(x) then InsertByKey(Filter(l, p), x, key) else Filter(l, p)
  {
    if |l| == 0 || key(l[|l| - 1]) <= key(x) {
      assert KeysAtMost(l, key, key(x));
      InsertAtEnd(l, x, key);
      if p(x) {
        FilterAppendKept(l, x, key, p);
      } else {
        FilterAppendDropped(l, x, p);
      }
    } else {
      var init := l[..|l| - 1];
      assert l == init + [l[|l| - 1]];
      assert SortedBy(init, key);
      FilterInsert(init, x, key, p);
      FilterInsertBeforeLast(init, l[|l| - 1], x, key, p);
    }
  }

  lemma FilterAppendDropped<T>(l: seq<T>, x: T, p: T -> bool)
    requires !p(x)
    ensures Filter(l + [x], p) == Filter(l, p)
  {
    FilterAppend(l, [x], p);
    FilterSingle(x, p);
  }

  lemma FilterAppendKept<T>(l: seq<T>, x: T, key: T -> int, p: T -> bool)
    requires KeysAtMost(l, key, key(x)) && p(x)
    ensures Filter(l + [x], p) == InsertByKey(Filter(l, p), x, key)
  {
    FilterAppend(l, [x], p);
    FilterSingle(x, p);
    FilterKeysAtMost(l, p, key, key(x));
    InsertAtEnd(Filter(l, p), x, key);
  }

  /** The inductive step of `FilterInsert` when `x` goes before `last`. */
  lemma FilterInsertBeforeLast<T>(init: seq<T>, last: T, x: T, key: T -> int, p: T -> bool)
    requires key(last) > key(x)
    requires Filter(InsertByKey(init, x, key), p)
         == if p(x) then InsertByKey(Filter(init, p), x, key) else Filter(init, p)
    ensures Filter(InsertByKey(init + [last], x, key), p)
         == if p(x) then InsertByKey(Filter(init + [last], p), x, key) else Filter(init + [last], p)
  {
    var ins := InsertByKey(init, x, key);
    var tail := Filter([last], p);
    InsertBeforeLast(init, last, x, key);
    FilterAppend(ins, [last], p);
    FilterAppend(init, [last], p);
    assert Filter(InsertByKey(init + [last], x, key), p) == Filter(ins, p) + tail;
    assert Filter(init + [last], p) == Filter(init, p) + tail;
    if p(x) {
      FilterSingle(last, p);
      if p(last) {
        InsertBeforeLast(Filter(init, p), last, x, key);
      } else {
        assert tail == [];
        assert Filter(init, p) + tail == Filter(init, p);
        assert Filter(ins, p) + tail == Filter(ins, p);
      }
    }
  }

  /** Sorting then filtering is filtering then sorting. */
  lemma {:induction false} FilterSortCommute<T>(s: seq<T>, key: T -> int, p: T -> bool)
    ensures Filter(SortByKey(s, key), p) == SortByKey(Filter(s, p), key)
  {
    if |s| > 0 {
      var init := s[..|s| - 1];
      var x := s[|s| - 1];
      assert s == init + [x];
      FilterSortCommute(init, key, p);
      FilterSortStep(init, x, key, p);
    }
  }

  /** The inductive step of `FilterSortCommute`. */
  lemma FilterSortStep<T>(init: seq<T>, x: T, key: T -> int, p: T -> bool)
    requires Filter(SortByKey(init, key), p) == SortByKey(Filter(init, p), key)
    ensures Filter(SortByKey(init + [x], key), p) == SortByKey(Filter(init + [x], p), key)
  {
    var sorted := SortByKey(init, key);
    SortByKeyAppend(init, x, key);
    FilterInsert(sorted, x, key, p);
    FilterAppend(init, [x], p);
    FilterSingle(x, p);
    if p(x) {
      SortByKeyAppend(Filter(init, p), x, key);
    } else {
      assert Filter(init + [x], p) == Filter(init, p);
    }
  }

  /** A sequence whose keys are all equal is left as it is. */
  lemma {:induction false} SortConstantKey<T>(s: seq<T>, key: T -> int, k: int)
    requires forall i :: 0 <= i < |s| ==> key(s[i]) == k
    ensures SortByKey(s, key) == s
  {
    if |s| > 0 {
      var init := s[..|s| - 1];
      SortConstantKey(init, key, k);
      assert s == init + [s[|s| - 1]];
      if |init| > 0 {
        assert key(init[|init| - 1]) == k;
      }
    }
  }

  /** The elements of `s` whose key is `k`. */
  function KeyIs<T>(key: T -> int, k: int): T -> bool {
    x => key(x) == k
  }

  /** Stability: the elements sharing a key keep their input order. */
  lemma SortIsStable<T>(s: seq<T>, key: T -> int, k: int)
    ensures Filter(SortByKey(s, key), KeyIs(key, k)) == Filter(s, KeyIs(key, k))
  {
    var f := Filter(s, KeyIs(key, k));
    FilterSortCommute(s, key, KeyIs(key, k));
    SortConstantKey(f, key, k);
  }

  /** Stability for every key at once. */
  lemma SortIsStableEverywhere<T>(s: seq<T>, key: T -> int)
    ensures forall k :: Filter(SortByKey(s, key), KeyIs(key, k)) == Filter(s, KeyIs(key, k))
  {
    forall k
      ensures Filter(SortByKey(s, key), KeyIs(key, k)) == Filter(s, KeyIs(key, k))
    {
      SortIsStable(s, key, k);
    }
  }

  /** Summing does not depend on the order the sort produces. */
  lemma {:induction false} SumOfSort<T>(s: seq<T>, key: T -> int, f: T -> int)
    ensures SumOf(SortByKey(s, key), f) == SumOf(s, f)
  {
    if |s| > 0 {
      var init := s[..|s| - 1];
      SumOfSort(init, key, f);
      SumOfInsert(SortByKey(init, key), s[|s| - 1], key, f);
    }
  }

  lemma {:induction false} SumOfInsert<T>(l: seq<T>, x: T, key: T -> int, f: T -> int)
    ensures SumOf(InsertByKey(l, x, key), f) == SumOf(l, f) + f(x)
  {
    if |l| > 0 && key(l[|l| - 1]) > key(x) {
      var init := l[..|l| - 1];
      SumOfInsert(init, x, key, f);
      var r := InsertByKey(init, x, key) + [l[|l| - 1]];
      assert r[..|r| - 1] == InsertByKey(init, x, key);
    } else {
      assert (l + [x])[..|l|] == l;
    }
  }

  // ---------------------------------------------------------------------------
  // The latest element in stable order

  /** The element satisfying `p` that a stable ascending sort by `key` would
      place last: greatest key, and among equal keys the one latest in `s`. */
  function LatestWhere<T>(s: seq<T>, p: T -> bool, key: T -> int): (r: Option<T>)
    ensures r.None? <==> forall i :: 0 <= i < |s| ==> !p(s[i])
    ensures r.Some? ==> exists i :: 0 <= i < |s| && s[i] == r.value && IsLatestAt(s, p, key, i)
  {
    if |s| == 0 then None
    else
      var init := s[..|s| - 1];
      var x := s[|s| - 1];
      var best := LatestWhere(init, p, key);
      if p(x) && (best.None? || key(best.value) <= key(x)) then
        assert IsLatestAt(s, p, key, |s| - 1) by {
          if best.Some? {
            forall j | 0 <= j < |init| && p(init[j])
              ensures key(init[j]) <= key(best.value)
            {
              var i :| 0 <= i < |init| && init[i] == best.value && IsLatestAt(init, p, key, i);
            }
          }
          assert forall j :: 0 <= j < |init| ==> s[j] == init[j];
        }
        Some(x)
      else
        assert best.Some? ==>
          exists i :: 0 <= i < |s| && s[i] == best.value && IsLatestAt(s, p, key, i) by {
          if best.Some? {
            var i :| 0 <= i < |init| && init[i] == best.value && IsLatestAt(init, p, key, i);
            LatestExtend(s, p, key, i);
          }
        }
        best
  }

  /** The latest element of all but the last stays the latest when the last
      element does not reach its key. */
  lemma LatestExtend<T>(s: seq<T>, p: T -> bool, key: T -> int, i: int)
    requires 0 <= i < |s| - 1 && IsLatestAt(s[..|s| - 1], p, key, i)
    requires p(s[|s| - 1]) ==> key(s[|s| - 1]) < key(s[i])
    ensures IsLatestAt(s, p, key, i)
  {
    assert forall j :: 0 <= j < |s| - 1 ==> s[j] == s[..|s| - 1][j];
  }

  /** `s[i]` satisfies `p`, no earlier such element has a greater key, and no
      later such element has an equal or greater key. */
  ghost predicate IsLatestAt<T>(s: seq<T>, p: T -> bool, key: T -> int, i: int)
    requires 0 <= i < |s|
  {
    && p(s[i])
    && (forall j :: 0 <= j < i && p(s[j]) ==> key(s[j]) <= key(s[i]))
    && (forall j :: i < j < |s| && p(s[j]) ==> key(s[j]) < key(s[i]))
  }

  /** The last element of the stably sorted, filtered sequence is the latest
      element satisfying `p`. */
  lemma {:induction false} LastOfSortedFilter<T>(s: seq<T>, p: T -> bool, key: T -> int)
    ensures LastOf(Filter(SortByKey(s, key), p)) == LatestWhere(s, p, key)
  {
    if |s| > 0 {
      var init := s[..|s| - 1];
      var x := s[|s| - 1];
      LastOfSortedFilter(init, p, key);
      FilterInsert(SortByKey(init, key), x, key, p);
    }
  }

  /** At most one position is the latest one. */
  lemma LatestAtUnique<T>(s: seq<T>, p: T -> bool, key: T -> int, i: int, j: int)
    requires 0 <= i < |s| && 0 <= j < |s|
    requires IsLatestAt(s, p, key, i) && IsLatestAt(s, p, key, j)
    ensures i == j
  {
    if i < j {
      assert false;
    } else if j < i {
      assert false;
    }
  }

  /** `s` with `x` placed after its first `at` elements, or at the end when
      `s` is shorter than that. */
  function InsertAt<T>(s: seq<T>, at: nat, x: T): (r: seq<T>)
    ensures |r| == |s| + 1
    ensures at <= |s| ==> r[..at] == s[..at] && r[at] == x && r[at + 1..] == s[at..]
    ensures at >= |s| ==> r == s + [x]
  {
    if at < |s| then s[..at] + [x] + s[at..] else s + [x]
  }

  /** An element whose key beats every other element satisfying `p` is the
      latest one, wherever it stands. */
  lemma StrictMaxIsLatest<T>(s: seq<T>, p: T -> bool, key: T -> int, i: int)
    requires 0 <= i < |s| && p(s[i])
    requires forall j :: 0 <= j < |s| && j != i && p(s[j]) ==> key(s[j]) < key(s[i])
    ensures IsLatestAt(s, p, key, i)
  {
  }

  lemma LatestAfterAppend<T>(s: seq<T>, x: T, p: T -> bool, key: T -> int)
    requires p(x)
    requires forall i :: 0 <= i < |s| && p(s[i]) ==> key(s[i]) <= key(x)
    ensures LatestWhere(s + [x], p, key) == Some(x)
  {
    var t := s + [x];
    assert t[..|s|] == s;
  }

  // ---------------------------------------------------------------------------
  // The first best element in input order

  /** The element satisfying `p` with the greatest key, the earliest one on
      ties: the result of scanning `s` and replacing the best so far only by
      a strictly greater key. */
  function FirstMaxWhere<T>(s: seq<T>, p: T -> bool, key: T -> int): (r: Option<T>)
    ensures r.None? <==> forall i :: 0 <= i < |s| ==> !p(s[i])
    ensures r.Some? ==> exists i :: 0 <= i < |s| && s[i] == r.value && IsFirstMaxAt(s, p, key, i)
  {
    if |s| == 0 then None
    else
      var init := s[..|s| - 1];
      var x := s[|s| - 1];
      var best := FirstMaxWhere(init, p, key);
      if p(x) && (best.None? || key(x) > key(best.value)) then
        assert IsFirstMaxAt(s, p, key, |s| - 1) by {
          if best.Some? {
            forall j | 0 <= j < |init| && p(init[j])
              ensures key(init[j]) <= key(best.value)
            {
              var i :| 0 <= i < |init| && init[i] == best.value && IsFirstMaxAt(init, p, key, i);
            }
          }
          assert forall j :: 0 <= j < |init| ==> s[j] == init[j];
        }
        Some(x)
      else
        assert best.Some? ==>
          exists i :: 0 <= i < |s| && s[i] == best.value && IsFirstMaxAt(s, p, key, i) by {
          if best.Some? {
            var i :| 0 <= i < |init| && init[i] == best.value && IsFirstMaxAt(init, p, key, i);
            FirstMaxExtend(s, p, key, i);
          }
        }
        best
  }

  /** A first maximum of all but the last element stays one when the last
      element does not beat it. */
  lemma FirstMaxExtend<T>(s: seq<T>, p: T -> bool, key: T -> int, i: int)
    requires 0 <= i < |s| - 1 && IsFirstMaxAt(s[..|s| - 1], p, key, i)
    requires p(s[|s| - 1]) ==> key(s[|s| - 1]) <= key(s[i])
    ensures IsFirstMaxAt(s, p, key, i)
  {
    assert forall j :: 0 <= j < |s| - 1 ==> s[j] == s[..|s| - 1][j];
  }

  /** `s[i]` satisfies `p`, every earlier such element has a smaller key and
      every later one a key no greater. */
  ghost predicate IsFirstMaxAt<T>(s: seq<T>, p: T -> bool, key: T -> int, i: int)
    requires 0 <= i < |s|
  {
    && p(s[i])
    && (forall j :: 0 <= j < i && p(s[j]) ==> key(s[j]) < key(s[i]))
    && (forall j :: i < j < |s| && p(s[j]) ==> key(s[j]) <= key(s[i]))
  }

  /** The key negated, turning a search for the greatest into one for the least. */
  function Negated<T>(key: T -> int): T -> int {
    x => -key(x)
  }

  /** A sequence sorted by the negated key is in descending order of the key. */
  lemma SortedDescending<T>(s: seq<T>, key: T -> int)
    requires SortedBy(s, Negated(key))
    ensures forall i, j :: 0 <= i < j < |s| ==> key(s[i]) >= key(s[j])
  {
    forall i, j | 0 <= i < j < |s|
      ensures key(s[i]) >= key(s[j])
    {
      assert Negated(key)(s[i]) <= Negated(key)(s[j]);
    }
  }

  /** `s.find(p)`: the first element satisfying `p`. */
  function FirstWhere<T>(s: seq<T>, p: T -> bool): (r: Option<T>)
    ensures r.None? <==> forall i :: 0 <= i < |s| ==> !p(s[i])
    ensures r.Some? ==> exists i :: (0 <= i < |s| && s[i] == r.value && p(s[i])
                                     && forall j :: 0 <= j < i ==> !p(s[j]))
  {
    if |s| == 0 then None
    else if p(s[0]) then
      assert s[0] == s[0];
      Some(s[0])
    else
      var r := FirstWhere(s[1..], p);
      assert r.Some? ==> exists i :: (0 <= i < |s| && s[i] == r.value && p(s[i])
                                      && forall j :: 0 <= j < i ==> !p(s[j])) by {
        if r.Some? {
          var i :| 0 <= i < |s[1..]| && s[1..][i] == r.value && p(s[1..][i])
                   && forall j :: 0 <= j < i ==> !p(s[1..][j]);
          assert s[i + 1] == r.value;
          forall j | 0 <= j < i + 1
            ensures !p(s[j])
          {
            if j > 0 {
              assert s[j] == s[1..][j - 1];
            }
          }
        }
      }
      r
  }

  /** `Math.max` over the values `f` yields, None when it yields none: the
      maximum of the numbers parsed out of a list. */
  function MaxOf<T>(s: seq<T>, f: T -> Option<nat>): (m: Option<nat>)
    ensures m.None? <==> forall i :: 0 <= i < |s| ==> f(s[i]).None?
    ensures m.Some? ==> (exists i :: 0 <= i < |s| && f(s[i]) == m)
                        && forall i :: 0 <= i < |s| && f(s[i]).Some? ==> f(s[i]).value <= m.value
  {
    if |s| == 0 then None
    else
      var init := s[..|s| - 1];
      var best := MaxOf(init, f);
      var v := f(s[|s| - 1]);
      assert forall i :: 0 <= i < |init| ==> init[i] == s[i];
      if v.None? then best
      else if best.None? || best.value < v.value then v
      else best
  }

  /** Counts the elements satisfying `p`. */
  function Count<T>(s: seq<T>, p: T -> bool): nat {
    |Filter(s, p)|
  }
}
