/**
 * Sorting and counting of integer lists: sorted(xs), sorted(xs, reverse=True),
 * sum, and the values of collections.Counter in insertion order.
 */
module Sorting {

  predicate Ascending(s: seq<int>) {
    forall i, j :: 0 <= i < j < |s| ==> s[i] <= s[j]
  }

  predicate Descending(s: seq<int>) {
    forall i, j :: 0 <= i < j < |s| ==> s[i] >= s[j]
  }

  function Sum(s: seq<int>): int {
    if s == [] then 0 else s[0] + Sum(s[1..])
  }

  function InsertAsc(x: int, s: seq<int>): (r: seq<int>)
    requires Ascending(s)
    ensures Ascending(r) && multiset(r) == multiset(s) + multiset{x}
    ensures |r| == |s| + 1 && r[0] == (if s == [] || x <= s[0] then x else s[0])
  {
    if s == [] || x <= s[0] then
      ConsAscending(x, s);
      [x] + s
    else
      var t := InsertAsc(x, s[1..]);
      TailMultiset(s);
      ConsAscending(s[0], t);
      [s[0]] + t
  }

  /** sorted(s). */
  function SortAsc(s: seq<int>): (r: seq<int>)
    ensures Ascending(r) && multiset(r) == multiset(s)
  {
    if s == [] then []
    else
      assert s == [s[0]] + s[1..];
      InsertAsc(s[0], SortAsc(s[1..]))
  }

  function InsertDesc(x: int, s: seq<int>): (r: seq<int>)
    requires Descending(s)
    ensures Descending(r) && multiset(r) == multiset(s) + multiset{x}
    ensures |r| == |s| + 1 && r[0] == (if s == [] || x >= s[0] then x else s[0])
  {
    if s == [] || x >= s[0] then
      ConsDescending(x, s);
      [x] + s
    else
      var t := InsertDesc(x, s[1..]);
      TailMultiset(s);
      ConsDescending(s[0], t);
      [s[0]] + t
  }

  /** sorted(s, reverse=True). */
  function SortDesc(s: seq<int>): (r: seq<int>)
    ensures Descending(r) && multiset(r) == multiset(s)
  {
    if s == [] then []
    else
      assert s == [s[0]] + s[1..];
      InsertDesc(s[0], SortDesc(s[1..]))
  }

  lemma {:induction false} InsertDescSum(x: int, s: seq<int>)
    requires Descending(s)
    ensures Sum(InsertDesc(x, s)) == x + Sum(s)
  {
    if s != [] && x < s[0] {
      InsertDescSum(x, s[1..]);
      assert ([s[0]] + InsertDesc(x, s[1..]))[1..] == InsertDesc(x, s[1..]);
    } else {
      assert ([x] + s)[1..] == s;
    }
  }

  lemma {:induction false} SortDescSum(s: seq<int>)
    ensures Sum(SortDesc(s)) == Sum(s)
  {
    if s != [] {
      SortDescSum(s[1..]);
      InsertDescSum(s[0], SortDesc(s[1..]));
    }
  }

  /** The last value of an ascending sequence is its largest. */
  lemma AscendingMax(r: seq<int>, x: int)
    requires Ascending(r) && x in r
    ensures x <= r[|r| - 1]
  {
  }

  lemma ConsAscending(y: int, t: seq<int>)
    requires Ascending(t) && (t != [] ==> y <= t[0])
    ensures Ascending([y] + t)
  {
  }

  lemma ConsDescending(y: int, t: seq<int>)
    requires Descending(t) && (t != [] ==> y >= t[0])
    ensures Descending([y] + t)
  {
  }

  lemma TailMultiset(x: seq<int>)
    requires |x| > 0
    ensures multiset(x[1..]) == multiset(x) - multiset{x[0]}
  {
    assert x == [x[0]] + x[1..];
  }

  /** There is one ascending arrangement of a multiset of integers. */
  lemma {:induction false} AscendingUnique(x: seq<int>, y: seq<int>)
    requires Ascending(x) && Ascending(y) && multiset(x) == multiset(y)
    ensures x == y
  {
    assert |x| == |multiset(x)| == |multiset(y)| == |y|;
    if |x| > 0 {
      assert x[0] in multiset(y);
      assert y[0] in multiset(x);
      var k :| 0 <= k < |y| && y[k] == x[0];
      var m :| 0 <= m < |x| && x[m] == y[0];
      assert x[0] == y[0];
      TailMultiset(x);
      TailMultiset(y);
      AscendingUnique(x[1..], y[1..]);
    }
  }

  /** The ascending arrangement of two integers: the smaller, then the larger. */
  lemma AscendingPair(r: seq<int>, x: int, y: int)
    requires Ascending(r) && multiset(r) == multiset([x, y])
    ensures r == if x <= y then [x, y] else [y, x]
  {
    if x <= y {
      AscendingUnique(r, [x, y]);
    } else {
      assert multiset([y, x]) == multiset([x, y]);
      AscendingUnique(r, [y, x]);
    }
  }

  /** There is one descending arrangement of a multiset of integers. */
  lemma {:induction false} DescendingUnique(x: seq<int>, y: seq<int>)
    requires Descending(x) && Descending(y) && multiset(x) == multiset(y)
    ensures x == y
  {
    assert |x| == |multiset(x)| == |multiset(y)| == |y|;
    if |x| > 0 {
      assert x[0] in multiset(y);
      assert y[0] in multiset(x);
      var k :| 0 <= k < |y| && y[k] == x[0];
      var m :| 0 <= m < |x| && x[m] == y[0];
      assert x[0] == y[0];
      TailMultiset(x);
      TailMultiset(y);
      DescendingUnique(x[1..], y[1..]);
    }
  }

  predicate NoDuplicates<T(==)>(s: seq<T>) {
    forall i, j :: 0 <= i < j < |s| ==> s[i] != s[j]
  }

  /** The distinct values of s in order of first occurrence: the keys of Counter(s). */
  function Dedup<T(==)>(s: seq<T>): seq<T> {
    if s == [] then []
    else
      var d := Dedup(s[..|s| - 1]);
      if s[|s| - 1] in d then d else d + [s[|s| - 1]]
  }

  /** Counter's keys: each value of s once, no other values, and as many as s has values exactly when s has no repeats. */
  lemma {:induction false} DedupFacts<T>(s: seq<T>)
    ensures NoDuplicates(Dedup(s))
    ensures forall x :: x in Dedup(s) <==> x in s
    ensures |Dedup(s)| <= |s|
    ensures |Dedup(s)| == |s| <==> NoDuplicates(s)
  {
    if s != [] {
      var p, x := s[..|s| - 1], s[|s| - 1];
      assert s == p + [x];
      DedupFacts(p);
      var d := Dedup(p);
      assert forall y :: y in s <==> y in p || y == x;
      if x !in d {
        assert forall i :: 0 <= i < |d| ==> (d + [x])[i] == d[i];
      }
      NoDuplicatesSnoc(p, x);
    }
  }

  lemma NoDuplicatesSnoc<T>(p: seq<T>, x: T)
    ensures NoDuplicates(p + [x]) <==> NoDuplicates(p) && x !in p
  {
    var q := p + [x];
    assert forall k :: 0 <= k < |p| ==> q[k] == p[k];
    assert q[|p|] == x;
  }

  /** Counter(s).values(): how often each distinct value occurs, in insertion order. */
  function CountValues(s: seq<int>): seq<int> {
    var d := Dedup(s);
    seq(|d|, i requires 0 <= i < |d| => multiset(s)[d[i]])
  }

  /** sorted(Counter(s).values(), reverse=True). */
  function SortedCounts(s: seq<int>): seq<int> {
    SortDesc(CountValues(s))
  }

  /** The sum of how often each value of `d` occurs in m, for distinct d. */
  function SumCounts(d: seq<int>, m: multiset<int>): int {
    if d == [] then 0 else m[d[0]] + SumCounts(d[1..], m)
  }

  lemma {:induction false} SumCountsAppend(d: seq<int>, x: int, m: multiset<int>)
    ensures SumCounts(d + [x], m) == SumCounts(d, m) + m[x]
  {
    if d != [] {
      assert (d + [x])[1..] == d[1..] + [x];
      SumCountsAppend(d[1..], x, m);
    }
  }

  /** Adding one occurrence of x to m adds one to the count sum over a list holding x once. */
  lemma {:induction false} SumCountsAdd(d: seq<int>, x: int, m: multiset<int>)
    requires NoDuplicates(d)
    ensures SumCounts(d, m + multiset{x}) == SumCounts(d, m) + (if x in d then 1 else 0)
  {
    if d != [] {
      assert x in d <==> x == d[0] || x in d[1..];
      assert x == d[0] ==> x !in d[1..];
      SumCountsAdd(d[1..], x, m);
    }
  }

  lemma {:induction false} SumCountsIsLength(s: seq<int>)
    ensures SumCounts(Dedup(s), multiset(s)) == |s|
  {
    if s != [] {
      var p := s[..|s| - 1];
      var x := s[|s| - 1];
      assert s == p + [x];
      assert multiset(s) == multiset(p) + multiset{x};
      SumCountsIsLength(p);
      DedupFacts(p);
      var d := Dedup(p);
      SumCountsAdd(d, x, multiset(p));
      if x !in d {
        SumCountsAppend(d, x, multiset(s));
        assert multiset(p)[x] == 0;
      }
    }
  }

  lemma {:induction false} SumOfCountsSeq(d: seq<int>, m: multiset<int>)
    ensures Sum(seq(|d|, i requires 0 <= i < |d| => m[d[i]])) == SumCounts(d, m)
  {
    if d != [] {
      assert seq(|d|, i requires 0 <= i < |d| => m[d[i]])[1..] ==
             seq(|d[1..]|, i requires 0 <= i < |d[1..]| => m[d[1..][i]]);
      SumOfCountsSeq(d[1..], m);
    }
  }

  /**
   * sorted_count_of_values lists one positive count per distinct value, in
   * non-increasing order, and the counts add up to the number of values.
   */
  lemma SortedCountsFacts(s: seq<int>)
    ensures Descending(SortedCounts(s))
    ensures Sum(SortedCounts(s)) == |s|
    ensures |SortedCounts(s)| == |Dedup(s)|
    ensures forall c :: c in SortedCounts(s) ==> 1 <= c <= |s|
  {
    CountValuesFacts(s);
    SortDescKeeps(CountValues(s));
  }

  /** One count per distinct value, each between one and the number of values, adding up to that number. */
  lemma CountValuesFacts(s: seq<int>)
    ensures |CountValues(s)| == |Dedup(s)|
    ensures Sum(CountValues(s)) == |s|
    ensures forall c :: c in CountValues(s) ==> 1 <= c <= |s|
  {
    var d := Dedup(s);
    DedupFacts(s);
    SumOfCountsSeq(d, multiset(s));
    SumCountsIsLength(s);
    var cv := CountValues(s);
    forall c | c in cv
      ensures 1 <= c <= |s|
    {
      var i :| 0 <= i < |cv| && cv[i] == c;
      assert d[i] in s;
      assert multiset(s)[d[i]] <= |multiset(s)|;
    }
  }

  /** Sorting keeps the length, the sum and the values. */
  lemma SortDescKeeps(s: seq<int>)
    ensures |SortDesc(s)| == |s| && Sum(SortDesc(s)) == Sum(s)
    ensures forall c :: c in SortDesc(s) ==> c in s
  {
    SortDescSum(s);
    var r := SortDesc(s);
    assert |r| == |multiset(r)| == |multiset(s)| == |s|;
    forall c | c in r
      ensures c in s
    {
      assert c in multiset(r);
    }
  }

  /** Counts of at least one add up to at least the number of counts, and to exactly that only when every count is one. */
  lemma {:induction false} SumOfPositives(r: seq<int>)
    requires forall c :: c in r ==> c >= 1
    ensures Sum(r) >= |r|
    ensures Sum(r) == |r| ==> forall i :: 0 <= i < |r| ==> r[i] == 1
  {
    if r != [] {
      assert forall c :: c in r[1..] ==> c in r;
      SumOfPositives(r[1..]);
      assert r[0] in r;
      if Sum(r) == |r| {
        assert forall i :: 1 <= i < |r| ==> r[i] == r[1..][i - 1];
      }
    }
  }

  /** Every value occurs once exactly when the sorted counts are all ones. */
  lemma AllCountsOne(s: seq<int>)
    ensures SortedCounts(s) == seq(|s|, _ => 1) <==> NoDuplicates(s)
  {
    var r := SortedCounts(s);
    SortedCountsFacts(s);
    DedupFacts(s);
    if NoDuplicates(s) {
      SumOfPositives(r);
      assert r == seq(|s|, _ => 1);
    }
  }

  /** max(s). */
  function Max(s: seq<int>): (m: int)
    requires s != []
    ensures m in s && forall x :: x in s ==> x <= m
  {
    if |s| == 1 then s[0]
    else
      var t := Max(s[1..]);
      assert forall x :: x in s ==> x == s[0] || x in s[1..];
      if s[0] >= t then s[0] else t
  }

  /** min(s). */
  function Min(s: seq<int>): (m: int)
    requires s != []
    ensures m in s && forall x :: x in s ==> m <= x
  {
    if |s| == 1 then s[0]
    else
      var t := Min(s[1..]);
      assert forall x :: x in s ==> x == s[0] || x in s[1..];
      if s[0] <= t then s[0] else t
  }

  /** Of an ascending sequence the maximum is the last value and the minimum the first. */
  lemma AscendingMinMax(s: seq<int>)
    requires Ascending(s) && s != []
    ensures Max(s) == s[|s| - 1] && Min(s) == s[0]
  {
    AscendingMax(s, Max(s));
    assert s[0] in s && s[|s| - 1] in s;
  }

  /** No value repeats exactly when every value occurs at most once. */
  lemma {:induction false} NoDuplicatesCounts(s: seq<int>)
    ensures NoDuplicates(s) <==> forall x :: multiset(s)[x] <= 1
  {
    if s != [] {
      var p, y := s[..|s| - 1], s[|s| - 1];
      assert s == p + [y];
      NoDuplicatesCounts(p);
      NoDuplicatesSnoc(p, y);
      assert forall x :: multiset(s)[x] == multiset(p)[x] + (if x == y then 1 else 0);
      if y in p {
        assert multiset(p)[y] >= 1;
      }
    }
  }

  /** Rearranging a sequence keeps it free of repeats. */
  lemma NoDuplicatesPermutation(s: seq<int>, t: seq<int>)
    requires multiset(s) == multiset(t)
    ensures NoDuplicates(s) <==> NoDuplicates(t)
  {
    NoDuplicatesCounts(s);
    NoDuplicatesCounts(t);
  }

  lemma SumUnfold(c: seq<int>, i: nat)
    requires i < |c|
    ensures Sum(c[i..]) == c[i] + Sum(c[i + 1..])
  {
    assert c[i..][1..] == c[i + 1..];
  }

  /** Sum written out for up to five values. */
  lemma SumOfFew(c: seq<int>)
    requires |c| <= 5
    ensures |c| == 1 ==> Sum(c) == c[0]
    ensures |c| == 2 ==> Sum(c) == c[0] + c[1]
    ensures |c| == 3 ==> Sum(c) == c[0] + c[1] + c[2]
    ensures |c| == 4 ==> Sum(c) == c[0] + c[1] + c[2] + c[3]
    ensures |c| == 5 ==> Sum(c) == c[0] + c[1] + c[2] + c[3] + c[4]
  {
    var n := |c|;
    assert c[0..] == c && c[n..] == [];
    if n > 0 { SumUnfold(c, 0); }
    if n > 1 { SumUnfold(c, 1); }
    if n > 2 { SumUnfold(c, 2); }
    if n > 3 { SumUnfold(c, 3); }
    if n > 4 { SumUnfold(c, 4); }
  }

  lemma DedupHolds(s: seq<int>, i: nat)
    requires i < |s|
    ensures s[i] in Dedup(s)
  {
    DedupFacts(s);
    assert s[i] in s;
  }

  /** A sequence of one repeated value has that value as its only key. */
  lemma {:induction false} DedupConstant(s: seq<int>)
    requires s != [] && forall i :: 0 <= i < |s| ==> s[i] == s[0]
    ensures Dedup(s) == [s[0]]
  {
    var p := s[..|s| - 1];
    if p != [] {
      DedupConstant(p);
    }
  }

  /** The counts are the single count |s| exactly when every value equals the first. */
  lemma OneValueCounts(s: seq<int>)
    requires s != []
    ensures SortedCounts(s) == [|s|] <==> forall i :: 0 <= i < |s| ==> s[i] == s[0]
  {
    SortedCountsFacts(s);
    DedupFacts(s);
    var d := Dedup(s);
    if SortedCounts(s) == [|s|] {
      forall i | 0 <= i < |s|
        ensures s[i] == s[0]
      {
        DedupHolds(s, i);
        DedupHolds(s, 0);
        assert d == [d[0]];
      }
    }
    if forall i :: 0 <= i < |s| ==> s[i] == s[0] {
      DedupConstant(s);
      var c := SortedCounts(s);
      SumOfFew(c);
      assert c == [c[0]];
    }
  }
  /** Two values count as [2] exactly when they are equal. */
  lemma TwoValueCounts(s: seq<int>)
    requires |s| == 2
    ensures SortedCounts(s) == [2] <==> s[0] == s[1]
  {
    OneValueCounts(s);
  }


  /** How often a value of s occurs is one of the sorted counts. */
  lemma CountIsListed(s: seq<int>, x: int)
    requires x in s
    ensures multiset(s)[x] in SortedCounts(s)
  {
    DedupFacts(s);
    var d := Dedup(s);
    var k :| 0 <= k < |d| && d[k] == x;
    var cv := CountValues(s);
    assert cv[k] == multiset(s)[x];
    assert cv[k] in multiset(cv);
  }

  /** A value at two different positions occurs at least twice. */
  lemma TwoPositions(s: seq<int>, k: nat, m: nat)
    requires k < |s| && m < |s| && k != m && s[k] == s[m]
    ensures multiset(s)[s[k]] >= 2
  {
    var lo, hi := if k < m then k else m, if k < m then m else k;
    assert s == s[..hi] + s[hi..];
    assert s[lo] in s[..hi] && s[hi] in s[hi..];
  }

  /** Every sorted count is how often some value of s occurs. */
  lemma CountWitness(s: seq<int>, c: int) returns (x: int)
    requires c in SortedCounts(s)
    ensures x in s && multiset(s)[x] == c
  {
    DedupFacts(s);
    var d, cv := Dedup(s), CountValues(s);
    assert c in multiset(SortedCounts(s));
    var k :| 0 <= k < |cv| && cv[k] == c;
    x := d[k];
  }

  /** Two different values that occur equally often put that count twice among the sorted counts. */
  lemma TwoValuesCounted(s: seq<int>, x: int, y: int)
    requires x in s && y in s && x != y && multiset(s)[x] == multiset(s)[y]
    ensures multiset(SortedCounts(s))[multiset(s)[x]] >= 2
  {
    DedupFacts(s);
    var d, cv := Dedup(s), CountValues(s);
    var k :| 0 <= k < |d| && d[k] == x;
    var m :| 0 <= m < |d| && d[m] == y;
    TwoPositions(cv, k, m);
  }
}
