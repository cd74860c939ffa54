/** Models of the library sorts the code calls: `sort.SliceStable` over an
    arbitrary "comes before" relation, and `sort.Strings`.  The stable sort is
    tied to a sort-free reference, the rank of an element in its input. */
module Sorting {
  import opened Text

  /** What Go asks of a `less` function. */
  ghost predicate StrictWeakOrder<T(!new)>(before: (T, T) -> bool) {
    && (forall x :: !before(x, x))
    && (forall x, y, z {:trigger before(x, y), before(y, z)} :: before(x, y) && before(y, z) ==> before(x, z))
    && (forall x, y, z {:trigger before(x, z), before(y, x)} {:trigger before(x, z), before(y, z)} ::
          before(x, z) ==> before(x, y) || before(y, z))
  }

  function Insert<T>(x: T, s: seq<T>, before: (T, T) -> bool): seq<T> {
    if s != [] && before(s[0], x) then [s[0]] + Insert(x, s[1..], before) else [x] + s
  }

  /** `sort.SliceStable`: elements that the order does not separate keep their
      input order. */
  function StableSort<T>(s: seq<T>, before: (T, T) -> bool): seq<T> {
    if s == [] then [] else Insert(s[0], StableSort(s[1..], before), before)
  }

  ghost predicate SortedBy<T>(s: seq<T>, before: (T, T) -> bool) {
    forall i, j :: 0 <= i < j < |s| ==> !before(s[j], s[i])
  }

  ghost predicate Distinct<T>(s: seq<T>) {
    forall i, j :: 0 <= i < j < |s| ==> s[i] != s[j]
  }

  lemma {:induction false} InsertContents<T>(x: T, s: seq<T>, before: (T, T) -> bool)
    ensures |Insert(x, s, before)| == |s| + 1
    ensures multiset(Insert(x, s, before)) == multiset(s) + multiset{x}
  {
    if s != [] && before(s[0], x) {
      InsertContents(x, s[1..], before);
      assert s == [s[0]] + s[1..];
    }
  }

  lemma {:induction false} SortContents<T>(s: seq<T>, before: (T, T) -> bool)
    ensures |StableSort(s, before)| == |s|
    ensures multiset(StableSort(s, before)) == multiset(s)
  {
    if s != [] {
      SortContents(s[1..], before);
      InsertContents(s[0], StableSort(s[1..], before), before);
      assert s == [s[0]] + s[1..];
    }
  }

  lemma SameMembers<T>(a: seq<T>, b: seq<T>)
    requires multiset(a) == multiset(b)
    ensures forall x :: x in a <==> x in b
  {
    forall x ensures x in a <==> x in b {
      assert x in multiset(a) <==> x in a;
      assert x in multiset(b) <==> x in b;
    }
  }

  lemma {:induction false} InsertSorted<T(!new)>(x: T, s: seq<T>, before: (T, T) -> bool)
    requires StrictWeakOrder(before) && SortedBy(s, before)
    ensures SortedBy(Insert(x, s, before), before)
  {
    var r := Insert(x, s, before);
    if s != [] && before(s[0], x) {
      InsertSorted(x, s[1..], before);
      InsertContents(x, s[1..], before);
      forall j | 0 < j < |r| ensures !before(r[j], r[0]) {
        assert r[j] in multiset(Insert(x, s[1..], before));
        if r[j] == x {
        } else {
          assert r[j] in s[1..];
        }
      }
    } else if s != [] {
      forall j | 0 < j < |r| ensures !before(r[j], r[0]) {
        assert r[j] == s[j - 1];
      }
    }
  }

  lemma {:induction false} SortSorts<T(!new)>(s: seq<T>, before: (T, T) -> bool)
    requires StrictWeakOrder(before)
    ensures SortedBy(StableSort(s, before), before)
  {
    if s != [] {
      SortSorts(s[1..], before);
      InsertSorted(s[0], StableSort(s[1..], before), before);
    }
  }

  // ---- position in the sorted list == rank in the input ----

  /** How many of the first `n` elements of `s` go in front of element `i`. */
  function RankUpTo<T>(s: seq<T>, i: nat, before: (T, T) -> bool, n: nat): nat
    requires i < |s| && n <= |s|
  {
    if n == 0 then 0
    else RankUpTo(s, i, before, n - 1) +
         (if before(s[n - 1], s[i]) || (n - 1 < i && !before(s[i], s[n - 1])) then 1 else 0)
  }

  /** The number of elements that a stable sort puts in front of element `i`:
      those strictly before it, and the earlier ones that tie with it. */
  function Rank<T>(s: seq<T>, i: nat, before: (T, T) -> bool): nat
    requires i < |s|
  {
    RankUpTo(s, i, before, |s|)
  }

  function IndexOf<T(==)>(s: seq<T>, x: T): (p: nat)
    ensures p <= |s|
    ensures x in s ==> p < |s| && s[p] == x
    ensures x !in s ==> p == |s|
    ensures forall q :: 0 <= q < p ==> s[q] != x
  {
    if s == [] then 0 else if s[0] == x then 0 else 1 + IndexOf(s[1..], x)
  }

  lemma {:induction false} RankTail<T>(s: seq<T>, i: nat, before: (T, T) -> bool, n: nat)
    requires 0 < i < |s| && 1 <= n <= |s|
    ensures RankUpTo(s, i, before, n) ==
            RankUpTo(s[1..], i - 1, before, n - 1) + (if before(s[0], s[i]) || !before(s[i], s[0]) then 1 else 0)
  {
    if n == 1 {
      assert RankUpTo(s, i, before, 0) == 0;
    } else {
      RankTail(s, i, before, n - 1);
      assert s[1..][n - 2] == s[n - 1] && s[1..][i - 1] == s[i];
    }
  }

  lemma NoneBeforeHead<T(!new)>(a: T, s: seq<T>, before: (T, T) -> bool, x: T)
    requires StrictWeakOrder(before) && SortedBy(s, before) && x in s && !before(s[0], a)
    ensures !before(x, a)
  {
    var i :| 0 <= i < |s| && s[i] == x;
    var head := s[0];
    assert before(x, a) ==> before(x, head) || before(head, a);
  }

  lemma SortedTail<T>(s: seq<T>, before: (T, T) -> bool)
    requires SortedBy(s, before) && s != []
    ensures SortedBy(s[1..], before)
  {
  }

  lemma {:induction false} IndexAfterInsert<T(!new)>(a: T, s: seq<T>, before: (T, T) -> bool, x: T)
    requires StrictWeakOrder(before) && SortedBy(s, before) && x in s && x != a && a !in s
    ensures IndexOf(Insert(a, s, before), x) == IndexOf(s, x) + (if before(x, a) then 0 else 1)
  {
    hide StrictWeakOrder, SortedBy;
    if before(s[0], a) {
      var r := Insert(a, s[1..], before);
      assert Insert(a, s, before) == [s[0]] + r;
      if s[0] != x {
        assert s == [s[0]] + s[1..];
        SortedTail(s, before);
        IndexAfterInsert(a, s[1..], before, x);
      }
    } else {
      assert ([a] + s)[1..] == s;
      NoneBeforeHead(a, s, before, x);
    }
  }

  lemma {:induction false} IndexOfInserted<T(!new)>(a: T, t: seq<T>, s: seq<T>, before: (T, T) -> bool)
    requires StrictWeakOrder(before) && s == StableSort(t, before) && a !in t
    ensures IndexOf(Insert(a, s, before), a) == RankUpTo([a] + t, 0, before, |t| + 1)
  {
    SortSorts(t, before);
    SortContents(t, before);
    CountBefore(a, t, before, |t|);
    assert t[..|t|] == t;
    CountPermuted(a, s, t, before);
    SameMembers(s, t);
    InsertPosition(a, s, before);
  }

  /** The number of elements of `s` strictly before `a`. */
  function CountLess<T>(a: T, s: seq<T>, before: (T, T) -> bool): nat {
    if s == [] then 0 else (if before(s[0], a) then 1 else 0) + CountLess(a, s[1..], before)
  }

  lemma {:induction false} CountBefore<T(!new)>(a: T, t: seq<T>, before: (T, T) -> bool, n: nat)
    requires n <= |t| && !before(a, a)
    ensures RankUpTo([a] + t, 0, before, n + 1) == CountLess(a, t[..n], before)
  {
    if n == 0 {
      assert RankUpTo([a] + t, 0, before, 0) == 0;
      assert ([a] + t)[0] == a;
    } else {
      CountBefore(a, t, before, n - 1);
      CountAppend(a, t[..n - 1], t[n - 1], before);
      assert t[..n] == t[..n - 1] + [t[n - 1]];
      assert ([a] + t)[n] == t[n - 1];
    }
  }

  lemma {:induction false} CountAppend<T>(a: T, s: seq<T>, y: T, before: (T, T) -> bool)
    ensures CountLess(a, s + [y], before) == CountLess(a, s, before) + (if before(y, a) then 1 else 0)
  {
    if s != [] {
      CountAppend(a, s[1..], y, before);
      assert (s + [y])[1..] == s[1..] + [y];
    }
  }

  lemma {:induction false} CountInsert<T>(a: T, y: T, s: seq<T>, before: (T, T) -> bool)
    ensures CountLess(a, Insert(y, s, before), before) == CountLess(a, s, before) + (if before(y, a) then 1 else 0)
  {
    if s != [] && before(s[0], y) {
      CountInsert(a, y, s[1..], before);
      assert Insert(y, s, before)[1..] == Insert(y, s[1..], before);
    } else {
      assert ([y] + s)[1..] == s;
    }
  }

  lemma {:induction false} CountPermuted<T>(a: T, s: seq<T>, t: seq<T>, before: (T, T) -> bool)
    requires s == StableSort(t, before)
    decreases |t|
    ensures CountLess(a, s, before) == CountLess(a, t, before)
  {
    if t != [] {
      var s' := StableSort(t[1..], before);
      CountPermuted(a, s', t[1..], before);
      CountInsert(a, t[0], s', before);
    }
  }

  lemma {:induction false} InsertPosition<T(!new)>(a: T, s: seq<T>, before: (T, T) -> bool)
    requires StrictWeakOrder(before) && SortedBy(s, before) && a !in s
    ensures IndexOf(Insert(a, s, before), a) == CountLess(a, s, before)
  {
    if s != [] && before(s[0], a) {
      InsertPosition(a, s[1..], before);
      assert Insert(a, s, before)[1..] == Insert(a, s[1..], before);
    } else {
      NoneBefore(a, s, before);
    }
  }

  lemma {:induction false} NoneBefore<T(!new)>(a: T, s: seq<T>, before: (T, T) -> bool)
    requires StrictWeakOrder(before) && SortedBy(s, before)
    requires s == [] || !before(s[0], a)
    ensures CountLess(a, s, before) == 0
  {
    if |s| > 1 {
      NoneBefore(a, s[1..], before);
    }
  }

  lemma Asymmetric<T(!new)>(before: (T, T) -> bool, x: T, y: T)
    requires StrictWeakOrder(before)
    ensures !(before(x, y) && before(y, x))
  {
  }

  /** A stable sort puts every element exactly at its rank. */
  lemma {:induction false} SortedPositionIsRank<T(!new)>(s: seq<T>, i: nat, before: (T, T) -> bool)
    requires StrictWeakOrder(before) && Distinct(s) && i < |s|
    ensures IndexOf(StableSort(s, before), s[i]) == Rank(s, i, before)
  {
    hide Insert, IndexOf, RankUpTo, SortedBy, StrictWeakOrder;
    var t := s[1..];
    var sorted := StableSort(t, before);
    SortContents(t, before);
    SameMembers(sorted, t);
    SortSorts(t, before);
    assert s == [s[0]] + t;
    if i == 0 {
      IndexOfInserted(s[0], t, sorted, before);
    } else {
      assert t[i - 1] == s[i];
      SortedPositionIsRank(t, i - 1, before);
      IndexAfterInsert(s[0], sorted, before, s[i]);
      RankTail(s, i, before, |s|);
      Asymmetric(before, s[0], s[i]);
    }
  }

  // ---- the same for lists with repetitions, by sorting positions ----

  function Numbers(n: nat): (r: seq<nat>)
    ensures |r| == n && forall k :: 0 <= k < n ==> r[k] == k
  {
    seq(n, k requires 0 <= k < n => k)
  }

  /** Element `k`; positions outside the list stand for the first one. */
  function At<T>(s: seq<T>, k: nat): T
    requires s != []
  {
    s[if k < |s| then k else 0]
  }

  function AtAll<T>(s: seq<T>, order: seq<nat>): (r: seq<T>)
    requires s != []
    ensures |r| == |order| && forall p :: 0 <= p < |r| ==> r[p] == At(s, order[p])
  {
    seq(|order|, p requires 0 <= p < |order| => At(s, order[p]))
  }

  /** The order on positions. */
  function ByElement<T>(s: seq<T>, before: (T, T) -> bool): (nat, nat) -> bool
    requires s != []
  {
    (i: nat, j: nat) => before(At(s, i), At(s, j))
  }

  lemma ByElementIs<T>(s: seq<T>, before: (T, T) -> bool, i: nat, j: nat)
    requires i < |s| && j < |s|
    ensures ByElement(s, before)(i, j) == before(s[i], s[j])
  {
    assert At(s, i) == s[i] && At(s, j) == s[j];
  }

  lemma {:induction false} InsertAtAll<T>(s: seq<T>, k: nat, order: seq<nat>, before: (T, T) -> bool)
    requires s != []
    ensures Insert(At(s, k), AtAll(s, order), before) == AtAll(s, Insert(k, order, ByElement(s, before)))
  {
    hide At;
    if order != [] {
      assert AtAll(s, order)[1..] == AtAll(s, order[1..]);
      InsertAtAll(s, k, order[1..], before);
    }
  }

  lemma {:induction false} SortAtAll<T>(s: seq<T>, order: seq<nat>, before: (T, T) -> bool)
    requires s != []
    ensures StableSort(AtAll(s, order), before) == AtAll(s, StableSort(order, ByElement(s, before)))
  {
    hide At, Insert;
    if order != [] {
      assert AtAll(s, order)[1..] == AtAll(s, order[1..]);
      SortAtAll(s, order[1..], before);
      InsertAtAll(s, order[0], StableSort(order[1..], ByElement(s, before)), before);
    }
  }

  lemma {:induction false} RankOfNumbers<T>(s: seq<T>, i: nat, before: (T, T) -> bool, n: nat)
    requires i < |s| && n <= |s|
    ensures RankUpTo(Numbers(|s|), i, ByElement(s, before), n) == RankUpTo(s, i, before, n)
  {
    if n > 0 {
      RankOfNumbers(s, i, before, n - 1);
      ByElementIs(s, before, n - 1, i);
      ByElementIs(s, before, i, n - 1);
    }
  }

  lemma OrderOfPositions<T(!new)>(s: seq<T>, before: (T, T) -> bool)
    requires s != [] && StrictWeakOrder(before)
    ensures StrictWeakOrder(ByElement(s, before))
  {
    hide At;
    var lt := ByElement(s, before);
    forall x ensures !lt(x, x) { assert !before(At(s, x), At(s, x)); }
    forall x, y, z | lt(x, y) && lt(y, z) ensures lt(x, z) {
      assert before(At(s, x), At(s, y)) && before(At(s, y), At(s, z));
    }
    forall x, y, z | lt(x, z) ensures lt(x, y) || lt(y, z) {
      assert before(At(s, x), At(s, z));
      assert before(At(s, x), At(s, y)) || before(At(s, y), At(s, z));
    }
  }

  /** A stable sort of any list puts element `i` at its rank, and every place is the
      rank of some element. */
  lemma SortedAtRank<T(!new)>(s: seq<T>, i: nat, before: (T, T) -> bool)
    requires StrictWeakOrder(before) && i < |s|
    ensures Rank(s, i, before) < |StableSort(s, before)| == |s|
    ensures StableSort(s, before)[Rank(s, i, before)] == s[i]
  {
    hide Insert, StableSort, RankUpTo, StrictWeakOrder, IndexOf;
    SortContents(s, before);
    SortedOrder(s, before);
    SortedPosition(s, i, before);
  }

  lemma SortedPosition<T(!new)>(s: seq<T>, i: nat, before: (T, T) -> bool)
    requires StrictWeakOrder(before) && i < |s|
    ensures
      var order := StableSort(Numbers(|s|), ByElement(s, before));
      |order| == |s| && Rank(s, i, before) < |s| && order[Rank(s, i, before)] == i
  {
    hide Insert, StableSort, RankUpTo, StrictWeakOrder;
    var order := StableSort(Numbers(|s|), ByElement(s, before));
    OrderOfPositions(s, before);
    SortContents(Numbers(|s|), ByElement(s, before));
    SameMembers(order, Numbers(|s|));
    SortedPositionIsRank(Numbers(|s|), i, ByElement(s, before));
    RankOfNumbers(s, i, before, |s|);
    assert Numbers(|s|)[i] in order;
  }

  lemma SortedOrder<T>(s: seq<T>, before: (T, T) -> bool)
    requires s != []
    ensures StableSort(s, before) == AtAll(s, StableSort(Numbers(|s|), ByElement(s, before)))
  {
    hide StableSort;
    assert AtAll(s, Numbers(|s|)) == s;
    SortAtAll(s, Numbers(|s|), before);
  }

  lemma EveryPlaceIsARank<T(!new)>(s: seq<T>, p: nat, before: (T, T) -> bool) returns (i: nat)
    requires StrictWeakOrder(before) && p < |s|
    ensures i < |s| && Rank(s, i, before) == p
  {
    hide Insert, StableSort, RankUpTo, StrictWeakOrder;
    var order := StableSort(Numbers(|s|), ByElement(s, before));
    SortContents(Numbers(|s|), ByElement(s, before));
    SameMembers(order, Numbers(|s|));
    assert order[p] in order;
    i := order[p];
    SortedPosition(s, i, before);
    DistinctNumbers(|s|);
    DistinctPermuted(Numbers(|s|), order);
  }

  lemma DistinctNumbers(n: nat)
    ensures Distinct(Numbers(n))
  {
  }

  // ---- sort.Strings ----

  function SortStrings(s: seq<string>): seq<string> {
    StableSort(s, Less)
  }

  /** Sorted without repetition. */
  ghost predicate StrictlySorted(s: seq<string>) {
    forall i, j :: 0 <= i < j < |s| ==> Less(s[i], s[j])
  }

  lemma LessIsStrictWeakOrder()
    ensures StrictWeakOrder(Less)
  {
    var lt := Less;
    forall x ensures !lt(x, x) { LessIrreflexive(x); }
    forall x, y, z | lt(x, y) && lt(y, z) ensures lt(x, z) { LessTransitive(x, y, z); }
    forall x, y, z | lt(x, z) ensures lt(x, y) || lt(y, z) {
      LessTotal(x, y);
      LessTotal(y, z);
      if !lt(x, y) && !lt(y, z) {
        if x == y || y == z {
        } else {
          LessTransitive(z, y, x);
          LessTransitive(x, z, x);
          LessIrreflexive(x);
        }
      }
    }
  }

  /** Sorting a list without repetitions gives a strictly increasing list of
      the same strings. */
  lemma SortStringsSpec(s: seq<string>)
    ensures |SortStrings(s)| == |s| && multiset(SortStrings(s)) == multiset(s)
    ensures forall x :: x in SortStrings(s) <==> x in s
    ensures Distinct(s) ==> StrictlySorted(SortStrings(s))
  {
    var lt := Less;
    var r := SortStrings(s);
    SortContents(s, lt);
    SameMembers(r, s);
    LessIsStrictWeakOrder();
    SortSorts(s, lt);
    if Distinct(s) {
      DistinctPermuted(s, r);
      forall i, j | 0 <= i < j < |r| ensures Less(r[i], r[j]) {
        assert !lt(r[j], r[i]);
        LessTotal(r[i], r[j]);
      }
    }
  }

  lemma {:induction false} DistinctCounts<T>(s: seq<T>)
    ensures Distinct(s) <==> forall x :: multiset(s)[x] <= 1
  {
    if s != [] {
      var t := s[1..];
      DistinctCounts(t);
      assert s == [s[0]] + t;
      assert multiset(s) == multiset{s[0]} + multiset(t);
      if Distinct(s) {
        assert s[0] !in t;
        assert multiset(t)[s[0]] == 0;
      }
      if forall x :: multiset(s)[x] <= 1 {
        forall x ensures multiset(t)[x] <= 1 { assert multiset(s)[x] <= 1; }
        assert multiset(s)[s[0]] <= 1;
        assert s[0] !in multiset(t);
        forall i, j | 0 <= i < j < |s| ensures s[i] != s[j] {
          if i == 0 { assert s[j] == t[j - 1]; assert t[j - 1] in multiset(t); }
          else { assert s[i] == t[i - 1] && s[j] == t[j - 1]; }
        }
      }
    }
  }

  lemma DistinctPermuted<T>(s: seq<T>, r: seq<T>)
    requires multiset(s) == multiset(r) && Distinct(s)
    ensures Distinct(r)
  {
    DistinctCounts(s);
    DistinctCounts(r);
  }

  /** A strictly increasing list is determined by its set of elements. */
  lemma {:induction false} StrictlySortedUnique(a: seq<string>, b: seq<string>)
    requires StrictlySorted(a) && StrictlySorted(b)
    requires forall x :: x in a <==> x in b
    ensures a == b
  {
    assert a != [] ==> a[0] in b;
    assert b != [] ==> b[0] in a;
    if a != [] {
      FirstIsLeast(a, b);
      FirstIsLeast(b, a);
      if a[0] != b[0] {
        LessTransitive(a[0], b[0], a[0]);
        LessIrreflexive(a[0]);
        assert false;
      }
      forall x ensures x in a[1..] <==> x in b[1..] {
        TailMember(a, x);
        TailMember(b, x);
      }
      StrictlySortedUnique(a[1..], b[1..]);
      assert a == [a[0]] + a[1..] && b == [b[0]] + b[1..];
    }
  }

  lemma FirstIsLeast(a: seq<string>, b: seq<string>)
    requires StrictlySorted(a) && a != [] && b != [] && b[0] in a
    ensures a[0] == b[0] || Less(a[0], b[0])
  {
    var i :| 0 <= i < |a| && a[i] == b[0];
  }

  lemma TailMember(a: seq<string>, x: string)
    requires StrictlySorted(a) && a != []
    ensures x in a[1..] <==> x in a && x != a[0]
  {
    if x in a[1..] {
      var i :| 0 <= i < |a[1..]| && a[1..][i] == x;
      assert a[i + 1] == x;
      LessIrreflexive(x);
    }
    if x in a && x != a[0] {
      var i :| 0 <= i < |a| && a[i] == x;
      assert a[1..][i - 1] == x;
    }
  }
}
