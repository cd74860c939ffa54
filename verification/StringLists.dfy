/** Lists of names kept as sorted sets: trimmed, without blanks or repetitions.
    Image lists, node names and URL lists all go through the same merge. */
module StringLists {
  import opened Text
  import opened Sorting

  /** The trimmed, non-blank values among the first `n`, each once. */
  function Uniq(values: seq<string>, n: nat): seq<string>
    requires n <= |values|
  {
    if n == 0 then []
    else
      var u := Uniq(values, n - 1);
      var t := Trim(values[n - 1]);
      if t == "" || t in u then u else u + [t]
  }

  function MergeOf(a: seq<string>, b: seq<string>): seq<string> {
    SortStrings(Uniq(a + b, |a + b|))
  }

  method MergeStrings(a: seq<string>, b: seq<string>) returns (out: seq<string>)
    ensures out == MergeOf(a, b)
  {
    hide Trim, SortStrings;
    var seen: set<string> := {};
    out := [];
    var values := a + b;
    for i := 0 to |values|
      invariant out == Uniq(values, i)
      invariant forall x :: x in seen <==> x in out
    {
      var value := Trim(values[i]);
      if value == "" { continue; }
      if value in seen { continue; }
      seen := seen + {value};
      out := out + [value];
    }
    out := SortStrings(out);
  }

  /** `value` occurs in `values`, up to white space around it. */
  ghost predicate Occurs(values: seq<string>, value: string) {
    value != "" && exists v <- values :: Trim(v) == value
  }

  lemma NothingOccurs(x: string)
    ensures !Occurs([], x)
  {
  }

  lemma {:induction false} UniqSpec(values: seq<string>, n: nat)
    requires n <= |values|
    ensures Sorting.Distinct(Uniq(values, n))
    ensures forall x :: x in Uniq(values, n) <==> Occurs(values[..n], x)
  {
    hide Trim;
    if n > 0 {
      UniqSpec(values, n - 1);
      var t := Trim(values[n - 1]);
      assert values[..n] == values[..n - 1] + [values[n - 1]];
      forall x ensures Occurs(values[..n], x) <==> Occurs(values[..n - 1], x) || (x != "" && x == t) {
        if Occurs(values[..n - 1], x) {
          var v :| v in values[..n - 1] && Trim(v) == x;
          assert v in values[..n];
        }
        if x == t { assert values[n - 1] in values[..n]; }
      }
    }
  }

  /** Merging gives the union, trimmed, sorted and without repetitions. */
  lemma MergeSpec(a: seq<string>, b: seq<string>)
    ensures StrictlySorted(MergeOf(a, b))
    ensures forall x :: x in MergeOf(a, b) <==> Occurs(a, x) || Occurs(b, x)
  {
    hide Trim, SortStrings;
    var values := a + b;
    UniqSpec(values, |values|);
    SortStringsSpec(Uniq(values, |values|));
    assert values[..|values|] == values;
    forall x ensures Occurs(values, x) <==> Occurs(a, x) || Occurs(b, x) {
      if Occurs(a, x) { var v :| v in a && Trim(v) == x; assert v in values; }
      if Occurs(b, x) { var v :| v in b && Trim(v) == x; assert v in values; }
    }
  }

  /** A list as merging leaves it. */
  ghost predicate CleanList(images: seq<string>) {
    StrictlySorted(images) && forall x <- images :: x != "" && Trimmed(x)
  }

  lemma OccursInClean(images: seq<string>, x: string)
    requires CleanList(images)
    ensures Occurs(images, x) <==> x in images
  {
    if x in images { assert Trim(x) == x; }
  }

  lemma MergeIsClean(a: seq<string>, b: seq<string>)
    ensures CleanList(MergeOf(a, b))
  {
    hide MergeOf;
    MergeSpec(a, b);
    forall x | x in MergeOf(a, b) ensures x != "" && Trimmed(x) {
      assert Occurs(a, x) || Occurs(b, x);
      var v :| (v in a || v in b) && Trim(v) == x;
      TrimTrims(v);
    }
  }

  /** Merging in images that are all there already changes nothing. */
  lemma MergeAbsorbs(a: seq<string>, b: seq<string>)
    requires CleanList(a) && CleanList(b) && forall x <- b :: x in a
    ensures MergeOf(a, b) == a
  {
    hide MergeOf;
    MergeSpec(a, b);
    forall x ensures x in MergeOf(a, b) <==> x in a {
      OccursInClean(a, x);
      OccursInClean(b, x);
    }
    StrictlySortedUnique(MergeOf(a, b), a);
  }

  /** A clean list is left as it is. */
  lemma MergeFixes(a: seq<string>)
    requires CleanList(a)
    ensures MergeOf([], a) == a
  {
    hide SortStrings, Uniq, Trim, Less;
    assert [] + a == a + [];
    MergeAbsorbs(a, []);
  }

  lemma UniqClean(values: seq<string>, n: nat)
    requires n <= |values|
    ensures Sorting.Distinct(Uniq(values, n)) && forall x <- Uniq(values, n) :: x != "" && Trimmed(x)
  {
    hide Trim;
    UniqSpec(values, n);
    forall x <- Uniq(values, n) ensures x != "" && Trimmed(x) {
      assert Occurs(values[..n], x);
      var v :| v in values[..n] && Trim(v) == x;
      TrimTrims(v);
    }
  }

  lemma {:induction false} UniqFixes(values: seq<string>, n: nat)
    requires n <= |values| && Sorting.Distinct(values) && forall x <- values :: x != "" && Trimmed(x)
    ensures Uniq(values, n) == values[..n]
  {
    hide Trim;
    if n > 0 {
      UniqFixes(values, n - 1);
      assert values[n - 1] in values;
      assert values[..n] == values[..n - 1] + [values[n - 1]];
    }
  }
}
