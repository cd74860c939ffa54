/** The retention window of disk care: which releases of each environment are
    worth keeping.  The code sorts each environment's records by time; here the
    result is tied to counting, for each record, how many go ahead of it. */
module Retention {
  import opened Text
  import opened Sorting
  import opened ReleaseLogs

  predicate Newer(a: Release, b: Release) {
    a.seenAt > b.seenAt
  }

  lemma NewerIsStrictWeakOrder()
    ensures StrictWeakOrder(Newer)
  {
  }

  function EnvOf(r: Release): string {
    Trim(r.environment)
  }

  /** Record `j` is of the environment of record `i` and newer, or as new and
      earlier in the log. */
  predicate Precedes(releases: seq<Release>, j: nat, i: nat)
    requires i < |releases| && j < |releases|
  {
    && EnvOf(releases[j]) == EnvOf(releases[i])
    && (Newer(releases[j], releases[i]) || (j < i && !Newer(releases[i], releases[j])))
  }

  /** The records, among the first `n`, that go ahead of record `i`. */
  function AheadUpTo(releases: seq<Release>, i: nat, n: nat): set<nat>
    requires i < |releases| && n <= |releases|
  {
    set j: nat | j < n && Precedes(releases, j, i)
  }

  function Ahead(releases: seq<Release>, i: nat): set<nat>
    requires i < |releases|
  {
    AheadUpTo(releases, i, |releases|)
  }

  /** The release with this key is recorded, with fewer than `keep` records of its
      environment ahead of it. */
  ghost predicate Recent(releases: seq<Release>, keep: int, key: string) {
    exists i: nat :: i < |releases| && KeyOf(releases[i]) == key && |Ahead(releases, i)| < keep
  }

  /** The releases that survive: the recent ones and the current ones. */
  ghost predicate Keeps(releases: seq<Release>, current: seq<Release>, keep: int, key: string) {
    HasKey(current, key) || Recent(releases, keep, key)
  }

  // ---- one environment's records ----

  /** The records of `env` among the first `n`. */
  function EnvUpTo(releases: seq<Release>, env: string, n: nat): seq<Release>
    requires n <= |releases|
  {
    if n == 0 then []
    else EnvUpTo(releases, env, n - 1) + (if EnvOf(releases[n - 1]) == env then [releases[n - 1]] else [])
  }

  function EnvRecords(releases: seq<Release>, env: string): seq<Release> {
    EnvUpTo(releases, env, |releases|)
  }

  lemma {:induction false} EnvPrefix(releases: seq<Release>, env: string, n: nat, m: nat)
    requires n <= m <= |releases|
    ensures EnvUpTo(releases, env, n) <= EnvUpTo(releases, env, m)
  {
    hide EnvOf;
    if n < m { EnvPrefix(releases, env, n, m - 1); }
  }

  lemma {:induction false} EnvMembers(releases: seq<Release>, env: string, n: nat)
    requires n <= |releases|
    ensures forall r <- EnvUpTo(releases, env, n) :: r in releases[..n] && EnvOf(r) == env
  {
    hide EnvOf;
    if n > 0 { EnvMembers(releases, env, n - 1); }
  }

  lemma {:induction false} EnvDistinct(releases: seq<Release>, env: string, n: nat)
    requires n <= |releases| && DistinctKeys(releases)
    ensures DistinctKeys(EnvUpTo(releases, env, n))
  {
    hide EnvOf, KeyOf;
    if n > 0 {
      EnvDistinct(releases, env, n - 1);
      EnvMembers(releases, env, n - 1);
      forall r <- EnvUpTo(releases, env, n - 1) ensures KeyOf(r) != KeyOf(releases[n - 1]) {
        var j :| 0 <= j < n - 1 && releases[j] == r;
        assert KeyOf(releases[j]) != KeyOf(releases[n - 1]);
      }
    }
  }

  /** Where record `p` of an environment stands in the log. */
  lemma {:induction false} EnvSource(releases: seq<Release>, env: string, n: nat, p: nat) returns (i: nat)
    requires n <= |releases| && p < |EnvUpTo(releases, env, n)|
    ensures i < n && EnvOf(releases[i]) == env && p == |EnvUpTo(releases, env, i)|
    ensures EnvUpTo(releases, env, n)[p] == releases[i]
  {
    hide EnvOf;
    if p < |EnvUpTo(releases, env, n - 1)| {
      i := EnvSource(releases, env, n - 1, p);
    } else {
      i := n - 1;
    }
  }

  lemma EnvTarget(releases: seq<Release>, i: nat)
    requires i < |releases|
    ensures
      var env := EnvOf(releases[i]);
      |EnvUpTo(releases, env, i)| < |EnvRecords(releases, env)| &&
      EnvRecords(releases, env)[|EnvUpTo(releases, env, i)|] == releases[i]
  {
    hide EnvOf;
    EnvPrefix(releases, EnvOf(releases[i]), i + 1, |releases|);
  }

  // ---- position in the sorted records == number of releases ahead ----

  lemma AheadStep(releases: seq<Release>, i: nat, n: nat)
    requires i < |releases| && n < |releases|
    ensures |AheadUpTo(releases, i, n + 1)| == |AheadUpTo(releases, i, n)| + (if Precedes(releases, n, i) then 1 else 0)
  {
    hide Precedes;
    var was := AheadUpTo(releases, i, n);
    if Precedes(releases, n, i) {
      assert AheadUpTo(releases, i, n + 1) == was + {n};
    } else {
      assert AheadUpTo(releases, i, n + 1) == was;
    }
  }

  lemma {:induction false} RankIsAhead(releases: seq<Release>, i: nat, n: nat)
    requires i < |releases| && n <= |releases|
    requires var env := EnvOf(releases[i]); |EnvUpTo(releases, env, i)| < |EnvRecords(releases, env)|
    requires var env := EnvOf(releases[i]); |EnvUpTo(releases, env, n)| <= |EnvRecords(releases, env)|
    ensures
      var env := EnvOf(releases[i]);
      RankUpTo(EnvRecords(releases, env), |EnvUpTo(releases, env, i)|, Newer, |EnvUpTo(releases, env, n)|)
      == |AheadUpTo(releases, i, n)|
  {
    hide EnvOf, AheadUpTo;
    var env := EnvOf(releases[i]);
    if n == 0 {
      NoneAhead(releases, i);
    } else {
      EnvPrefix(releases, env, n - 1, n);
      RankIsAhead(releases, i, n - 1);
      AheadStep(releases, i, n - 1);
      EnvTarget(releases, i);
      if EnvOf(releases[n - 1]) == env {
        EnvTarget(releases, n - 1);
        if n - 1 < i { EnvPrefix(releases, env, n, i); } else { EnvPrefix(releases, env, i, n - 1); }
      }
    }
  }

  lemma NoneAhead(releases: seq<Release>, i: nat)
    requires i < |releases|
    ensures AheadUpTo(releases, i, 0) == {}
  {
  }

  /** Sorting an environment's records newest first puts every record behind
      exactly as many as go ahead of it in the log. */
  lemma PositionIsAhead(releases: seq<Release>, i: nat)
    requires i < |releases|
    ensures
      var sorted := StableSort(EnvRecords(releases, EnvOf(releases[i])), Newer);
      |Ahead(releases, i)| < |sorted| && sorted[|Ahead(releases, i)|] == releases[i]
  {
    hide EnvOf, Precedes, StableSort, StrictWeakOrder, RankUpTo, AheadUpTo;
    var env := EnvOf(releases[i]);
    EnvTarget(releases, i);
    NewerIsStrictWeakOrder();
    SortedAtRank(EnvRecords(releases, env), |EnvUpTo(releases, env, i)|, Newer);
    RankIsAhead(releases, i, |releases|);
  }

  /** ... and every place is taken by a record with as many ahead. */
  lemma PlaceIsTaken(releases: seq<Release>, env: string, p: nat) returns (i: nat)
    requires p < |StableSort(EnvRecords(releases, env), Newer)|
    ensures i < |releases| && EnvOf(releases[i]) == env && |Ahead(releases, i)| == p
  {
    hide EnvOf, Precedes, StableSort, StrictWeakOrder, RankUpTo, AheadUpTo;
    var records := EnvRecords(releases, env);
    NewerIsStrictWeakOrder();
    SortContents(records, Newer);
    var q := EveryPlaceIsARank(records, p, Newer);
    i := EnvSource(releases, env, |releases|, q);
    EnvTarget(releases, i);
    RankIsAhead(releases, i, |releases|);
  }

  /** One of the first `keep` of the environment's records, newest first. */
  ghost predicate InWindow(records: seq<Release>, keep: int, key: string) {
    exists p :: 0 <= p < |records| && p < keep && KeyOf(records[p]) == key
  }

  lemma DistinctOf(releases: seq<Release>)
    requires DistinctKeys(releases)
    ensures Sorting.Distinct(releases)
  {
    hide KeyOf;
  }

  lemma SortedRecords(releases: seq<Release>, env: string)
    requires DistinctKeys(releases)
    ensures
      var sorted := StableSort(EnvRecords(releases, env), Newer);
      && Sorting.Distinct(sorted) && |sorted| == |EnvRecords(releases, env)|
      && forall r :: r in sorted <==> r in EnvRecords(releases, env)
  {
    hide KeyOf, EnvOf, DistinctKeys, Sorting.Distinct;
    var records := EnvRecords(releases, env);
    EnvDistinct(releases, env, |releases|);
    DistinctOf(records);
    SortContents(records, Newer);
    DistinctPermuted(records, StableSort(records, Newer));
    SameMembers(StableSort(records, Newer), records);
  }

  /** Record `i` is of environment `env` and has fewer than `keep` ahead. */
  ghost predicate RecentIn(releases: seq<Release>, keep: int, env: string, key: string, i: nat)
    requires i < |releases|
  {
    EnvOf(releases[i]) == env && KeyOf(releases[i]) == key && |Ahead(releases, i)| < keep
  }

  lemma WindowIsRecent(releases: seq<Release>, env: string, keep: int, key: string)
    ensures InWindow(StableSort(EnvRecords(releases, env), Newer), keep, key) <==>
            exists i: nat :: i < |releases| && RecentIn(releases, keep, env, key, i)
  {
    hide KeyOf, EnvOf, StableSort, Ahead, EnvUpTo;
    var sorted := StableSort(EnvRecords(releases, env), Newer);
    if InWindow(sorted, keep, key) {
      var p :| 0 <= p < |sorted| && p < keep && KeyOf(sorted[p]) == key;
      var i := PlaceIsTaken(releases, env, p);
      PositionIsAhead(releases, i);
      assert RecentIn(releases, keep, env, key, i);
    }
    if i: nat :| i < |releases| && RecentIn(releases, keep, env, key, i) {
      PositionIsAhead(releases, i);
    }
  }

  /** The working state of the loop over environments: what `done` of them have
      contributed to the retained keys. */
  ghost predicate Collected(retained: set<string>, releases: seq<Release>, current: seq<Release>, keep: int,
                            done: set<string>) {
    forall key :: key in retained <==>
      HasKey(current, key) || exists i: nat ::
      i < |releases| && RecentIn(releases, keep, EnvOf(releases[i]), key, i) &&
      EnvOf(releases[i]) in done
  }

  /** `byEnvironment` groups the first `n` records. */
  ghost predicate Grouped(byEnvironment: map<string, seq<Release>>, releases: seq<Release>, n: nat)
    requires n <= |releases|
  {
    && (forall env <- byEnvironment :: byEnvironment[env] == EnvUpTo(releases, env, n))
    && (forall i :: 0 <= i < n ==> EnvOf(releases[i]) in byEnvironment)
  }

  /** `retainedReleaseKeys`.  The environments are visited in any order. */
  method RetainedReleaseKeys(releases: seq<Release>, current: seq<Release>, keepPerEnvironment: int)
    returns (retained: set<string>)
    ensures forall key :: key in retained <==> Keeps(releases, current, keepPerEnvironment, key)
  {
    hide KeyOf, EnvOf, DistinctKeys, Collected, Grouped, StableSort, Ahead, InWindow, EnvUpTo, HasKey, Recent;
    var keep := if keepPerEnvironment < 0 then 0 else keepPerEnvironment;
    retained := {};
    NoKeys(current);
    for i := 0 to |current|
      invariant forall key :: key in retained <==> HasKey(current[..i], key)
    {
      HasKeyStep(current, i);
      retained := retained + {KeyOf(current[i])};
    }
    assert current[..|current|] == current;
    var byEnvironment: map<string, seq<Release>> := map[];
    GroupedStarts(releases);
    for i := 0 to |releases|
      invariant Grouped(byEnvironment, releases, i)
    {
      var environment := EnvOf(releases[i]);
      GroupedSteps(byEnvironment, releases, i);
      byEnvironment := byEnvironment[environment := (if environment in byEnvironment then byEnvironment[environment]
                                                     else []) + [releases[i]]];
    }
    var left := byEnvironment.Keys;
    ghost var done: set<string> := {};
    CollectedStarts(retained, releases, current, keep);
    while left != {}
      invariant done + left == byEnvironment.Keys
      invariant Collected(retained, releases, current, keep, done)
      decreases left
    {
      var environment :| environment in left;
      left := left - {environment};
      var envReleases := StableSort(byEnvironment[environment], Newer);
      var limit := keep;
      if |envReleases| < limit { limit := |envReleases|; }
      ghost var was := retained;
      WindowStarts(envReleases);
      for i := 0 to limit
        invariant forall key :: key in retained <==> key in was || InWindow(envReleases, i, key)
      {
        WindowSteps(envReleases, i);
        retained := retained + {KeyOf(envReleases[i])};
      }
      WindowEnds(envReleases, keep, limit);
      GroupedEnds(byEnvironment, releases, environment);
      CollectedSteps(was, retained, releases, current, keep, done, environment);
      done := done + {environment};
    }
    assert done == byEnvironment.Keys;
    CollectedEnds(retained, releases, current, keep, keepPerEnvironment, byEnvironment);
  }

  lemma NoKeys(current: seq<Release>)
    ensures forall key :: !HasKey(current[..0], key)
  {
  }

  lemma HasKeyStep(current: seq<Release>, i: nat)
    requires i < |current|
    ensures forall key :: HasKey(current[..i + 1], key) <==> HasKey(current[..i], key) || key == KeyOf(current[i])
  {
    hide KeyOf;
    forall key ensures HasKey(current[..i + 1], key) <==> HasKey(current[..i], key) || key == KeyOf(current[i]) {
      if HasKey(current[..i], key) {
        var j :| 0 <= j < i && KeyOf(current[..i][j]) == key;
        assert KeyOf(current[..i + 1][j]) == key;
      }
      if key == KeyOf(current[i]) { assert KeyOf(current[..i + 1][i]) == key; }
      if HasKey(current[..i + 1], key) {
        var j :| 0 <= j < i + 1 && KeyOf(current[..i + 1][j]) == key;
        if j < i { assert KeyOf(current[..i][j]) == key; }
      }
    }
  }

  lemma GroupedStarts(releases: seq<Release>)
    ensures Grouped(map[], releases, 0)
  {
  }

  lemma GroupedSteps(byEnvironment: map<string, seq<Release>>, releases: seq<Release>, n: nat)
    requires n < |releases| && Grouped(byEnvironment, releases, n)
    ensures
      var e := EnvOf(releases[n]);
      Grouped(byEnvironment[e := (if e in byEnvironment then byEnvironment[e] else []) + [releases[n]]], releases,
              n + 1)
  {
    hide EnvOf;
    var e := EnvOf(releases[n]);
    if e !in byEnvironment { EnvEmpty(releases, e, n); }
  }

  lemma {:induction false} EnvEmpty(releases: seq<Release>, env: string, n: nat)
    requires n <= |releases| && forall i :: 0 <= i < n ==> EnvOf(releases[i]) != env
    ensures EnvUpTo(releases, env, n) == []
  {
    hide EnvOf;
    if n > 0 { EnvEmpty(releases, env, n - 1); }
  }

  lemma GroupedEnds(byEnvironment: map<string, seq<Release>>, releases: seq<Release>, env: string)
    requires Grouped(byEnvironment, releases, |releases|) && env in byEnvironment
    ensures byEnvironment[env] == EnvRecords(releases, env)
  {
  }

  lemma WindowStarts(records: seq<Release>)
    ensures forall key :: !InWindow(records, 0, key)
  {
  }

  lemma WindowSteps(records: seq<Release>, i: nat)
    requires i < |records|
    ensures forall key :: InWindow(records, i + 1, key) <==> InWindow(records, i, key) || key == KeyOf(records[i])
  {
    hide KeyOf;
    forall key ensures InWindow(records, i + 1, key) <==> InWindow(records, i, key) || key == KeyOf(records[i]) {
      if InWindow(records, i, key) {
        var p :| 0 <= p < |records| && p < i && KeyOf(records[p]) == key;
        assert p < i + 1;
      }
    }
  }

  lemma WindowEnds(records: seq<Release>, keep: nat, limit: nat)
    requires limit == if |records| < keep then |records| else keep
    ensures forall key :: InWindow(records, keep, key) <==> InWindow(records, limit, key)
  {
    hide KeyOf;
  }

  lemma CollectedStarts(retained: set<string>, releases: seq<Release>, current: seq<Release>, keep: int)
    requires forall key :: key in retained <==> HasKey(current, key)
    ensures Collected(retained, releases, current, keep, {})
  {
    hide KeyOf, HasKey, EnvOf, RecentIn;
  }

  lemma CollectedSteps(was: set<string>, retained: set<string>, releases: seq<Release>, current: seq<Release>,
                       keep: int, done: set<string>, env: string)
    requires Collected(was, releases, current, keep, done)
    requires forall key :: key in retained <==>
      key in was ||
      InWindow(StableSort(EnvRecords(releases, env), Newer), keep, key)
    ensures Collected(retained, releases, current, keep, done + {env})
  {
    hide KeyOf, HasKey, EnvOf, DistinctKeys, InWindow, StableSort, EnvUpTo;
    forall key ensures key in retained <==>
      HasKey(current, key) || exists i: nat ::
      i < |releases| && RecentIn(releases, keep, EnvOf(releases[i]), key, i) &&
      EnvOf(releases[i]) in done + {env}
    {
      WindowIsRecent(releases, env, keep, key);
    }
  }

  lemma CollectedEnds(retained: set<string>, releases: seq<Release>, current: seq<Release>, keep: int, asked: int,
                      byEnvironment: map<string, seq<Release>>)
    requires keep == if asked < 0 then 0 else asked
    requires Collected(retained, releases, current, keep, byEnvironment.Keys)
    requires Grouped(byEnvironment, releases, |releases|)
    ensures forall key :: key in retained <==> Keeps(releases, current, asked, key)
  {
    hide KeyOf, HasKey, EnvOf, EnvUpTo, Ahead;
    forall key ensures key in retained <==> Keeps(releases, current, asked, key) {
      if Recent(releases, asked, key) {
        var i: nat :| i < |releases| && KeyOf(releases[i]) == key && |Ahead(releases, i)| < asked;
        assert RecentIn(releases, keep, EnvOf(releases[i]), key, i);
      }
    }
  }

  // ---- how many releases of an environment survive ----

  /** The releases of `env` inside its window. */
  ghost function WindowKeys(releases: seq<Release>, env: string, keep: int): set<string> {
    set i: nat | i < |releases| && EnvOf(releases[i]) == env && |Ahead(releases, i)| < keep :: KeyOf(releases[i])
  }

  /** The recorded releases of `env` that survive. */
  ghost function KeptOf(releases: seq<Release>, current: seq<Release>, env: string, keep: int): set<string> {
    set i: nat | i < |releases| && EnvOf(releases[i]) == env && Keeps(releases, current, keep, KeyOf(releases[i])) ::
    KeyOf(releases[i])
  }

  function FirstKeys(records: seq<Release>, n: nat): set<string>
    requires n <= |records|
  {
    if n == 0 then {} else FirstKeys(records, n - 1) + {KeyOf(records[n - 1])}
  }

  lemma {:induction false} FirstKeysSize(records: seq<Release>, n: nat)
    requires n <= |records| && DistinctKeys(records)
    ensures |FirstKeys(records, n)| == n
    ensures forall key :: key in FirstKeys(records, n) <==> InWindow(records, n, key)
  {
    hide KeyOf, InWindow;
    if n == 0 {
      WindowStarts(records);
    } else {
      FirstKeysSize(records, n - 1);
      WindowSteps(records, n - 1);
      FreshKey(records, n - 1);
    }
  }

  lemma FreshKey(records: seq<Release>, n: nat)
    requires n < |records| && DistinctKeys(records)
    ensures !InWindow(records, n, KeyOf(records[n]))
  {
    hide KeyOf;
  }

  function Least(a: int, b: nat): nat {
    if a < 0 then 0 else if a < b then a else b
  }

  lemma SortedDistinctKeys(releases: seq<Release>, env: string)
    requires DistinctKeys(releases)
    ensures DistinctKeys(StableSort(EnvRecords(releases, env), Newer))
  {
    hide KeyOf, EnvOf, StableSort, EnvUpTo;
    var records := EnvRecords(releases, env);
    var sorted := StableSort(records, Newer);
    EnvDistinct(releases, env, |releases|);
    SortedRecords(releases, env);
    forall p, q | 0 <= p < q < |sorted| ensures KeyOf(sorted[p]) != KeyOf(sorted[q]) {
      assert sorted[p] in records && sorted[q] in records;
    }
  }

  lemma WindowKeysSize(releases: seq<Release>, env: string, keep: int)
    requires DistinctKeys(releases)
    ensures |WindowKeys(releases, env, keep)| == Least(keep, |EnvRecords(releases, env)|)
  {
    hide KeyOf, EnvOf, StableSort, EnvUpTo, DistinctKeys, Ahead, Sorting.Distinct, InWindow, WindowKeys, FirstKeys,
         RecentIn;
    var sorted := StableSort(EnvRecords(releases, env), Newer);
    var n := Least(keep, |sorted|);
    SortedRecords(releases, env);
    SortedDistinctKeys(releases, env);
    FirstKeysSize(sorted, n);
    forall key ensures key in WindowKeys(releases, env, keep) <==> key in FirstKeys(sorted, n) {
      WindowKeysMember(releases, env, keep, key);
      WindowIsRecent(releases, env, keep, key);
      SameWindow(sorted, keep, n, key);
    }
    assert WindowKeys(releases, env, keep) == FirstKeys(sorted, n);
  }

  lemma WindowKeysMember(releases: seq<Release>, env: string, keep: int, key: string)
    ensures key in WindowKeys(releases, env, keep) <==> exists i: nat ::
      i < |releases| && RecentIn(releases, keep, env, key, i)
  {
    hide KeyOf, EnvOf, Ahead;
    if key in WindowKeys(releases, env, keep) {
      var i: nat :| i < |releases| && EnvOf(releases[i]) == env && |Ahead(releases, i)| < keep &&
        KeyOf(releases[i]) == key;
      assert RecentIn(releases, keep, env, key, i);
    }
  }

  lemma SameWindow(records: seq<Release>, keep: int, n: nat, key: string)
    requires n == Least(keep, |records|)
    ensures InWindow(records, keep, key) <==> InWindow(records, n, key)
  {
    hide KeyOf;
  }

  /** Every environment, current or not, keeps at least its newest
      min(keep, n) recorded releases, and it keeps exactly that many if and only
      if each of its current releases is one of them. */
  lemma RetentionWindow(releases: seq<Release>, current: seq<Release>, env: string, keep: int)
    requires DistinctKeys(releases)
    ensures WindowKeys(releases, env, keep) <= KeptOf(releases, current, env, keep)
    ensures |KeptOf(releases, current, env, keep)| >= Least(keep, |EnvRecords(releases, env)|)
    ensures |KeptOf(releases, current, env, keep)| == Least(keep, |EnvRecords(releases, env)|) <==>
            forall i: nat :: i < |releases| && EnvOf(releases[i]) == env && HasKey(current, KeyOf(releases[i])) ==>
                             |Ahead(releases, i)| < keep
  {
    hide KeyOf, EnvOf, EnvUpTo, Ahead, HasKey;
    var window, kept := WindowKeys(releases, env, keep), KeptOf(releases, current, env, keep);
    WindowKeysSize(releases, env, keep);
    SubsetSize(window, kept);
    if |kept| == |window| {
      forall i: nat | i < |releases| && EnvOf(releases[i]) == env && HasKey(current, KeyOf(releases[i]))
        ensures |Ahead(releases, i)| < keep
      {
        assert KeyOf(releases[i]) in kept;
        var j: nat :| j < |releases| && |Ahead(releases, j)| < keep && KeyOf(releases[j]) == KeyOf(releases[i]);
        SameKeySameIndex(releases, i, j);
      }
    }
    if forall i: nat :: i < |releases| && EnvOf(releases[i]) == env && HasKey(current, KeyOf(releases[i])) ==>
      |Ahead(releases, i)| < keep {
      forall key | key in kept ensures key in window {
        var i: nat :| i < |releases| && EnvOf(releases[i]) == env && Keeps(releases, current, keep, key) &&
          KeyOf(releases[i]) == key;
        if !HasKey(current, key) {
          var j: nat :| j < |releases| && KeyOf(releases[j]) == key && |Ahead(releases, j)| < keep;
          SameKeySameIndex(releases, i, j);
        }
      }
      assert kept == window;
    }
  }

  lemma SameKeySameIndex(releases: seq<Release>, i: nat, j: nat)
    requires DistinctKeys(releases) && i < |releases| && j < |releases| && KeyOf(releases[i]) == KeyOf(releases[j])
    ensures i == j
  {
    hide KeyOf;
  }

  lemma SubsetSize<T>(a: set<T>, b: set<T>)
    requires a <= b
    ensures |a| <= |b|
    ensures |a| == |b| ==> a == b
  {
    assert b == a + (b - a);
    assert |b| == |a| + |b - a|;
  }

  /** A release strictly newer than the rest of its environment goes first, so
      a single up-to-date current release never widens the window. */
  lemma NewestGoesFirst(releases: seq<Release>, i: nat)
    requires i < |releases|
    requires forall j :: 0 <= j < |releases| && j != i && EnvOf(releases[j]) == EnvOf(releases[i]) ==>
      Newer(releases[i], releases[j])
    ensures Ahead(releases, i) == {}
  {
    hide KeyOf, EnvOf;
  }
}
