/** What the release log says, image by image: which images it lists for which
    release after each step of a run. */
module ReleaseContents {
  import opened Text
  import opened StringLists
  import opened ReleaseLogs

  /** Image `x` is listed for the release with key `key`. */
  ghost predicate Lists(log: seq<Release>, key: string, x: string) {
    exists i :: 0 <= i < |log| && ListsIn(log[i], key, x)
  }

  ghost predicate ListsIn(r: Release, key: string, x: string) {
    KeyOf(r) == key && x in r.images
  }

  /** The same for records as they are read: blank environments, revisions and images do
      not count, and white space around any of them does not matter. */
  ghost predicate Says(releases: seq<Release>, key: string, x: string) {
    exists i :: 0 <= i < |releases| && SaysIn(releases[i], key, x)
  }

  ghost predicate SaysIn(r: Release, key: string, x: string) {
    && Trim(r.environment) != "" && Trim(r.revision) != "" && x != ""
    && key == Trim(r.environment) + ['\0'] + Trim(r.revision)
    && exists v <- r.images :: Trim(v) == x
  }

  lemma SaysIs(r: Release, key: string, x: string)
    ensures SaysIn(r, key, x) <==> CleanRelease(r).Some? && KeyOf(r) == key && Occurs(r.images, x)
  {
    hide Trim, MergeOf;
    MergeSpec([], r.images);
    if Occurs(r.images, x) { assert x in MergeOf([], r.images); }
  }

  /** Normalising keeps exactly what the records say. */
  lemma NormalizedLists(releases: seq<Release>, key: string, x: string)
    ensures Lists(Normalized(releases), key, x) <==> Says(releases, key, x)
  {
    hide KeyOf, CleanRelease, Occurs, SaysIn, Normal, Normalized;
    var log, n := Normalized(releases), |releases|;
    NormalizedSpec(releases);
    forall i | 0 <= i < n
      ensures SaysIn(releases[i], key, x) <==> Contributes(releases, n, key, i) && Occurs(releases[i].images, x)
    {
      SaysIs(releases[i], key, x);
    }
    if i :| 0 <= i < |log| && ListsIn(log[i], key, x) {
      assert Accumulated(releases, n, log[i]);
    }
    if i :| 0 <= i < n && SaysIn(releases[i], key, x) {
      assert ContributesKey(releases, n, key) && ContributesImage(releases, n, key, x);
      var j :| 0 <= j < |log| && KeyOf(log[j]) == key;
      assert log[j] in log;
      assert Accumulated(releases, n, log[j]) && ListsIn(log[j], key, x);
    }
  }

  lemma ListsJoin(a: seq<Release>, b: seq<Release>, key: string, x: string)
    ensures Lists(a + b, key, x) <==> Lists(a, key, x) || Lists(b, key, x)
  {
    hide ListsIn;
    var all := a + b;
    if i :| 0 <= i < |a| && ListsIn(a[i], key, x) { assert all[i] == a[i]; }
    if i :| 0 <= i < |b| && ListsIn(b[i], key, x) { assert all[|a| + i] == b[i]; }
    if i :| 0 <= i < |all| && ListsIn(all[i], key, x) {
      assert if i < |a| then all[i] == a[i] else all[i] == b[i - |a|];
    }
  }

  lemma RefreshedAllList(log: seq<Release>, current: seq<Release>, key: string, x: string)
    requires Normal(log) && CurrentList(current)
    ensures Lists(RefreshAll(log, current), key, x) <==>
            Lists(log, key, x) || (HasKey(log, key) && Lists(current, key, x))
  {
    hide KeyOf, Refreshed, NormalRelease, CurrentList, ListsIn;
    var now := RefreshAll(log, current);
    forall i | 0 <= i < |log|
      ensures ListsIn(now[i], key, x) <==> ListsIn(log[i], key, x) || (KeyOf(log[i]) == key && Lists(current, key, x))
    {
      assert log[i] in log;
      RefreshedLists(log[i], current, key, x);
    }
  }

  lemma MissingLists(log: seq<Release>, current: seq<Release>, key: string, x: string)
    requires CurrentList(current)
    ensures Lists(Missing(log, current, |current|), key, x) <==> !HasKey(log, key) && Lists(current, key, x)
  {
    hide KeyOf, Missing, HasKey;
    var added := Missing(log, current, |current|);
    MissingSpec(log, current, |current|);
    assert current[..|current|] == current;
    if i :| 0 <= i < |added| && ListsIn(added[i], key, x) {
      assert added[i] in added && added[i] in current;
    }
    if !HasKey(log, key) {
      if i :| 0 <= i < |current| && ListsIn(current[i], key, x) {
        assert current[i] in current && current[i] in added;
      }
    }
  }

  /** Recording the current releases adds exactly what they list. */
  lemma UpsertedLists(releases: seq<Release>, current: seq<Release>, key: string, x: string)
    requires CurrentList(current)
    ensures Lists(Upserted(releases, current), key, x) <==>
            Lists(Normalized(releases), key, x) || Lists(current, key, x)
  {
    hide KeyOf, Normalized, Missing, HasKey, Lists, CurrentList, Normal;
    var log := Normalized(releases);
    NormalizedIsNormal(releases);
    RefreshedAllList(log, current, key, x);
    MissingLists(log, current, key, x);
    ListsJoin(RefreshAll(log, current), Missing(log, current, |current|), key, x);
  }

  lemma RefreshedLists(r: Release, current: seq<Release>, key: string, x: string)
    requires NormalRelease(r) && CurrentList(current)
    ensures ListsIn(Refreshed(r, current), key, x) <==>
            ListsIn(r, key, x) || (KeyOf(r) == key && Lists(current, key, x))
  {
    hide KeyOf, MergeOf, FindKey, Refreshed, CleanList;
    RefreshedSpec(r, current);
    RefreshedOnce(r, current);
    FindHas(current, KeyOf(r));
    var i := FindKey(current, KeyOf(r));
    if i < |current| {
      assert current[i] in current;
      MergeSpec(r.images, current[i].images);
      OccursInClean(r.images, x);
      OccursInClean(current[i].images, x);
      if j :| 0 <= j < |current| && ListsIn(current[j], KeyOf(r), x) {
        assert !(i < j) && !(j < i);
      }
    }
  }

  lemma ListsFirst(r: Release, rest: seq<Release>, key: string, x: string)
    ensures Lists([r] + rest, key, x) <==> ListsIn(r, key, x) || Lists(rest, key, x)
  {
    hide ListsIn;
    var all := [r] + rest;
    assert forall i :: 0 <= i < |rest| ==> all[i + 1] == rest[i];
    if i :| 0 <= i < |rest| && ListsIn(rest[i], key, x) { assert ListsIn(all[i + 1], key, x); }
    if i :| 0 <= i < |all| && ListsIn(all[i], key, x) { if i > 0 { assert ListsIn(rest[i - 1], key, x); } }
    if ListsIn(r, key, x) { assert ListsIn(all[0], key, x); }
  }

  /** Dropping forgets exactly the removed images of releases that are not retained. */
  lemma {:induction false} DroppedLists(log: seq<Release>, removed: set<string>, retained: set<string>, key: string,
                                        x: string)
    ensures Lists(Dropped(log, removed, retained), key, x) <==>
            Lists(log, key, x) && (key in retained || x !in removed)
  {
    hide Without, Trim, Lists;
    if log == [] {
      NothingListed(key, x);
    } else {
      var r, rest := log[0], log[1..];
      var left := Dropped(rest, removed, retained);
      var now := r.(images := Without(r.images, removed));
      DroppedLists(rest, removed, retained, key, x);
      WithoutSpec(r.images, removed);
      assert log == [r] + rest;
      ListsFirst(r, rest, key, x);
      ListsFirst(r, left, key, x);
      ListsFirst(now, left, key, x);
      SameKey(r, now);
    }
  }

  lemma NothingListed(key: string, x: string)
    ensures !Lists([], key, x)
  {
  }

  // ---- the times ----

  /** Of what the records say of release `key`, the latest is of time `t`. */
  ghost predicate DatedBy(releases: seq<Release>, key: string, t: int) {
    && (exists i, x :: 0 <= i < |releases| && SaysIn(releases[i], key, x) && releases[i].seenAt == t)
    && (forall i, x :: 0 <= i < |releases| && SaysIn(releases[i], key, x) ==> releases[i].seenAt <= t)
  }

  lemma NormalizedTimes(releases: seq<Release>, r: Release)
    requires r in Normalized(releases)
    ensures DatedBy(releases, KeyOf(r), r.seenAt)
  {
    hide KeyOf, CleanRelease, Occurs, SaysIn, Normalized, Normal;
    var key, n := KeyOf(r), |releases|;
    NormalizedSpec(releases);
    assert Accumulated(releases, n, r);
    forall i, x | 0 <= i < n
      ensures SaysIn(releases[i], key, x) <==> Contributes(releases, n, key, i) && Occurs(releases[i].images, x)
    {
      SaysIs(releases[i], key, x);
    }
    var i :| Contributes(releases, n, key, i) && releases[i].seenAt == r.seenAt;
    var x := SurvivorSays(releases[i]);
    assert SaysIn(releases[i], key, x);
  }

  lemma SurvivorSays(r: Release) returns (x: string)
    requires CleanRelease(r).Some?
    ensures Occurs(r.images, x)
  {
    hide Trim, MergeOf, Occurs;
    MergeSpec([], r.images);
    NothingOccurs(MergeOf([], r.images)[0]);
    x := MergeOf([], r.images)[0];
    assert x in MergeOf([], r.images);
  }

  /** A current release carries the time of the run, any other the one it had. */
  lemma TimesOf(releases: seq<Release>, current: seq<Release>, removed: set<string>, retained: set<string>, r: Release)
    requires CurrentList(current) && r in Dropped(Upserted(releases, current), removed, retained)
    ensures
      var before := if HasKey(current, KeyOf(r)) then current else Normalized(releases);
      exists q <- before :: KeyOf(q) == KeyOf(r) && q.seenAt == r.seenAt
  {
    hide KeyOf, HasKey, Upserted, Dropped, Normalized, Without;
    var log := Upserted(releases, current);
    var source := DroppedSpec(log, removed, retained);
    var p :| 0 <= p < |source| && Dropped(log, removed, retained)[p] == r;
    var q := log[source[p]];
    assert LeftOf(q, removed, retained, r);
    SameKey(q, r);
    UpsertedSpec(releases, current);
    assert q in log && UpToDate(q, Normalized(releases), current);
  }
}
