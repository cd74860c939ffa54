/** The release log of disk care: records of which images each release of each
    environment needs, kept one per release.  The log is updated in place;
    every update is proved against a function on the list of records. */
module ReleaseLogs {
  import opened Text
  import opened Sorting
  import opened StringLists

  datatype Release = Release(environment: string, revision: string, images: seq<string>, seenAt: int)

  /** `releaseKey`. */
  function KeyOf(r: Release): string {
    Trim(r.environment) + ['\0'] + Trim(r.revision)
  }

  ghost predicate DistinctKeys(releases: seq<Release>) {
    forall i, j :: 0 <= i < j < |releases| ==> KeyOf(releases[i]) != KeyOf(releases[j])
  }

  ghost predicate HasKey(releases: seq<Release>, key: string) {
    exists i :: 0 <= i < |releases| && KeyOf(releases[i]) == key
  }

  /** The position of the record with the given key, or the length. */
  function FindKey(releases: seq<Release>, key: string): (i: nat)
    ensures i <= |releases|
    ensures i < |releases| ==> KeyOf(releases[i]) == key
    ensures forall j :: 0 <= j < i ==> KeyOf(releases[j]) != key
  {
    if releases == [] || KeyOf(releases[0]) == key then 0 else 1 + FindKey(releases[1..], key)
  }

  // ---- normalising ----

  /** A record as it enters the normal form, if it survives. */
  function CleanRelease(r: Release): Option<Release> {
    var clean := Release(Trim(r.environment), Trim(r.revision), MergeOf([], r.images), r.seenAt);
    if clean.environment == "" || clean.revision == "" || clean.images == [] then None else Some(clean)
  }

  /** Adds a clean record, joining it with the one of the same key. */
  function Absorb(log: seq<Release>, r: Release): seq<Release> {
    var i := FindKey(log, KeyOf(r));
    if i < |log|
    then log[i := log[i].(images := MergeOf(log[i].images, r.images),
                          seenAt := if r.seenAt > log[i].seenAt then r.seenAt else log[i].seenAt)]
    else log + [r]
  }

  function NormalizedUpTo(releases: seq<Release>, n: nat): seq<Release>
    requires n <= |releases|
  {
    if n == 0 then []
    else
      var log := NormalizedUpTo(releases, n - 1);
      var clean := CleanRelease(releases[n - 1]);
      if clean.Some? then Absorb(log, clean.value) else log
  }

  function Normalized(releases: seq<Release>): seq<Release> {
    NormalizedUpTo(releases, |releases|)
  }

  ghost predicate NormalRelease(r: Release) {
    && r.environment != "" && Trimmed(r.environment)
    && r.revision != "" && Trimmed(r.revision)
    && r.images != [] && CleanList(r.images)
  }

  /** One record per release, all clean. */
  ghost predicate Normal(releases: seq<Release>) {
    DistinctKeys(releases) && forall r <- releases :: NormalRelease(r)
  }

  lemma CleanReleaseIsNormal(r: Release)
    ensures CleanRelease(r).Some? ==> NormalRelease(CleanRelease(r).value) && KeyOf(CleanRelease(r).value) == KeyOf(r)
  {
    hide MergeOf;
    TrimTrims(r.environment);
    TrimTrims(r.revision);
    MergeIsClean([], r.images);
  }

  lemma CleanReleaseFixes(r: Release)
    requires NormalRelease(r)
    ensures CleanRelease(r) == Some(r)
  {
    hide MergeOf;
    MergeSpec([], r.images);
    forall x ensures x in MergeOf([], r.images) <==> x in r.images {
      OccursInClean(r.images, x);
    }
    StrictlySortedUnique(MergeOf([], r.images), r.images);
  }

  lemma AbsorbKeys(log: seq<Release>, r: Release)
    requires DistinctKeys(log)
    ensures DistinctKeys(Absorb(log, r))
    ensures forall k :: HasKey(Absorb(log, r), k) <==> HasKey(log, k) || k == KeyOf(r)
  {
    hide Trim, MergeOf;
    var i := FindKey(log, KeyOf(r));
    var more := Absorb(log, r);
    if i < |log| {
      forall j | 0 <= j < |log| ensures KeyOf(more[j]) == KeyOf(log[j]) { }
      forall k ensures HasKey(more, k) <==> HasKey(log, k) || k == KeyOf(r) {
        if HasKey(log, k) { var j :| 0 <= j < |log| && KeyOf(log[j]) == k; assert KeyOf(more[j]) == k; }
        if k == KeyOf(r) { assert KeyOf(more[i]) == k; }
      }
    } else {
      forall k ensures HasKey(more, k) <==> HasKey(log, k) || k == KeyOf(r) {
        if HasKey(log, k) { var j :| 0 <= j < |log| && KeyOf(log[j]) == k; assert KeyOf(more[j]) == k; }
        if k == KeyOf(r) { assert KeyOf(more[|log|]) == k; }
        if HasKey(more, k) { var j :| 0 <= j < |more| && KeyOf(more[j]) == k; assert j < |log| ==> KeyOf(log[j]) == k; }
      }
    }
  }

  lemma AbsorbNormal(log: seq<Release>, r: Release)
    requires Normal(log) && NormalRelease(r)
    ensures Normal(Absorb(log, r))
  {
    hide Trim, MergeOf, StrictlySorted, KeyOf;
    AbsorbKeys(log, r);
    var i := FindKey(log, KeyOf(r));
    if i < |log| {
      MergeIsClean(log[i].images, r.images);
      MergeSpec(log[i].images, r.images);
      assert log[i] in log && NormalRelease(log[i]);
      var x := log[i].images[0];
      OccursInClean(log[i].images, x);
      assert x in MergeOf(log[i].images, r.images);
    }
  }

  lemma {:induction false} NormalizedUpToNormal(releases: seq<Release>, n: nat)
    requires n <= |releases|
    ensures Normal(NormalizedUpTo(releases, n))
  {
    hide Absorb, CleanRelease, NormalRelease, KeyOf;
    if n > 0 {
      NormalizedUpToNormal(releases, n - 1);
      CleanReleaseIsNormal(releases[n - 1]);
      if CleanRelease(releases[n - 1]).Some? {
        AbsorbNormal(NormalizedUpTo(releases, n - 1), CleanRelease(releases[n - 1]).value);
      }
    }
  }

  lemma NormalizedIsNormal(releases: seq<Release>)
    ensures Normal(Normalized(releases))
  {
    NormalizedUpToNormal(releases, |releases|);
  }

  lemma {:induction false} NormalizedFixesUpTo(releases: seq<Release>, n: nat)
    requires Normal(releases) && n <= |releases|
    ensures NormalizedUpTo(releases, n) == releases[..n]
  {
    hide CleanRelease, KeyOf, NormalRelease, MergeOf;
    if n > 0 {
      NormalizedFixesUpTo(releases, n - 1);
      assert releases[n - 1] in releases;
      CleanReleaseFixes(releases[n - 1]);
      assert FindKey(releases[..n - 1], KeyOf(releases[n - 1])) == n - 1;
      assert releases[..n] == releases[..n - 1] + [releases[n - 1]];
    }
  }

  /** A normal log is left as it is, so normalising is idempotent. */
  lemma NormalizedFixes(releases: seq<Release>)
    requires Normal(releases)
    ensures Normalized(releases) == releases
  {
    NormalizedFixesUpTo(releases, |releases|);
    assert releases[..|releases|] == releases;
  }

  /** Record `i`, among the first `n`, survives under key `key`. */
  ghost predicate Contributes(releases: seq<Release>, n: nat, key: string, i: int)
    requires n <= |releases|
  {
    0 <= i < n && KeyOf(releases[i]) == key && CleanRelease(releases[i]).Some?
  }

  /** `r` has the union of the images, and the latest time, of the surviving
      records of its key. */
  ghost predicate Accumulated(releases: seq<Release>, n: nat, r: Release)
    requires n <= |releases|
  {
    && (forall x :: x in r.images <==> ContributesImage(releases, n, KeyOf(r), x))
    && (forall i :: Contributes(releases, n, KeyOf(r), i) ==> releases[i].seenAt <= r.seenAt)
    && (exists i :: Contributes(releases, n, KeyOf(r), i) && releases[i].seenAt == r.seenAt)
  }

  /** Some record, among the first `n`, survives under key `key`. */
  ghost predicate ContributesKey(releases: seq<Release>, n: nat, key: string)
    requires n <= |releases|
  {
    exists i :: Contributes(releases, n, key, i)
  }

  ghost predicate ContributesImage(releases: seq<Release>, n: nat, key: string, x: string)
    requires n <= |releases|
  {
    exists i :: Contributes(releases, n, key, i) && Occurs(releases[i].images, x)
  }

  /** One more record, with key `key` when it survives, changes what contributes
      under `key` and nothing else. */
  lemma OneMore(releases: seq<Release>, n: nat, key: string)
    requires 0 < n <= |releases|
    ensures
      var counts := CleanRelease(releases[n - 1]).Some? && KeyOf(releases[n - 1]) == key;
      && (forall i :: Contributes(releases, n, key, i) <==>
          Contributes(releases, n - 1, key, i) ||
          (counts && i == n - 1))
      && (forall x :: ContributesImage(releases, n, key, x) <==>
                      ContributesImage(releases, n - 1, key, x) || (counts && Occurs(releases[n - 1].images, x)))
      && (ContributesKey(releases, n, key) <==> ContributesKey(releases, n - 1, key) || counts)
  {
    hide KeyOf, CleanRelease, Occurs;
    if ContributesKey(releases, n - 1, key) {
      var i :| Contributes(releases, n - 1, key, i);
      assert Contributes(releases, n, key, i);
    }
    var counts := CleanRelease(releases[n - 1]).Some? && KeyOf(releases[n - 1]) == key;
    if counts { assert Contributes(releases, n, key, n - 1); }
    forall x ensures ContributesImage(releases, n, key, x) <==>
                     ContributesImage(releases, n - 1, key, x) || (counts && Occurs(releases[n - 1].images, x)) {
      if ContributesImage(releases, n - 1, key, x) {
        var i :| Contributes(releases, n - 1, key, i) && Occurs(releases[i].images, x);
        assert Contributes(releases, n, key, i);
      }
      if counts && Occurs(releases[n - 1].images, x) { assert Contributes(releases, n, key, n - 1); }
    }
  }

  lemma {:induction false} NormalizedAccumulates(releases: seq<Release>, n: nat)
    requires n <= |releases|
    ensures forall k :: HasKey(NormalizedUpTo(releases, n), k) <==> ContributesKey(releases, n, k)
    ensures forall j :: 0 <= j < |NormalizedUpTo(releases, n)| ==>
      Accumulated(releases, n, NormalizedUpTo(releases, n)[j])
  {
    hide Absorb, CleanRelease, KeyOf, Accumulated, ContributesKey, NormalRelease;
    var log := NormalizedUpTo(releases, n);
    if n == 0 {
      hide *;
      NothingContributes(releases);
    } else {
      var before := NormalizedUpTo(releases, n - 1);
      NormalizedAccumulates(releases, n - 1);
      NormalizedUpToNormal(releases, n - 1);
      forall k ensures ContributesKey(releases, n, k) <==>
                       ContributesKey(releases, n - 1, k) ||
                       (CleanRelease(releases[n - 1]).Some? && KeyOf(releases[n - 1]) == k) {
        OneMore(releases, n, k);
      }
      if CleanRelease(releases[n - 1]).None? {
        forall j | 0 <= j < |log| ensures Accumulated(releases, n, log[j]) {
          AccumulatedKeeps(releases, n, before[j]);
        }
      } else {
        CleanReleaseIsNormal(releases[n - 1]);
        AbsorbKeys(before, CleanRelease(releases[n - 1]).value);
        AbsorbAccumulates(releases, n, before);
      }
    }
  }

  lemma NothingContributes(releases: seq<Release>)
    ensures forall k :: HasKey(NormalizedUpTo(releases, 0), k) <==> ContributesKey(releases, 0, k)
    ensures |NormalizedUpTo(releases, 0)| == 0
  {
    hide KeyOf;
  }

  lemma AccumulatedKeeps(releases: seq<Release>, n: nat, r: Release)
    requires 0 < n <= |releases| && Accumulated(releases, n - 1, r)
    requires CleanRelease(releases[n - 1]).None? || KeyOf(releases[n - 1]) != KeyOf(r)
    ensures Accumulated(releases, n, r)
  {
    hide KeyOf, CleanRelease, Occurs, ContributesImage, Contributes;
    OneMore(releases, n, KeyOf(r));
  }

  lemma AbsorbAccumulates(releases: seq<Release>, n: nat, log: seq<Release>)
    requires 0 < n <= |releases| && Normal(log) && CleanRelease(releases[n - 1]).Some?
    requires forall k :: HasKey(log, k) <==> ContributesKey(releases, n - 1, k)
    requires forall j :: 0 <= j < |log| ==> Accumulated(releases, n - 1, log[j])
    ensures
      var more := Absorb(log, CleanRelease(releases[n - 1]).value);
      forall j :: 0 <= j < |more| ==> Accumulated(releases, n, more[j])
  {
    hide CleanRelease, KeyOf, Accumulated, Contributes, NormalRelease, MergeOf, Occurs;
    var c := CleanRelease(releases[n - 1]).value;
    CleanReleaseIsNormal(releases[n - 1]);
    var i := FindKey(log, KeyOf(c));
    var more := Absorb(log, c);
    forall j | 0 <= j < |more| ensures Accumulated(releases, n, more[j]) {
      if j == i && i < |log| {
        JoinAccumulates(releases, n, log[i], more[i]);
      } else if j < |log| {
        if i < |log| {
          if i < j { assert KeyOf(log[i]) != KeyOf(log[j]); } else { assert KeyOf(log[j]) != KeyOf(log[i]); }
        }
        AccumulatedKeeps(releases, n, log[j]);
      } else {
        assert !HasKey(log, KeyOf(c));
        FirstAccumulates(releases, n, c);
      }
    }
  }

  /** The images of a clean record are those of the record it came from. */
  lemma CleanImagesOf(r: Release)
    requires CleanRelease(r).Some?
    ensures forall x :: x in CleanRelease(r).value.images <==> Occurs(r.images, x)
    ensures CleanRelease(r).value.seenAt == r.seenAt
  {
    hide Trim, MergeOf, Occurs;
    MergeSpec([], r.images);
    forall x ensures !Occurs([], x) { NothingOccurs(x); }
  }

  lemma FirstAccumulates(releases: seq<Release>, n: nat, c: Release)
    requires 0 < n <= |releases| && CleanRelease(releases[n - 1]) == Some(c) && KeyOf(c) == KeyOf(releases[n - 1])
    requires !ContributesKey(releases, n - 1, KeyOf(c))
    ensures Accumulated(releases, n, c)
  {
    hide KeyOf, CleanRelease, Occurs;
    OneMore(releases, n, KeyOf(c));
    CleanImagesOf(releases[n - 1]);
    assert Contributes(releases, n, KeyOf(c), n - 1);
  }

  lemma JoinAccumulates(releases: seq<Release>, n: nat, old_: Release, joined: Release)
    requires 0 < n <= |releases| && CleanRelease(releases[n - 1]).Some? && NormalRelease(old_)
    requires Accumulated(releases, n - 1, old_) && KeyOf(releases[n - 1]) == KeyOf(old_)
    requires
      var c := CleanRelease(releases[n - 1]).value;
      joined == old_.(images := MergeOf(old_.images, c.images), seenAt := if c.seenAt > old_.seenAt then c.seenAt
                      else old_.seenAt)
    ensures Accumulated(releases, n, joined)
  {
    hide Trim, CleanRelease, Occurs, MergeOf, StrictlySorted, ContributesImage;
    var c := CleanRelease(releases[n - 1]).value;
    CleanReleaseIsNormal(releases[n - 1]);
    OneMore(releases, n, KeyOf(old_));
    CleanImagesOf(releases[n - 1]);
    MergeSpec(old_.images, c.images);
    forall x ensures x in joined.images <==> x in old_.images || x in c.images {
      OccursInClean(old_.images, x);
      OccursInClean(c.images, x);
    }
    var i :| Contributes(releases, n - 1, KeyOf(old_), i) && releases[i].seenAt == old_.seenAt;
    assert Contributes(releases, n, KeyOf(joined), i) && Contributes(releases, n, KeyOf(joined), n - 1);
  }

  /** Normalising keeps, for every release, the union of the images and the
      latest time of its surviving records; blank records vanish. */
  lemma NormalizedSpec(releases: seq<Release>)
    ensures Normal(Normalized(releases))
    ensures forall k :: HasKey(Normalized(releases), k) <==> ContributesKey(releases, |releases|, k)
    ensures forall r <- Normalized(releases) :: Accumulated(releases, |releases|, r)
  {
    hide KeyOf, CleanRelease, Accumulated, ContributesKey, Normal;
    NormalizedIsNormal(releases);
    NormalizedAccumulates(releases, |releases|);
  }

  // ---- recording the current releases ----

  /** A record once the releases of the current desired state are recorded: each that
      has its key adds its images, and the last one its time. */
  function Refreshed(r: Release, current: seq<Release>): Release {
    if current == [] then r
    else
      var was, c := Refreshed(r, current[..|current| - 1]), current[|current| - 1];
      if KeyOf(c) == KeyOf(r) then was.(images := MergeOf(was.images, c.images), seenAt := c.seenAt) else was
  }

  function RefreshAll(log: seq<Release>, current: seq<Release>): (r: seq<Release>)
    ensures |r| == |log| && forall i :: 0 <= i < |log| ==> r[i] == Refreshed(log[i], current)
  {
    seq(|log|, i requires 0 <= i < |log| => Refreshed(log[i], current))
  }

  /** The first `n` current releases that the log does not have yet. */
  function Missing(log: seq<Release>, current: seq<Release>, n: nat): seq<Release>
    requires n <= |current|
  {
    if n == 0 then []
    else Missing(log, current, n - 1) + (if FindKey(log, KeyOf(current[n - 1])) < |log| then [] else [current[n - 1]])
  }

  function Upserted(releases: seq<Release>, current: seq<Release>): seq<Release> {
    var log := Normalized(releases);
    RefreshAll(log, current) + Missing(log, current, |current|)
  }

  // ---- dropping images ----

  /** The images of `images` that are not in `removed`. */
  function Without(images: seq<string>, removed: set<string>): seq<string> {
    if images == [] then []
    else (if images[0] in removed then [] else [images[0]]) + Without(images[1..], removed)
  }

  function Dropped(releases: seq<Release>, removed: set<string>, retained: set<string>): seq<Release> {
    if releases == [] then []
    else
      var r := releases[0];
      var rest := Dropped(releases[1..], removed, retained);
      if KeyOf(r) in retained then [r] + rest
      else if Without(r.images, removed) == [] then rest
      else [r.(images := Without(r.images, removed))] + rest
  }

  class Log {
    var releases: seq<Release>

    constructor (releases: seq<Release>)
      ensures this.releases == releases
    {
      this.releases := releases;
    }

    method Normalize()
      modifies this
      ensures releases == Normalized(old(releases))
    {
      hide KeyOf, MergeOf, Trim, Indexed, NormalizedUpTo;
      var byKey: map<string, Release> := map[];
      var order: seq<string> := [];
      IndexedStarts(releases);
      for i := 0 to |releases|
        invariant releases == old(releases)
        invariant Indexed(byKey, order, NormalizedUpTo(releases, i))
      {
        var images := MergeStrings([], releases[i].images);
        var release := Release(Trim(releases[i].environment), Trim(releases[i].revision), images, releases[i].seenAt);
        IndexedSteps(byKey, order, releases, i, release);
        if release.environment == "" || release.revision == "" || |release.images| == 0 { continue; }
        var key := KeyOf(release);
        if key !in byKey {
          byKey, order := byKey[key := release], order + [key];
          continue;
        }
        var existing := byKey[key];
        var merged := MergeStrings(existing.images, release.images);
        existing := existing.(images := merged);
        if release.seenAt > existing.seenAt { existing := existing.(seenAt := release.seenAt); }
        byKey := byKey[key := existing];
      }
      ghost var log := NormalizedUpTo(releases, |releases|);
      IndexedEnds(byKey, order, log);
      releases := [];
      for i := 0 to |order|
        invariant releases == log[..i]
      {
        releases := releases + [byKey[order[i]]];
      }
    }

    method Upsert(current: seq<Release>)
      modifies this
      ensures releases == Upserted(old(releases), current)
    {
      hide KeyOf, CleanRelease, Normal, MergeOf, Trim, Normalized, UpsertSoFar, RefreshAll, Missing;
      Normalize();
      ghost var log := releases;
      NormalizedIsNormal(old(releases));
      NormalDistinct(log);
      var byKey: map<string, nat> := map[];
      for i := 0 to |releases|
        invariant releases == log
        invariant forall k <- byKey :: byKey[k] < i && KeyOf(log[byKey[k]]) == k
        invariant forall j :: 0 <= j < i ==> KeyOf(log[j]) in byKey && byKey[KeyOf(log[j])] == j
      {
        byKey := byKey[KeyOf(releases[i]) := i];
      }
      UpsertStarts(log, current);
      for i := 0 to |current|
        invariant UpsertSoFar(releases, log, current, i)
      {
        var key := KeyOf(current[i]);
        ByKeyFinds(byKey, log, key);
        if key in byKey {
          var idx := byKey[key];
          UpsertFound(releases, log, current, i, idx);
          var merged := MergeStrings(releases[idx].images, current[i].images);
          releases := releases[idx := releases[idx].(images := merged, seenAt := current[i].seenAt)];
          continue;
        }
        UpsertMissing(releases, log, current, i);
        releases := releases + [current[i]];
      }
      UpsertEnds(releases, log, current);
    }

    method DropRemovedImages(removed: set<string>, retained: set<string>)
      modifies this
      ensures releases == if removed == {} then old(releases) else Dropped(old(releases), removed, retained)
    {
      hide KeyOf, Without, Dropped;
      if removed == {} { return; }
      var kept: seq<Release> := [];
      for i := 0 to |releases|
        invariant releases == old(releases)
        invariant kept + Dropped(releases[i..], removed, retained) == Dropped(releases, removed, retained)
      {
        DroppedSteps(releases, i, removed, retained);
        ghost var rest := Dropped(releases[i + 1..], removed, retained);
        var release := releases[i];
        if KeyOf(release) in retained {
          assert (kept + [release]) + rest == kept + ([release] + rest);
          kept := kept + [release];
          continue;
        }
        var images: seq<string> := [];
        for j := 0 to |release.images|
          invariant releases == old(releases)
          invariant images + Without(release.images[j..], removed) == Without(release.images, removed)
        {
          WithoutSteps(release.images, j, removed);
          if release.images[j] !in removed {
            images := images + [release.images[j]];
          }
        }
        WithoutEnds(release.images, removed);
        assert images == Without(release.images, removed);
        release := release.(images := images);
        assert (kept + [release]) + rest == kept + ([release] + rest) && kept + [] == kept;
        if |release.images| > 0 {
          kept := kept + [release];
        }
      }
      DroppedEnds(releases, removed, retained);
      releases := kept;
    }
  }

  lemma DroppedSteps(releases: seq<Release>, i: nat, removed: set<string>, retained: set<string>)
    requires i < |releases|
    ensures
      var images := Without(releases[i].images, removed);
      Dropped(releases[i..], removed, retained) ==
      (if KeyOf(releases[i]) in retained then [releases[i]]
       else if images == [] then []
       else [releases[i].(images := images)]) + Dropped(releases[i + 1..], removed, retained)
  {
    hide KeyOf, Without;
    assert releases[i..][1..] == releases[i + 1..];
  }

  lemma DroppedEnds(releases: seq<Release>, removed: set<string>, retained: set<string>)
    ensures Dropped(releases[|releases|..], removed, retained) == []
  {
  }

  lemma WithoutSteps(images: seq<string>, j: nat, removed: set<string>)
    requires j < |images|
    ensures Without(images[j..], removed) ==
            (if images[j] in removed then [] else [images[j]]) + Without(images[j + 1..], removed)
  {
    assert images[j..][1..] == images[j + 1..];
  }

  lemma WithoutEnds(images: seq<string>, removed: set<string>)
    ensures Without(images[|images|..], removed) == []
  {
  }

  /** The log while `Upsert` works through the first `n` current releases. */
  ghost predicate UpsertSoFar(now: seq<Release>, log: seq<Release>, current: seq<Release>, n: nat) {
    && n <= |current| && now == RefreshAll(log, current[..n]) + Missing(log, current, n)
  }

  lemma UpsertStarts(log: seq<Release>, current: seq<Release>)
    ensures UpsertSoFar(log, log, current, 0)
  {
    hide KeyOf;
  }

  lemma UpsertEnds(now: seq<Release>, log: seq<Release>, current: seq<Release>)
    requires UpsertSoFar(now, log, current, |current|)
    ensures now == RefreshAll(log, current) + Missing(log, current, |current|)
  {
    assert current[..|current|] == current;
  }

  lemma UpsertFound(now: seq<Release>, log: seq<Release>, current: seq<Release>, n: nat, idx: nat)
    requires n < |current| && UpsertSoFar(now, log, current, n) && DistinctKeys(log)
    requires idx < |log| && KeyOf(log[idx]) == KeyOf(current[n])
    ensures |now| >= |log|
    ensures UpsertSoFar(now[idx := now[idx].(images := MergeOf(now[idx].images, current[n].images),
                                             seenAt := current[n].seenAt)],
                        log, current, n + 1)
  {
    hide KeyOf, MergeOf;
    var front, back := RefreshAll(log, current[..n]), Missing(log, current, n);
    var next := now[idx := now[idx].(images := MergeOf(now[idx].images, current[n].images),
                                     seenAt := current[n].seenAt)];
    forall j | 0 <= j < |log| ensures next[j] == Refreshed(log[j], current[..n + 1]) {
      RefreshOne(log[j], current, n);
      if j < idx { assert KeyOf(log[j]) != KeyOf(log[idx]); }
      if idx < j { assert KeyOf(log[idx]) != KeyOf(log[j]); }
      assert j != idx ==> next[j] == front[j];
    }
    assert Missing(log, current, n + 1) == back;
    assert next == RefreshAll(log, current[..n + 1]) + back;
  }

  lemma UpsertMissing(now: seq<Release>, log: seq<Release>, current: seq<Release>, n: nat)
    requires n < |current| && UpsertSoFar(now, log, current, n)
    requires FindKey(log, KeyOf(current[n])) == |log|
    ensures UpsertSoFar(now + [current[n]], log, current, n + 1)
  {
    hide KeyOf, MergeOf, Refreshed, DistinctKeys;
    forall j | 0 <= j < |log| ensures Refreshed(log[j], current[..n]) == Refreshed(log[j], current[..n + 1]) {
      RefreshOne(log[j], current, n);
    }
    var front, back := RefreshAll(log, current[..n]), Missing(log, current, n);
    assert front == RefreshAll(log, current[..n + 1]);
    assert Missing(log, current, n + 1) == back + [current[n]];
    assert (front + back) + [current[n]] == front + (back + [current[n]]);
  }

  /** The working maps of `Normalize` represent the log built so far. */
  ghost predicate Indexed(byKey: map<string, Release>, order: seq<string>, log: seq<Release>) {
    && |order| == |log|
    && (forall i :: 0 <= i < |log| ==> order[i] == KeyOf(log[i]) && order[i] in byKey && byKey[order[i]] == log[i])
    && (forall k <- byKey :: k in order)
    && DistinctKeys(log)
  }

  lemma SameKey(a: Release, b: Release)
    requires a.environment == b.environment && a.revision == b.revision
    ensures KeyOf(a) == KeyOf(b)
  {
  }

  lemma IndexedFind(byKey: map<string, Release>, order: seq<string>, log: seq<Release>, key: string)
    requires Indexed(byKey, order, log)
    ensures key in byKey <==> FindKey(log, key) < |log|
    ensures key in byKey ==> byKey[key] == log[FindKey(log, key)]
  {
    hide KeyOf;
    if key in byKey {
      var i :| 0 <= i < |order| && order[i] == key;
      assert KeyOf(log[i]) == key;
    }
  }

  lemma IndexedUpdate(byKey: map<string, Release>, order: seq<string>, log: seq<Release>, i: nat, r: Release)
    requires Indexed(byKey, order, log) && i < |log| && KeyOf(r) == KeyOf(log[i])
    ensures Indexed(byKey[KeyOf(r) := r], order, log[i := r])
  {
    hide KeyOf;
    forall j | 0 <= j < |log| && j != i ensures KeyOf(log[j]) != KeyOf(log[i]) {
      if j < i { assert KeyOf(log[j]) != KeyOf(log[i]); } else { assert KeyOf(log[i]) != KeyOf(log[j]); }
    }
  }

  lemma IndexedStarts(releases: seq<Release>)
    ensures Indexed(map[], [], NormalizedUpTo(releases, 0))
  {
    hide KeyOf;
  }

  lemma IndexedEnds(byKey: map<string, Release>, order: seq<string>, log: seq<Release>)
    requires Indexed(byKey, order, log)
    ensures |order| == |log| && forall i :: 0 <= i < |log| ==> order[i] in byKey && byKey[order[i]] == log[i]
  {
    hide KeyOf;
  }

  /** What one turn of the loop in `Normalize` does to its working maps. */
  lemma IndexedSteps(byKey: map<string, Release>, order: seq<string>, releases: seq<Release>, n: nat, r: Release)
    requires n < |releases| && Indexed(byKey, order, NormalizedUpTo(releases, n))
    requires r == Release(Trim(releases[n].environment), Trim(releases[n].revision), MergeOf([], releases[n].images),
                          releases[n].seenAt)
    ensures
      var key := KeyOf(r);
      var next := NormalizedUpTo(releases, n + 1);
      if r.environment == "" || r.revision == "" || r.images == [] then Indexed(byKey, order, next)
      else if key !in byKey then Indexed(byKey[key := r], order + [key], next)
      else
        var was := byKey[key];
        var joined := was.(images := MergeOf(was.images, r.images), seenAt := if r.seenAt > was.seenAt then r.seenAt
                           else was.seenAt);
        Indexed(byKey[key := joined], order, next)
  {
    hide KeyOf, MergeOf, Trim, Indexed;
    if r.environment != "" && r.revision != "" && r.images != [] {
      var log := NormalizedUpTo(releases, n);
      IndexedFind(byKey, order, log, KeyOf(r));
      if KeyOf(r) !in byKey {
        IndexedAppend(byKey, order, log, r);
      } else {
        var was := byKey[KeyOf(r)];
        var joined := was.(images := MergeOf(was.images, r.images), seenAt := if r.seenAt > was.seenAt then r.seenAt
                           else was.seenAt);
        SameKey(joined, was);
        IndexedUpdate(byKey, order, log, FindKey(log, KeyOf(r)), joined);
      }
    }
  }

  lemma IndexedAppend(byKey: map<string, Release>, order: seq<string>, log: seq<Release>, r: Release)
    requires Indexed(byKey, order, log) && KeyOf(r) !in byKey
    ensures Indexed(byKey[KeyOf(r) := r], order + [KeyOf(r)], log + [r])
  {
    hide KeyOf;
  }

  lemma NormalDistinct(log: seq<Release>)
    requires Normal(log)
    ensures DistinctKeys(log)
  {
  }

  lemma ByKeyFinds(byKey: map<string, nat>, log: seq<Release>, key: string)
    requires DistinctKeys(log)
    requires forall k <- byKey :: byKey[k] < |log| && KeyOf(log[byKey[k]]) == k
    requires forall j :: 0 <= j < |log| ==> KeyOf(log[j]) in byKey && byKey[KeyOf(log[j])] == j
    ensures key in byKey <==> FindKey(log, key) < |log|
    ensures key in byKey ==> byKey[key] == FindKey(log, key)
  {
    hide KeyOf;
  }

  lemma {:induction false} FindKeyAppend(current: seq<Release>, c: Release, key: string)
    ensures FindKey(current + [c], key) ==
            if FindKey(current, key) < |current| then FindKey(current, key)
            else if KeyOf(c) == key then |current| else |current| + 1
  {
    hide KeyOf;
    if current != [] {
      FindKeyAppend(current[1..], c, key);
      assert (current + [c])[1..] == current[1..] + [c];
    } else {
      assert current + [c] == [c] && [c][1..] == [];
    }
  }

  lemma RefreshOne(r: Release, current: seq<Release>, i: nat)
    requires i < |current|
    ensures
      var was := Refreshed(r, current[..i]);
      Refreshed(r, current[..i + 1]) ==
      if KeyOf(r) == KeyOf(current[i]) then was.(images := MergeOf(was.images, current[i].images),
                                                 seenAt := current[i].seenAt)
      else was
  {
    hide KeyOf, MergeOf;
    assert current[..i + 1][..i] == current[..i];
  }

  /** With distinct keys at most one current release has the key. */
  lemma {:induction false} RefreshedOnce(r: Release, current: seq<Release>)
    requires DistinctKeys(current)
    ensures
      var i := FindKey(current, KeyOf(r));
      Refreshed(r, current) ==
      if i < |current| then r.(images := MergeOf(r.images, current[i].images), seenAt := current[i].seenAt) else r
  {
    hide KeyOf, MergeOf, FindKey;
    if current != [] {
      var n := |current| - 1;
      RefreshedOnce(r, current[..n]);
      assert current == current[..n] + [current[n]];
      FindKeyAppend(current[..n], current[n], KeyOf(r));
      var i := FindKey(current[..n], KeyOf(r));
      if i < n { assert current[i] == current[..n][i] && KeyOf(current[i]) != KeyOf(current[n]); }
    }
  }

  // ---- what recording does ----

  lemma FindHas(log: seq<Release>, key: string)
    ensures FindKey(log, key) < |log| <==> HasKey(log, key)
  {
    hide KeyOf;
    if FindKey(log, key) < |log| { assert KeyOf(log[FindKey(log, key)]) == key; }
  }

  /** The new entries are the current releases that the log did not have. */
  lemma {:induction false} MissingSpec(log: seq<Release>, current: seq<Release>, n: nat)
    requires n <= |current| && DistinctKeys(current)
    ensures forall r :: r in Missing(log, current, n) <==> r in current[..n] && !HasKey(log, KeyOf(r))
    ensures DistinctKeys(Missing(log, current, n))
  {
    hide KeyOf, FindKey, HasKey;
    if n > 0 {
      MissingSpec(log, current, n - 1);
      FindHas(log, KeyOf(current[n - 1]));
      assert current[..n] == current[..n - 1] + [current[n - 1]];
      var r := current[n - 1];
      forall q <- Missing(log, current, n - 1) ensures KeyOf(q) != KeyOf(r) {
        assert q in current[..n - 1];
        var j :| 0 <= j < n - 1 && current[j] == q;
        assert KeyOf(current[j]) != KeyOf(current[n - 1]);
      }
    }
  }

  lemma RefreshedSpec(r: Release, current: seq<Release>)
    requires DistinctKeys(current)
    ensures KeyOf(Refreshed(r, current)) == KeyOf(r)
    ensures NormalRelease(r) ==> NormalRelease(Refreshed(r, current))
    ensures !HasKey(current, KeyOf(r)) ==> Refreshed(r, current) == r
  {
    hide MergeOf, FindKey, HasKey, Trim, Refreshed;
    var i := FindKey(current, KeyOf(r));
    FindHas(current, KeyOf(r));
    RefreshedOnce(r, current);
    if i < |current| {
      SameKey(r, Refreshed(r, current));
      MergeIsClean(r.images, current[i].images);
      MergeSpec(r.images, current[i].images);
      if NormalRelease(r) {
        OccursInClean(r.images, r.images[0]);
        assert r.images[0] in MergeOf(r.images, current[i].images);
      }
    }
  }

  /** What a record of the log says once `current` has been recorded at `now`. */
  ghost predicate UpToDate(r: Release, before: seq<Release>, current: seq<Release>) {
    if HasKey(current, KeyOf(r)) then
      exists c <- current :: KeyOf(c) == KeyOf(r) && r.seenAt == c.seenAt && forall x <- c.images :: x in r.images
    else r in before
  }

  ghost predicate CurrentList(current: seq<Release>) {
    DistinctKeys(current) && forall c <- current :: NormalRelease(c)
  }

  lemma RefreshedUpToDate(log: seq<Release>, current: seq<Release>, i: nat)
    requires Normal(log) && CurrentList(current) && i < |log|
    ensures UpToDate(Refreshed(log[i], current), log, current)
  {
    hide MergeOf, KeyOf, HasKey, StrictlySorted, Refreshed;
    var r := log[i];
    var now := Refreshed(r, current);
    RefreshedSpec(r, current);
    RefreshedOnce(r, current);
    FindHas(current, KeyOf(r));
    if HasKey(current, KeyOf(r)) {
      var c := current[FindKey(current, KeyOf(r))];
      assert c in current && NormalRelease(c);
      MergeSpec(r.images, c.images);
      forall x | x in c.images ensures x in now.images { OccursInClean(c.images, x); }
    }
  }

  /** Recording keeps one clean record per release; a current release ends up
      with at least its images and the current time, every other one is left
      alone, and none is lost. */
  lemma UpsertedSpec(releases: seq<Release>, current: seq<Release>)
    requires CurrentList(current)
    ensures Normal(Upserted(releases, current))
    ensures forall r <- Upserted(releases, current) :: UpToDate(r, Normalized(releases), current)
    ensures forall k :: HasKey(Upserted(releases, current), k) <==>
      HasKey(Normalized(releases), k) || HasKey(current, k)
  {
    hide KeyOf, Normalized, NormalRelease, Refreshed, Missing, UpToDate, Trim;
    var log := Normalized(releases);
    NormalizedIsNormal(releases);
    var front, back := RefreshAll(log, current), Missing(log, current, |current|);
    MissingSpec(log, current, |current|);
    assert current[..|current|] == current;
    forall i | 0 <= i < |log|
      ensures KeyOf(front[i]) == KeyOf(log[i]) && NormalRelease(front[i]) && UpToDate(front[i], log, current)
    {
      assert log[i] in log;
      RefreshedSpec(log[i], current);
      RefreshedUpToDate(log, current, i);
    }
    forall r | r in back ensures NormalRelease(r) && UpToDate(r, log, current) { NewUpToDate(r, log, current); }
    JoinedKeys(log, front, back);
    forall k ensures HasKey(front + back, k) <==> HasKey(log, k) || HasKey(current, k) {
      KeysOfJoin(front, back, k);
      SameKeys(log, front, k);
      if HasKey(back, k) { var j :| 0 <= j < |back| && KeyOf(back[j]) == k; InHasKey(current, back[j]); }
      if HasKey(current, k) && !HasKey(log, k) {
        var j :| 0 <= j < |current| && KeyOf(current[j]) == k;
        InHasKey(back, current[j]);
      }
    }
  }

  lemma InHasKey(log: seq<Release>, r: Release)
    requires r in log
    ensures HasKey(log, KeyOf(r))
  {
    hide KeyOf;
    var j :| 0 <= j < |log| && log[j] == r;
  }

  lemma NewUpToDate(r: Release, before: seq<Release>, current: seq<Release>)
    requires CurrentList(current) && r in current
    ensures NormalRelease(r) && UpToDate(r, before, current)
  {
    hide KeyOf, NormalRelease;
    InHasKey(current, r);
  }

  lemma SameKeys(a: seq<Release>, b: seq<Release>, k: string)
    requires |a| == |b| && forall i :: 0 <= i < |a| ==> KeyOf(a[i]) == KeyOf(b[i])
    ensures HasKey(a, k) <==> HasKey(b, k)
  {
    hide KeyOf;
    if HasKey(a, k) { var i :| 0 <= i < |a| && KeyOf(a[i]) == k; assert KeyOf(b[i]) == k; }
    if HasKey(b, k) { var i :| 0 <= i < |b| && KeyOf(b[i]) == k; assert KeyOf(a[i]) == k; }
  }

  lemma KeysOfJoin(a: seq<Release>, b: seq<Release>, k: string)
    ensures HasKey(a + b, k) <==> HasKey(a, k) || HasKey(b, k)
  {
    hide KeyOf;
    if HasKey(a, k) { var i :| 0 <= i < |a| && KeyOf(a[i]) == k; assert KeyOf((a + b)[i]) == k; }
    if HasKey(b, k) { var i :| 0 <= i < |b| && KeyOf(b[i]) == k; assert KeyOf((a + b)[|a| + i]) == k; }
    if HasKey(a + b, k) {
      var i :| 0 <= i < |a + b| && KeyOf((a + b)[i]) == k;
      if i < |a| { assert KeyOf(a[i]) == k; } else { assert KeyOf(b[i - |a|]) == k; }
    }
  }

  lemma JoinedKeys(log: seq<Release>, front: seq<Release>, back: seq<Release>)
    requires DistinctKeys(log) && |front| == |log| && (forall i :: 0 <= i < |log| ==> KeyOf(front[i]) == KeyOf(log[i]))
    requires DistinctKeys(back) && forall r <- back :: !HasKey(log, KeyOf(r))
    ensures DistinctKeys(front + back)
  {
    hide KeyOf;
    forall i, j | 0 <= i < j < |front + back| ensures KeyOf((front + back)[i]) != KeyOf((front + back)[j]) {
      if i < |front| && j >= |front| {
        assert back[j - |front|] in back;
        assert KeyOf(log[i]) == KeyOf(front[i]);
      }
    }
  }

  // ---- what dropping does ----

  lemma {:induction false} WithoutSpec(images: seq<string>, removed: set<string>)
    ensures forall x :: x in Without(images, removed) <==> x in images && x !in removed
    ensures StrictlySorted(images) ==> StrictlySorted(Without(images, removed))
  {
    if images != [] {
      WithoutSpec(images[1..], removed);
      assert images == [images[0]] + images[1..];
      if StrictlySorted(images) {
        var rest := Without(images[1..], removed);
        forall x | x in rest ensures Less(images[0], x) {
          var j :| 0 <= j < |images[1..]| && images[1..][j] == x;
          assert images[j + 1] == x;
        }
      }
    }
  }

  /** `now` is what dropping leaves of record `r`. */
  predicate LeftOf(r: Release, removed: set<string>, retained: set<string>, now: Release) {
    if KeyOf(r) in retained then now == r
    else Without(r.images, removed) != [] && now == r.(images := Without(r.images, removed))
  }

  /** `source[p]` is where record `p` of `now` stood in `releases`: the order is
      kept, a retained record is untouched, any other loses exactly the removed
      images, and a record disappears only when no image is left. */
  ghost predicate Shrunk(releases: seq<Release>, removed: set<string>, retained: set<string>, now: seq<Release>,
                         source: seq<nat>) {
    && |source| == |now|
    && (forall p :: 0 <= p < |source| ==> source[p] < |releases|)
    && (forall p :: 0 <= p < |source| ==> LeftOf(releases[source[p]], removed, retained, now[p]))
    && (forall p, q :: 0 <= p < q < |source| ==> source[p] < source[q])
    && (forall i: nat :: i < |releases| && i !in source ==> Vanishes(releases[i], removed, retained))
  }

  predicate Vanishes(r: Release, removed: set<string>, retained: set<string>) {
    KeyOf(r) !in retained && Without(r.images, removed) == []
  }

  lemma {:induction false} DroppedSpec(releases: seq<Release>, removed: set<string>, retained: set<string>)
    returns (source: seq<nat>)
    ensures Shrunk(releases, removed, retained, Dropped(releases, removed, retained), source)
  {
    hide KeyOf, Without, Shrunk;
    if releases == [] {
      source := [];
      NothingShrunk(removed, retained);
    } else {
      var tail := DroppedSpec(releases[1..], removed, retained);
      var rest := Dropped(releases[1..], removed, retained);
      var r := releases[0];
      if Vanishes(r, removed, retained) {
        source := Shifted(tail);
        ShrunkAway(releases, removed, retained, rest, tail);
      } else {
        var now := if KeyOf(r) in retained then r else r.(images := Without(r.images, removed));
        source := [0] + Shifted(tail);
        ShrunkKept(releases, removed, retained, now, rest, tail);
      }
    }
  }

  lemma NothingShrunk(removed: set<string>, retained: set<string>)
    ensures Shrunk([], removed, retained, [], [])
  {
  }

  function Shifted(source: seq<nat>): (r: seq<nat>)
    ensures |r| == |source| && forall p :: 0 <= p < |r| ==> r[p] == source[p] + 1
  {
    seq(|source|, p requires 0 <= p < |source| => source[p] + 1)
  }

  lemma ShrunkAway(releases: seq<Release>, removed: set<string>, retained: set<string>, rest: seq<Release>,
                   tail: seq<nat>)
    requires releases != [] && Shrunk(releases[1..], removed, retained, rest, tail) &&
      Vanishes(releases[0], removed, retained)
    ensures Shrunk(releases, removed, retained, rest, Shifted(tail))
  {
    hide LeftOf, Vanishes;
    forall i: nat | i < |releases| && i !in Shifted(tail) ensures Vanishes(releases[i], removed, retained) {
      if i > 0 { ShiftedHas(tail, i); assert releases[i] == releases[1..][i - 1]; }
    }
  }

  lemma ShiftedHas(tail: seq<nat>, i: nat)
    requires i > 0
    ensures i - 1 in tail ==> i in Shifted(tail)
  {
    if i - 1 in tail {
      var p :| 0 <= p < |tail| && tail[p] == i - 1;
      assert Shifted(tail)[p] == i;
    }
  }

  /** The positions that remain when the first record is kept. */
  function Kept(tail: seq<nat>): (source: seq<nat>)
    ensures |source| == |tail| + 1 && source[0] == 0
    ensures forall p :: 1 <= p < |source| ==> source[p] == tail[p - 1] + 1
  {
    [0] + Shifted(tail)
  }

  lemma KeptHas(tail: seq<nat>, i: nat)
    ensures i in Kept(tail) <==> i == 0 || i - 1 in tail
  {
    var source := Kept(tail);
    if i == 0 { assert source[0] == i; }
    if i > 0 && i - 1 in tail {
      var p :| 0 <= p < |tail| && tail[p] == i - 1;
      assert source[p + 1] == i;
    }
  }

  lemma ShrunkKept(releases: seq<Release>, removed: set<string>, retained: set<string>, now: Release,
                   rest: seq<Release>, tail: seq<nat>)
    requires releases != [] && Shrunk(releases[1..], removed, retained, rest, tail) &&
      LeftOf(releases[0], removed, retained, now)
    ensures Shrunk(releases, removed, retained, [now] + rest, [0] + Shifted(tail))
  {
    hide LeftOf, Vanishes, Kept, Shifted;
    var source := Kept(tail);
    assert source == [0] + Shifted(tail) by { hide *; KeptIs(tail); }
    forall i: nat | i < |releases| && i !in source ensures Vanishes(releases[i], removed, retained) {
      KeptHas(tail, i);
      assert releases[i] == releases[1..][i - 1];
    }
    forall p | 0 <= p < |source|
      ensures source[p] < |releases| && LeftOf(releases[source[p]], removed, retained, ([now] + rest)[p])
    {
      if p > 0 { assert releases[1..][tail[p - 1]] == releases[source[p]]; }
    }
  }

  lemma KeptIs(tail: seq<nat>)
    ensures Kept(tail) == [0] + Shifted(tail)
  {
  }

  /** Dropping keeps the log normal. */
  lemma DroppedNormal(releases: seq<Release>, removed: set<string>, retained: set<string>)
    requires Normal(releases)
    ensures Normal(Dropped(releases, removed, retained))
  {
    hide Trim, Dropped, Without, StrictlySorted;
    var source := DroppedSpec(releases, removed, retained);
    var now := Dropped(releases, removed, retained);
    forall p | 0 <= p < |now| ensures NormalRelease(now[p]) && KeyOf(now[p]) == KeyOf(releases[source[p]]) {
      assert releases[source[p]] in releases;
      WithoutSpec(releases[source[p]].images, removed);
      SameKey(now[p], releases[source[p]]);
    }
    forall p, q | 0 <= p < q < |now| ensures KeyOf(now[p]) != KeyOf(now[q]) {
      assert source[p] < source[q];
    }
  }
}
