/** Which images disk care may ask the engine to remove, and why it settles:
    once it has run without error, running again finds nothing to remove. */
module Pruning {
  import opened Text
  import opened Sorting
  import opened StringLists
  import opened ReleaseLogs
  import opened Retention

  /** One image that a release of the desired state needs. */
  datatype Need = Need(environment: string, revision: string, image: string)

  /** Needs with a blank part are not recorded. */
  predicate Counts(n: Need) {
    !Blank(n.environment) && !Blank(n.revision) && !Blank(n.image)
  }

  function NeedKey(n: Need): string {
    Trim(n.environment) + ['\0'] + Trim(n.revision)
  }

  /** One of the first `n` needs puts image `x` under `key`. */
  ghost predicate Needed(needs: seq<Need>, n: nat, key: string, x: string)
    requires n <= |needs|
  {
    exists j :: 0 <= j < n && Counts(needs[j]) && NeedKey(needs[j]) == key && Trim(needs[j].image) == x
  }

  /** `current` lists, in some order, the releases that `needs` speaks of, each
      with exactly its images, all seen at `now`. */
  ghost predicate Describes(current: seq<Release>, needs: seq<Need>, now: int) {
    && CurrentList(current)
    && (forall c <- current :: c.seenAt == now)
    && (forall c <- current, x :: x in c.images <==> Needed(needs, |needs|, KeyOf(c), x))
    && (forall key, x :: Needed(needs, |needs|, key, x) ==> HasKey(current, key))
  }

  /** The order in which the releases come out does not matter. */
  lemma DescriptionsAgree(a: seq<Release>, b: seq<Release>, needs: seq<Need>, t: int, u: int)
    requires Describes(a, needs, t) && Describes(b, needs, u)
    ensures forall key :: HasKey(a, key) <==> HasKey(b, key)
    ensures forall c <- a, d <- b :: KeyOf(c) == KeyOf(d) ==> c.images == d.images
  {
    hide KeyOf, Needed, HasKey, StrictlySorted;
    forall key ensures HasKey(a, key) <==> HasKey(b, key) {
      OneCovers(a, b, needs, t, u, key);
      OneCovers(b, a, needs, u, t, key);
    }
    forall c <- a, d <- b | KeyOf(c) == KeyOf(d) ensures c.images == d.images {
      assert NormalRelease(c) && NormalRelease(d);
      StrictlySortedUnique(c.images, d.images);
    }
  }

  lemma OneCovers(a: seq<Release>, b: seq<Release>, needs: seq<Need>, t: int, u: int, key: string)
    requires Describes(a, needs, t) && Describes(b, needs, u)
    ensures HasKey(a, key) ==> HasKey(b, key)
  {
    hide KeyOf, Needed, StrictlySorted;
    if HasKey(a, key) {
      var i :| 0 <= i < |a| && KeyOf(a[i]) == key;
      assert a[i] in a && NormalRelease(a[i]);
      var x := a[i].images[0];
      assert x in a[i].images;
    }
  }

  // ---- what may be removed ----

  /** The keys that `retainedReleaseKeys` answers. */
  ghost predicate RetainedBy(retained: set<string>, log: seq<Release>, current: seq<Release>, keep: int) {
    forall key :: key in retained <==> Keeps(log, current, keep, key)
  }

  /** Image `x` is listed by a record inside (or outside) `retained`. */
  ghost predicate Listed(log: seq<Release>, retained: set<string>, inside: bool, x: string) {
    exists i :: 0 <= i < |log| && (KeyOf(log[i]) in retained <==> inside) && x in log[i].images
  }

  ghost predicate Current(current: seq<Release>, x: string) {
    exists c <- current :: x in c.images
  }

  /** The images that must stay. */
  ghost predicate Holds(log: seq<Release>, retained: set<string>, current: seq<Release>, spared: set<string>,
                        x: string) {
    x in spared || Current(current, x) || Listed(log, retained, true, x)
  }

  /** The images that disk care asks the engine to remove: only releases outside
      the window list them and nothing else holds them.  `spared` are the
      protected and the used ones. */
  ghost predicate Candidate(log: seq<Release>, retained: set<string>, current: seq<Release>, spared: set<string>,
                            x: string) {
    Listed(log, retained, false, x) && !Holds(log, retained, current, spared, x)
  }

  /** Every need of the desired state is held. */
  lemma NeedsAreHeld(needs: seq<Need>, now: int, log: seq<Release>, retained: set<string>, current: seq<Release>,
                     spared: set<string>, x: string)
    requires Describes(current, needs, now) && Candidate(log, retained, current, spared, x)
    ensures forall n <- needs :: Counts(n) ==> Trim(n.image) != x
  {
    hide KeyOf, Counts, NeedKey, Trim, Listed;
    forall n <- needs | Counts(n) ensures Trim(n.image) != x {
      var j :| 0 <= j < |needs| && needs[j] == n;
      assert Needed(needs, |needs|, NeedKey(n), Trim(n.image));
      var i :| 0 <= i < |current| && KeyOf(current[i]) == NeedKey(n);
      assert Trim(n.image) in current[i].images;
    }
  }

  // ---- settling ----

  /** The log with the time of the current releases moved to `later`. */
  function Retimed(log: seq<Release>, current: seq<Release>, later: int): (r: seq<Release>)
    ensures |r| == |log|
  {
    seq(|log|, i requires 0 <= i < |log| =>
      if FindKey(current, KeyOf(log[i])) < |current| then log[i].(seenAt := later) else log[i])
  }

  lemma RetimedAt(log: seq<Release>, current: seq<Release>, later: int, i: nat)
    requires i < |log|
    ensures
      var r := Retimed(log, current, later)[i];
      && KeyOf(r) == KeyOf(log[i]) && EnvOf(r) == EnvOf(log[i])
      && r.seenAt == if HasKey(current, KeyOf(log[i])) then later else log[i].seenAt
  {
    hide Trim, FindKey, HasKey;
    FindHas(current, KeyOf(log[i]));
    SameKey(Retimed(log, current, later)[i], log[i]);
  }

  /** The releases that go ahead of record `i`. */
  function AheadKeys(log: seq<Release>, i: nat): set<string>
    requires i < |log|
  {
    AheadKeysUpTo(log, i, |log|)
  }

  function AheadKeysUpTo(log: seq<Release>, i: nat, n: nat): set<string>
    requires i < |log| && n <= |log|
  {
    set j: nat | j < n && Precedes(log, j, i) :: KeyOf(log[j])
  }

  lemma NotAheadYet(log: seq<Release>, i: nat, n: nat)
    requires DistinctKeys(log) && i < |log| && n < |log|
    ensures KeyOf(log[n]) !in AheadKeysUpTo(log, i, n)
  {
    hide KeyOf, Precedes;
  }

  /** With distinct keys they are as many as the records ahead. */
  lemma {:induction false} AheadSize(log: seq<Release>, i: nat, n: nat)
    requires DistinctKeys(log) && i < |log| && n <= |log|
    ensures |AheadKeysUpTo(log, i, n)| == |AheadUpTo(log, i, n)|
  {
    hide KeyOf, Precedes, DistinctKeys;
    if n == 0 {
      assert AheadKeysUpTo(log, i, n) == {} && AheadUpTo(log, i, n) == {};
    } else {
      AheadSize(log, i, n - 1);
      AheadStep(log, i, n - 1);
      var was := AheadKeysUpTo(log, i, n - 1);
      if Precedes(log, n - 1, i) {
        NotAheadYet(log, i, n - 1);
        assert AheadKeysUpTo(log, i, n) == was + {KeyOf(log[n - 1])};
      } else {
        assert AheadKeysUpTo(log, i, n) == was;
      }
    }
  }

  /** What being recent means in a log with distinct keys. */
  lemma RecentIs(log: seq<Release>, keep: int, i: nat)
    requires DistinctKeys(log) && i < |log|
    ensures Recent(log, keep, KeyOf(log[i])) <==> |AheadKeys(log, i)| < keep
  {
    hide KeyOf, DistinctKeys, AheadUpTo, AheadKeysUpTo;
    AheadSize(log, i, |log|);
    if Recent(log, keep, KeyOf(log[i])) {
      var j: nat :| j < |log| && KeyOf(log[j]) == KeyOf(log[i]) && |Ahead(log, j)| < keep;
      SameKeySameIndex(log, i, j);
    }
  }

  /** Past release `i` is recent in the first run, and would not be if the current
      releases were seen at `later`. */
  ghost predicate LosesPlace(log: seq<Release>, current: seq<Release>, later: int, keep: int, i: nat) {
    && i < |log| && !HasKey(current, KeyOf(log[i]))
    && |AheadKeys(log, i)| < keep <= |AheadKeys(Retimed(log, current, later), i)|
  }

  /** How the log of the second run relates to that of the first: `source[p]` is
      where record `p` stood. */
  ghost predicate Later(log: seq<Release>, retained: set<string>, current: seq<Release>, removed: set<string>,
                        later: int, next: seq<Release>, source: seq<nat>) {
    && |source| == |next|
    && (forall p :: 0 <= p < |next| ==> source[p] < |log|)
    && (forall p, q :: 0 <= p < q < |next| ==> source[p] < source[q])
    && (forall p :: 0 <= p < |next| ==> Aged(log[source[p]], retained, current, removed, later, next[p]))
    && (forall i: nat :: i < |log| && KeyOf(log[i]) in retained ==> i in source)
    && (forall i: nat, x :: i < |log| && x in log[i].images && x !in removed ==> i in source)
  }

  /** One record, one run later. */
  ghost predicate Aged(r: Release, retained: set<string>, current: seq<Release>, removed: set<string>, later: int,
                       next: Release) {
    && KeyOf(next) == KeyOf(r) && EnvOf(next) == EnvOf(r)
    && next.images == (if KeyOf(r) in retained then r.images else Without(r.images, removed))
    && next.seenAt == if HasKey(current, KeyOf(r)) then later else r.seenAt
  }

  /** Who goes ahead of one that goes ahead of `i`, goes ahead of `i`. */
  lemma AheadNested(log: seq<Release>, j: nat, i: nat)
    requires DistinctKeys(log) && i < |log| && j < |log| && Precedes(log, j, i)
    ensures |AheadKeys(log, j)| < |AheadKeys(log, i)|
  {
    hide KeyOf, EnvOf;
    var outer, inner := AheadKeys(log, i), AheadKeys(log, j);
    assert KeyOf(log[j]) in outer;
    forall key <- inner ensures key in outer && key != KeyOf(log[j]) {
      var k: nat :| k < |log| && Precedes(log, k, j) && KeyOf(log[k]) == key;
      assert Precedes(log, k, i) && k != j;
      if key == KeyOf(log[j]) { SameKeySameIndex(log, k, j); }
    }
    SubsetSize(inner, outer - {KeyOf(log[j])});
  }

  /** In the second run exactly those releases go ahead of a past release that
      would have gone ahead of it at `later` in the first: whoever is ahead of a
      recent release is recent too, so none of them was dropped. */
  lemma AheadLater(log: seq<Release>, retained: set<string>, current: seq<Release>, removed: set<string>, later: int,
                   next: seq<Release>, source: seq<nat>, keep: int, p: nat)
    requires DistinctKeys(log) && RetainedBy(retained, log, current, keep)
    requires Later(log, retained, current, removed, later, next, source)
    requires p < |next| && !HasKey(current, KeyOf(next[p])) && |AheadKeys(log, source[p])| < keep
    ensures AheadKeys(next, p) == AheadKeys(Retimed(log, current, later), source[p])
  {
    hide KeyOf, HasKey, EnvOf, Without, DistinctKeys, Keeps, Retimed, RetainedBy;
    var then_ := Retimed(log, current, later);
    assert Aged(log[source[p]], retained, current, removed, later, next[p]);
    RetimedAt(log, current, later, source[p]);
    forall key <- AheadKeys(next, p) ensures key in AheadKeys(then_, source[p]) {
      var q: nat :| q < |next| && Precedes(next, q, p) && KeyOf(next[q]) == key;
      assert Aged(log[source[q]], retained, current, removed, later, next[q]);
      RetimedAt(log, current, later, source[q]);
      assert Precedes(then_, source[q], source[p]);
      assert KeyOf(then_[source[q]]) == key;
    }
    forall key <- AheadKeys(then_, source[p]) ensures key in AheadKeys(next, p) {
      var j: nat :| j < |log| && Precedes(then_, j, source[p]) && KeyOf(then_[j]) == key;
      RetimedAt(log, current, later, j);
      AheadIsRetained(log, retained, current, later, keep, j, source[p]);
      var q :| 0 <= q < |source| && source[q] == j;
      assert Aged(log[source[q]], retained, current, removed, later, next[q]);
      assert Precedes(next, q, p) && KeyOf(next[q]) == key;
    }
  }

  lemma AheadIsRetained(log: seq<Release>, retained: set<string>, current: seq<Release>, later: int, keep: int, j: nat,
                        i: nat)
    requires DistinctKeys(log) && RetainedBy(retained, log, current, keep)
    requires i < |log| && j < |log| && !HasKey(current, KeyOf(log[i])) && |AheadKeys(log, i)| < keep
    requires Precedes(Retimed(log, current, later), j, i)
    ensures KeyOf(log[j]) in retained
  {
    hide KeyOf, HasKey, EnvOf, DistinctKeys, AheadKeys;
    RetimedAt(log, current, later, i);
    RetimedAt(log, current, later, j);
    if !HasKey(current, KeyOf(log[j])) {
      assert Precedes(log, j, i);
      AheadNested(log, j, i);
      RecentIs(log, keep, j);
    }
    assert Keeps(log, current, keep, KeyOf(log[j]));
  }

  /** A release retained in the first run is retained in the second, unless it is a
      past one that loses its place. */
  lemma StillKept(log: seq<Release>, retained: set<string>, current: seq<Release>, removed: set<string>, later: int,
                  next: seq<Release>, source: seq<nat>, current': seq<Release>, retained': set<string>, keep: int,
                  p: nat)
    requires DistinctKeys(log) && DistinctKeys(next) && Later(log, retained, current, removed, later, next, source)
    requires RetainedBy(retained, log, current, keep) && RetainedBy(retained', next, current', keep)
    requires forall key :: HasKey(current, key) <==> HasKey(current', key)
    requires p < |next| && KeyOf(next[p]) in retained
    ensures KeyOf(next[p]) in retained' <==> !LosesPlace(log, current, later, keep, source[p])
  {
    hide KeyOf, HasKey, EnvOf, Without, DistinctKeys, AheadKeys, Retimed, Recent;
    var key := KeyOf(next[p]);
    assert Aged(log[source[p]], retained, current, removed, later, next[p]);
    assert Keeps(log, current, keep, key);
    if !HasKey(current, key) {
      RecentIs(log, keep, source[p]);
      AheadLater(log, retained, current, removed, later, next, source, keep, p);
      RecentIs(next, keep, p);
    }
  }

  /** Some past release that loses its place lists the image. */
  ghost predicate Displaced(log: seq<Release>, current: seq<Release>, later: int, keep: int, x: string) {
    exists i: nat :: i < |log| && LosesPlace(log, current, later, keep, i) && x in log[i].images
  }

  /** An image held in the first run is held in the second, unless only releases
      that lose their place held it or it came free. */
  lemma StillHeld(log: seq<Release>, retained: set<string>, current: seq<Release>, removed: set<string>, later: int,
                  next: seq<Release>, source: seq<nat>, current': seq<Release>, retained': set<string>, keep: int,
                  spared: set<string>, spared': set<string>, x: string)
    requires DistinctKeys(log) && DistinctKeys(next) && Later(log, retained, current, removed, later, next, source)
    requires RetainedBy(retained, log, current, keep) && RetainedBy(retained', next, current', keep)
    requires forall key :: HasKey(current, key) <==> HasKey(current', key)
    requires forall c <- current, d <- current' :: KeyOf(c) == KeyOf(d) ==> c.images == d.images
    requires Holds(log, retained, current, spared, x)
    ensures Holds(next, retained', current', spared', x) || Displaced(log, current, later, keep, x) ||
      x in spared - spared'
  {
    hide KeyOf, HasKey, EnvOf, Without, DistinctKeys, RetainedBy, LosesPlace;
    if Current(current, x) {
      SameCurrent(current, current', x);
    } else if Listed(log, retained, true, x) {
      var i :| 0 <= i < |log| && KeyOf(log[i]) in retained && x in log[i].images;
      var p :| 0 <= p < |source| && source[p] == i;
      assert Aged(log[source[p]], retained, current, removed, later, next[p]);
      StillKept(log, retained, current, removed, later, next, source, current', retained', keep, p);
      if KeyOf(next[p]) in retained' { assert Listed(next, retained', true, x); }
    }
  }

  lemma SameCurrent(current: seq<Release>, current': seq<Release>, x: string)
    requires forall key :: HasKey(current, key) <==> HasKey(current', key)
    requires forall c <- current, d <- current' :: KeyOf(c) == KeyOf(d) ==> c.images == d.images
    requires Current(current, x)
    ensures Current(current', x)
  {
    hide KeyOf;
    var c :| c in current && x in c.images;
    InHasKey(current, c);
    assert HasKey(current', KeyOf(c));
    var j :| 0 <= j < |current'| && KeyOf(current'[j]) == KeyOf(c);
    assert current'[j] in current';
  }

  /** A release outside the window of the first run lists the image, and it was not
      removed: it was held then, or the removal failed. */
  ghost predicate LeftOver(log: seq<Release>, retained: set<string>, removed: set<string>, x: string) {
    Listed(log, retained, false, x) && x !in removed
  }

  /** The candidates of the second run: exactly the images of releases that lose
      their place and those left over, as far as nothing holds them now. */
  lemma CandidatesLater(log: seq<Release>, retained: set<string>, current: seq<Release>, removed: set<string>,
                        later: int, next: seq<Release>, source: seq<nat>,
                        current': seq<Release>, retained': set<string>, keep: int, spared': set<string>, x: string)
    requires DistinctKeys(log) && DistinctKeys(next) && Later(log, retained, current, removed, later, next, source)
    requires RetainedBy(retained, log, current, keep) && RetainedBy(retained', next, current', keep)
    requires forall key :: HasKey(current, key) <==> HasKey(current', key)
    ensures Candidate(next, retained', current', spared', x) <==>
            && (Displaced(log, current, later, keep, x) || LeftOver(log, retained, removed, x))
            && !Holds(next, retained', current', spared', x)
  {
    hide KeyOf, HasKey, EnvOf, Without, DistinctKeys, AheadKeys, RetainedBy, Current, LosesPlace;
    if Listed(next, retained', false, x) {
      var p :| 0 <= p < |next| && KeyOf(next[p]) !in retained' && x in next[p].images;
      assert Aged(log[source[p]], retained, current, removed, later, next[p]);
      if KeyOf(next[p]) in retained {
        StillKept(log, retained, current, removed, later, next, source, current', retained', keep, p);
      } else {
        WithoutSpec(log[source[p]].images, removed);
      }
    }
    if Displaced(log, current, later, keep, x) {
      var i: nat :| i < |log| && LosesPlace(log, current, later, keep, i) && x in log[i].images;
      LoserIsKept(log, retained, current, later, keep, i);
      var p :| 0 <= p < |source| && source[p] == i;
      assert Aged(log[source[p]], retained, current, removed, later, next[p]);
      StillKept(log, retained, current, removed, later, next, source, current', retained', keep, p);
      assert Listed(next, retained', false, x);
    }
    if LeftOver(log, retained, removed, x) {
      var i: nat :| i < |log| && KeyOf(log[i]) !in retained && x in log[i].images;
      var p :| 0 <= p < |source| && source[p] == i;
      assert Aged(log[source[p]], retained, current, removed, later, next[p]);
      WithoutSpec(log[i].images, removed);
      assert Listed(next, retained', KeyOf(next[p]) in retained', x);
    }
  }

  lemma LoserIsKept(log: seq<Release>, retained: set<string>, current: seq<Release>, later: int, keep: int, i: nat)
    requires DistinctKeys(log) && RetainedBy(retained, log, current, keep) && LosesPlace(log, current, later, keep, i)
    ensures i < |log| && KeyOf(log[i]) in retained
  {
    hide KeyOf, HasKey, AheadKeys, DistinctKeys;
    RecentIs(log, keep, i);
    assert Keeps(log, current, keep, KeyOf(log[i]));
  }

  // ---- who loses its place ----

  /** The past releases ahead of release `i`. */
  function PastAhead(log: seq<Release>, current: seq<Release>, i: nat): set<string>
    requires i < |log|
  {
    set j: nat | j < |log| && Precedes(log, j, i) && FindKey(current, KeyOf(log[j])) == |current| :: KeyOf(log[j])
  }

  ghost predicate CurrentBeside(log: seq<Release>, current: seq<Release>, i: nat, c: nat)
    requires i < |log|
  {
    c < |log| && EnvOf(log[c]) == EnvOf(log[i]) && HasKey(current, KeyOf(log[c]))
  }

  /** The environment of release `i` has at most one current release. */
  ghost predicate OneCurrent(log: seq<Release>, current: seq<Release>, i: nat)
    requires i < |log|
  {
    forall c: nat, d: nat :: CurrentBeside(log, current, i, c) && CurrentBeside(log, current, i, d) ==> c == d
  }

  /** A current release that was not ahead of release `i` is ahead of it at
      `later`. */
  ghost predicate Overtaken(log: seq<Release>, current: seq<Release>, later: int, i: nat)
    requires i < |log|
  {
    exists c: nat :: CurrentBeside(log, current, i, c) &&
      !Precedes(log, c, i) && Precedes(Retimed(log, current, later), c, i)
  }

  lemma AheadOfPast(log: seq<Release>, current: seq<Release>, later: int, i: nat, c: nat)
    requires DistinctKeys(log) && i < |log| && !HasKey(current, KeyOf(log[i]))
    requires OneCurrent(log, current, i) && CurrentBeside(log, current, i, c)
    ensures |AheadKeys(log, i)| == |PastAhead(log, current, i)| + if Precedes(log, c, i) then 1 else 0
    ensures |AheadKeys(Retimed(log, current, later), i)| ==
            |PastAhead(log, current, i)| + if Precedes(Retimed(log, current, later), c, i) then 1 else 0
  {
    hide KeyOf, HasKey, EnvOf, FindKey, DistinctKeys, Retimed, AheadKeys, PastAhead, Precedes;
    var past := PastAhead(log, current, i);
    OnlyOne(log, current, i, c);
    AheadBefore(log, current, i, c);
    AheadThen(log, current, later, i, c);
    assert AheadKeys(log, i) == past + if Precedes(log, c, i) then {KeyOf(log[c])} else {};
    var then_ := Retimed(log, current, later);
    assert AheadKeys(then_, i) == past + if Precedes(then_, c, i) then {KeyOf(log[c])} else {};
  }

  /** Nothing else beside record `i` is current, and `c` is not past. */
  lemma OnlyOne(log: seq<Release>, current: seq<Release>, i: nat, c: nat)
    requires DistinctKeys(log) && i < |log| && OneCurrent(log, current, i) && CurrentBeside(log, current, i, c)
    ensures forall j: nat :: j < |log| ==>
              && (FindKey(current, KeyOf(log[j])) == |current| <==> !HasKey(current, KeyOf(log[j])))
              && (EnvOf(log[j]) == EnvOf(log[i]) && HasKey(current, KeyOf(log[j])) ==> j == c)
    ensures c < |log| && KeyOf(log[c]) !in PastAhead(log, current, i)
  {
    hide KeyOf, HasKey, EnvOf, FindKey;
    forall j: nat | j < |log|
      ensures FindKey(current, KeyOf(log[j])) == |current| <==> !HasKey(current, KeyOf(log[j]))
      ensures EnvOf(log[j]) == EnvOf(log[i]) && HasKey(current, KeyOf(log[j])) ==> j == c
    {
      FindHas(current, KeyOf(log[j]));
      assert CurrentBeside(log, current, i, j) ==> j == c;
    }
  }

  lemma AheadBefore(log: seq<Release>, current: seq<Release>, i: nat, c: nat)
    requires DistinctKeys(log) && i < |log| && !HasKey(current, KeyOf(log[i]))
    requires OneCurrent(log, current, i) && CurrentBeside(log, current, i, c)
    ensures forall key :: key in AheadKeys(log, i) <==>
              key in PastAhead(log, current, i) || (Precedes(log, c, i) && key == KeyOf(log[c]))
  {
    hide KeyOf, HasKey, EnvOf, FindKey, DistinctKeys;
    var past := PastAhead(log, current, i);
    OnlyOne(log, current, i, c);
    forall key ensures key in AheadKeys(log, i) <==> key in past || (Precedes(log, c, i) && key == KeyOf(log[c])) {
      if key in AheadKeys(log, i) { var j: nat :| j < |log| && Precedes(log, j, i) && KeyOf(log[j]) == key; }
    }
  }

  lemma AheadThen(log: seq<Release>, current: seq<Release>, later: int, i: nat, c: nat)
    requires DistinctKeys(log) && i < |log| && !HasKey(current, KeyOf(log[i]))
    requires OneCurrent(log, current, i) && CurrentBeside(log, current, i, c)
    ensures |Retimed(log, current, later)| == |log|
    ensures forall key :: key in AheadKeys(Retimed(log, current, later), i) <==>
              key in PastAhead(log, current, i) ||
              (Precedes(Retimed(log, current, later), c, i) && key == KeyOf(log[c]))
  {
    hide KeyOf, HasKey, EnvOf, FindKey, DistinctKeys, Retimed;
    var then_, past := Retimed(log, current, later), PastAhead(log, current, i);
    OnlyOne(log, current, i, c);
    RetimedAt(log, current, later, i);
    RetimedAt(log, current, later, c);
    forall key ensures key in AheadKeys(then_, i) <==> key in past || (Precedes(then_, c, i) && key == KeyOf(log[c])) {
      if key in AheadKeys(then_, i) {
        var j: nat :| j < |log| && Precedes(then_, j, i) && KeyOf(then_[j]) == key;
        RetimedAt(log, current, later, j);
        if j != c { assert Precedes(log, j, i); }
      }
      if key in past {
        var j: nat :| j < |log| && Precedes(log, j, i) && FindKey(current, KeyOf(log[j])) == |current| &&
          KeyOf(log[j]) == key;
        RetimedAt(log, current, later, j);
        assert Precedes(then_, j, i) && KeyOf(then_[j]) == key;
      }
      if Precedes(then_, c, i) && key == KeyOf(log[c]) { assert KeyOf(then_[c]) == key; }
    }
  }

  lemma NobodyOvertakes(log: seq<Release>, current: seq<Release>, later: int, i: nat)
    requires i < |log| && !HasKey(current, KeyOf(log[i])) && forall c: nat :: !CurrentBeside(log, current, i, c)
    ensures |AheadKeys(log, i)| == |AheadKeys(Retimed(log, current, later), i)|
  {
    hide KeyOf, HasKey, EnvOf, Retimed;
    var then_ := Retimed(log, current, later);
    RetimedAt(log, current, later, i);
    forall j: nat | j < |log|
      ensures KeyOf(log[j]) == KeyOf(then_[j]) && (Precedes(log, j, i) <==> Precedes(then_, j, i))
    {
      RetimedAt(log, current, later, j);
      assert !CurrentBeside(log, current, i, j);
    }
    assert AheadKeys(log, i) == AheadKeys(then_, i);
  }

  /** When its environment has at most one current release, a past release loses its
      place exactly when keep - 1 past releases are ahead of it and the current one,
      which was not, is ahead of it at `later`. */
  lemma LosesPlaceExactly(log: seq<Release>, current: seq<Release>, later: int, keep: int, i: nat)
    requires DistinctKeys(log) && i < |log| && !HasKey(current, KeyOf(log[i])) && OneCurrent(log, current, i)
    ensures LosesPlace(log, current, later, keep, i) <==>
            |PastAhead(log, current, i)| == keep - 1 && Overtaken(log, current, later, i)
  {
    hide KeyOf, HasKey, AheadKeys, PastAhead, Precedes, CurrentBeside, DistinctKeys, Retimed;
    if c: nat :| CurrentBeside(log, current, i, c) {
      AheadOfPast(log, current, later, i, c);
    } else {
      NobodyOvertakes(log, current, later, i);
    }
  }

  /** A past release lists the image, keep - 1 past releases are ahead of it, and the
      current release overtakes it. */
  ghost predicate Superseded(log: seq<Release>, current: seq<Release>, later: int, keep: int, x: string) {
    exists i: nat :: i < |log| && !HasKey(current, KeyOf(log[i])) && |PastAhead(log, current, i)| == keep - 1 &&
      Overtaken(log, current, later, i) && x in log[i].images
  }

  lemma DisplacedIsSuperseded(log: seq<Release>, current: seq<Release>, later: int, keep: int, x: string)
    requires DistinctKeys(log) && forall i: nat :: i < |log| ==> OneCurrent(log, current, i)
    ensures Displaced(log, current, later, keep, x) <==> Superseded(log, current, later, keep, x)
  {
    hide KeyOf, HasKey, PastAhead, Overtaken, OneCurrent, DistinctKeys, LosesPlace;
    forall i: nat | i < |log|
      ensures LosesPlace(log, current, later, keep, i) <==>
              !HasKey(current, KeyOf(log[i])) && |PastAhead(log, current, i)| == keep - 1 &&
              Overtaken(log, current, later, i)
    {
      LoserIsPast(log, current, later, keep, i);
      if !HasKey(current, KeyOf(log[i])) { LosesPlaceExactly(log, current, later, keep, i); }
    }
  }

  lemma LoserIsPast(log: seq<Release>, current: seq<Release>, later: int, keep: int, i: nat)
    requires i < |log|
    ensures LosesPlace(log, current, later, keep, i) ==> !HasKey(current, KeyOf(log[i]))
  {
    hide KeyOf, HasKey, AheadKeys;
  }

  /** No release loses its place when every past one is older than the first run or
      newer than the second. */
  lemma NobodyLosesPlace(log: seq<Release>, current: seq<Release>, now: int, later: int, keep: int, i: nat)
    requires i < |log| ==> HasKey(current, KeyOf(log[i])) || log[i].seenAt < now || log[i].seenAt > later
    requires forall r <- log :: HasKey(current, KeyOf(r)) ==> r.seenAt == now
    ensures !LosesPlace(log, current, later, keep, i)
  {
    hide KeyOf, HasKey, EnvOf, Retimed;
    if i < |log| && !HasKey(current, KeyOf(log[i])) {
      var then_ := Retimed(log, current, later);
      RetimedAt(log, current, later, i);
      forall key <- AheadKeys(then_, i) ensures key in AheadKeys(log, i) {
        var j: nat :| j < |log| && Precedes(then_, j, i) && KeyOf(then_[j]) == key;
        RetimedAt(log, current, later, j);
        assert log[j] in log;
        assert Precedes(log, j, i);
      }
      SubsetSize(AheadKeys(then_, i), AheadKeys(log, i));
    }
  }

  // ---- from one run's log to the next ----

  lemma NormalKeys(log: seq<Release>)
    requires Normal(log)
    ensures DistinctKeys(log) && forall r <- log :: NormalRelease(r)
  {
  }

  /** A record of the log of the first run: current ones have the time of the run
      and all their images, past ones are as they were. */
  lemma FirstLog(old_: seq<Release>, current: seq<Release>, needs: seq<Need>, now: int, i: nat)
    requires Describes(current, needs, now) && i < |Upserted(old_, current)|
    ensures
      var r := Upserted(old_, current)[i];
      if HasKey(current, KeyOf(r)) then r.seenAt == now && forall c <- current, x <- c.images ::
        KeyOf(c) == KeyOf(r) ==> x in r.images
      else r in Normalized(old_)
  {
    hide KeyOf, Upserted, Normalized, NormalRelease, HasKey, Needed;
    UpsertedSpec(old_, current);
    var r := Upserted(old_, current)[i];
    assert UpToDate(r, Normalized(old_), current);
    if HasKey(current, KeyOf(r)) {
      var c :| c in current && KeyOf(c) == KeyOf(r) && r.seenAt == c.seenAt && forall x <- c.images :: x in r.images;
      forall d <- current | KeyOf(d) == KeyOf(r) ensures d == c { SameCurrentRelease(current, c, d); }
    }
  }

  lemma SameCurrentRelease(current: seq<Release>, c: Release, d: Release)
    requires CurrentList(current) && c in current && d in current && KeyOf(c) == KeyOf(d)
    ensures c == d
  {
    hide KeyOf, NormalRelease;
    var i :| 0 <= i < |current| && current[i] == c;
    var j :| 0 <= j < |current| && current[j] == d;
    SameKeySameIndex(current, i, j);
  }

  /** Recording the same releases again only moves their time. */
  lemma RefreshedAgain(r: Release, current: seq<Release>)
    requires NormalRelease(r) && CurrentList(current)
    requires forall c <- current, x <- c.images :: KeyOf(c) == KeyOf(r) ==> x in r.images
    ensures Refreshed(r, current).images == r.images && EnvOf(Refreshed(r, current)) == EnvOf(r)
    ensures KeyOf(Refreshed(r, current)) == KeyOf(r)
    ensures !HasKey(current, KeyOf(r)) ==> Refreshed(r, current) == r
    ensures HasKey(current, KeyOf(r)) ==> exists c <- current ::
      KeyOf(c) == KeyOf(r) && Refreshed(r, current).seenAt == c.seenAt
  {
    hide KeyOf, MergeOf, HasKey, Trim, StrictlySorted, Refreshed;
    RefreshedSpec(r, current);
    RefreshedOnce(r, current);
    FindHas(current, KeyOf(r));
    var i := FindKey(current, KeyOf(r));
    if i < |current| {
      assert current[i] in current && NormalRelease(current[i]);
      MergeAbsorbs(r.images, current[i].images);
    }
  }

  /** When every current release is in the log already, recording adds none. */
  lemma {:induction false} NothingMissing(log: seq<Release>, current: seq<Release>, n: nat)
    requires n <= |current| && forall i :: 0 <= i < |current| ==> HasKey(log, KeyOf(current[i]))
    ensures Missing(log, current, n) == []
  {
    hide KeyOf, FindKey, HasKey;
    if n > 0 {
      NothingMissing(log, current, n - 1);
      FindHas(log, KeyOf(current[n - 1]));
    }
  }

  lemma DroppedStillHas(log: seq<Release>, removed: set<string>, retained: set<string>, now: seq<Release>,
                        source: seq<nat>, i: nat)
    requires Shrunk(log, removed, retained, now, source) && i < |log| && KeyOf(log[i]) in retained
    ensures i in source && HasKey(now, KeyOf(log[i]))
  {
    hide KeyOf, Without;
    var p :| 0 <= p < |source| && source[p] == i;
    assert now[p] == log[i];
  }

  lemma DroppedStillLists(log: seq<Release>, removed: set<string>, retained: set<string>, now: seq<Release>,
                          source: seq<nat>, i: nat, x: string)
    requires Shrunk(log, removed, retained, now, source) && i < |log| && x in log[i].images && x !in removed
    ensures i in source
  {
    hide KeyOf, Without;
    WithoutSpec(log[i].images, removed);
  }

  lemma LeftImages(r: Release, removed: set<string>, retained: set<string>, left: Release)
    requires LeftOf(r, removed, retained, left)
    ensures left.environment == r.environment && left.revision == r.revision && left.seenAt == r.seenAt
    ensures KeyOf(left) == KeyOf(r) && EnvOf(left) == EnvOf(r)
    ensures left.images == (if KeyOf(r) in retained then r.images else Without(r.images, removed))
  {
    hide Trim, Without;
    SameKey(left, r);
  }

  /** The log that the second run works on. */
  lemma SecondLog(old_: seq<Release>, current: seq<Release>, current': seq<Release>, needs: seq<Need>, now: int,
                  later: int, keep: int, retained: set<string>, removed: set<string>) returns (source: seq<nat>)
    requires Describes(current, needs, now) && Describes(current', needs, later)
    requires RetainedBy(retained, Upserted(old_, current), current, keep)
    ensures
      var log := Upserted(old_, current);
      var next := Upserted(Dropped(log, removed, retained), current');
      Later(log, retained, current, removed, later, next, source) && Normal(next)
  {
    hide KeyOf, Upserted, Normalized, Dropped, NormalRelease, HasKey, Needed, LeftOf, Aged, Keeps, Refreshed, Vanishes,
         Normal;
    var log := Upserted(old_, current);
    UpsertedSpec(old_, current);
    DescriptionsAgree(current, current', needs, now, later);
    source := DroppedSpec(log, removed, retained);
    var left := Dropped(log, removed, retained);
    DroppedNormal(log, removed, retained);
    NormalizedFixes(left);
    NormalKeys(left);
    UpsertedSpec(left, current');
    forall j | 0 <= j < |current'| ensures HasKey(left, KeyOf(current'[j])) {
      CurrentIsLeft(log, current, current', left, source, retained, removed, keep, j);
    }
    NothingMissing(left, current', |current'|);
    var next := Upserted(left, current');
    UpsertedIs(left, current');
    assert next == RefreshAll(left, current');
    forall p | 0 <= p < |next| ensures Aged(log[source[p]], retained, current, removed, later, next[p]) {
      FirstLog(old_, current, needs, now, source[p]);
      assert left[p] in left;
      SecondRecord(log[source[p]], retained, current, current', removed, later, keep, left[p], log);
    }
    forall i: nat | i < |log| && KeyOf(log[i]) in retained ensures i in source {
      DroppedStillHas(log, removed, retained, left, source, i);
    }
    forall i: nat, x | i < |log| && x in log[i].images && x !in removed ensures i in source {
      DroppedStillLists(log, removed, retained, left, source, i, x);
    }
  }

  lemma UpsertedIs(log: seq<Release>, current: seq<Release>)
    requires Normalized(log) == log
    ensures Upserted(log, current) == RefreshAll(log, current) + Missing(log, current, |current|)
  {
  }

  lemma CurrentIsLeft(log: seq<Release>, current: seq<Release>, current': seq<Release>, left: seq<Release>,
                      source: seq<nat>, retained: set<string>, removed: set<string>, keep: int, j: nat)
    requires Shrunk(log, removed, retained, left, source) && RetainedBy(retained, log, current, keep)
    requires forall k :: HasKey(current, k) ==> HasKey(log, k)
    requires forall k :: HasKey(current, k) <==> HasKey(current', k)
    requires j < |current'|
    ensures HasKey(left, KeyOf(current'[j]))
  {
    hide KeyOf, Shrunk, Recent, HasKey;
    InHasKey(current', current'[j]);
    var key := KeyOf(current'[j]);
    assert Keeps(log, current, keep, key);
    var i := AtKey(log, key);
    DroppedStillHas(log, removed, retained, left, source, i);
  }

  lemma AtKey(log: seq<Release>, key: string) returns (i: nat)
    requires HasKey(log, key)
    ensures i < |log| && KeyOf(log[i]) == key
  {
    i :| i < |log| && KeyOf(log[i]) == key;
  }

  lemma SecondRecord(r: Release, retained: set<string>, current: seq<Release>, current': seq<Release>,
                     removed: set<string>, later: int, keep: int, left: Release, log: seq<Release>)
    requires LeftOf(r, removed, retained, left) && NormalRelease(left) && CurrentList(current')
    requires RetainedBy(retained, log, current, keep) && forall c <- current' :: c.seenAt == later
    requires forall k :: HasKey(current, k) <==> HasKey(current', k)
    requires forall c <- current, d <- current' :: KeyOf(c) == KeyOf(d) ==> c.images == d.images
    requires HasKey(current, KeyOf(r)) ==> forall c <- current, x <- c.images :: KeyOf(c) == KeyOf(r) ==> x in r.images
    ensures Aged(r, retained, current, removed, later, Refreshed(left, current'))
  {
    hide KeyOf, HasKey, NormalRelease, Refreshed, LeftOf, Without, EnvOf, Recent;
    LeftImages(r, removed, retained, left);
    assert HasKey(current, KeyOf(r)) ==> Keeps(log, current, keep, KeyOf(r));
    forall d <- current', x <- d.images | KeyOf(d) == KeyOf(left) ensures x in left.images {
      InHasKey(current', d);
      assert HasKey(current, KeyOf(d));
      var i := AtKey(current, KeyOf(d));
      assert current[i] in current;
    }
    RefreshedAgain(left, current');
  }

  /** What the second run finds, for the same desired state: exactly the images of past
      releases that lose their place because the current releases are seen again at
      `later`, and those that the first run left over, as far as nothing holds them.
      Nothing is assumed of the clock, nor of what is spared in the two runs.  After a
      run that removed every candidate only those are left over that come free. */
  lemma SecondRunCandidates(old_: seq<Release>, current: seq<Release>, current': seq<Release>, needs: seq<Need>,
                            now: int, later: int, keep: int,
                            retained: set<string>, retained': set<string>, spared: set<string>, spared': set<string>,
                            removed: set<string>)
    requires Describes(current, needs, now) && Describes(current', needs, later)
    requires RetainedBy(retained, Upserted(old_, current), current, keep)
    requires RetainedBy(retained', Upserted(Dropped(Upserted(old_, current), removed, retained), current'), current',
                        keep)
    ensures
      var log := Upserted(old_, current);
      var next := Upserted(Dropped(log, removed, retained), current');
      forall x :: Candidate(next, retained', current', spared', x) <==>
                  && (Displaced(log, current, later, keep, x) || LeftOver(log, retained, removed, x))
                  && !Holds(next, retained', current', spared', x)
    ensures
      var log := Upserted(old_, current);
      var next := Upserted(Dropped(log, removed, retained), current');
      (forall x :: Candidate(log, retained, current, spared, x) ==> x in removed) ==>
        forall x :: Candidate(next, retained', current', spared', x) ==>
                    Displaced(log, current, later, keep, x) || x in spared - spared'
  {
    hide KeyOf, Upserted, Normalized, Dropped, HasKey, Needed, Later, RetainedBy, NormalRelease, Holds, Listed,
         Displaced;
    var log := Upserted(old_, current);
    UpsertedSpec(old_, current);
    NormalKeys(log);
    DescriptionsAgree(current, current', needs, now, later);
    var source := SecondLog(old_, current, current', needs, now, later, keep, retained, removed);
    var next := Upserted(Dropped(log, removed, retained), current');
    NormalKeys(next);
    forall x
      ensures Candidate(next, retained', current', spared', x) <==>
              && (Displaced(log, current, later, keep, x) || LeftOver(log, retained, removed, x))
              && !Holds(next, retained', current', spared', x)
      ensures Candidate(next, retained', current', spared', x) && Holds(log, retained, current, spared, x) ==>
              Displaced(log, current, later, keep, x) || x in spared - spared'
    {
      CandidatesLater(log, retained, current, removed, later, next, source, current', retained', keep, spared', x);
      if Holds(log, retained, current, spared, x) {
        StillHeld(log, retained, current, removed, later, next, source, current', retained', keep, spared, spared', x);
      }
    }
  }

  /** The clock has moved on past every recorded release that `needs` does not speak
      of, unless the next run's has not even reached it. */
  ghost predicate ClockMovesOn(log: seq<Release>, needs: seq<Need>, now: int, later: int) {
    forall r <- log :: (exists x :: Needed(needs, |needs|, KeyOf(r), x)) || r.seenAt < now || r.seenAt > later
  }

  /** Disk care converges when the clock moves on: then nobody loses its place, so
      the next run has no candidate. */
  lemma DiskCareConverges(old_: seq<Release>, current: seq<Release>, needs: seq<Need>, now: int, later: int, keep: int)
    requires Describes(current, needs, now) && ClockMovesOn(Normalized(old_), needs, now, later)
    ensures forall x :: !Displaced(Upserted(old_, current), current, later, keep, x)
  {
    hide KeyOf, Upserted, Normalized, HasKey, Needed, LosesPlace, NormalRelease;
    var log := Upserted(old_, current);
    forall i: nat | i < |log|
      ensures HasKey(current, KeyOf(log[i])) || log[i].seenAt < now || log[i].seenAt > later
      ensures HasKey(current, KeyOf(log[i])) ==> log[i].seenAt == now
    {
      FirstLog(old_, current, needs, now, i);
    }
    forall i: nat ensures !LosesPlace(log, current, later, keep, i) {
      if i >= |log| {
        NoSuchLoser(log, current, later, keep, i);
      } else {
        NobodyLosesPlace(log, current, now, later, keep, i);
      }
    }
  }

  lemma NoSuchLoser(log: seq<Release>, current: seq<Release>, later: int, keep: int, i: nat)
    requires i >= |log|
    ensures !LosesPlace(log, current, later, keep, i)
  {
  }

  // ---- why the clock must move on ----

  lemma TwoRecords(a: Release, b: Release)
    requires NormalRelease(a) && NormalRelease(b) && KeyOf(a) != KeyOf(b)
    ensures Normal([a]) && Normal([a, b]) && CurrentList([b])
    ensures Upserted([a], [b]) == [a, b]
  {
    hide KeyOf, MergeOf, NormalRelease;
    assert Normal([a]);
    NormalizedFixes([a]);
    UpsertedIs([a], [b]);
    FoundNot([b], KeyOf(a));
    FoundNot([a], KeyOf(b));
    RefreshedOnce(a, [b]);
    assert RefreshAll([a], [b]) == [a];
    assert Missing([a], [b], 0) == [] && Missing([a], [b], 1) == [b];
    assert [a] + [b] == [a, b];
  }

  lemma FoundNot(log: seq<Release>, key: string)
    requires |log| == 1 && KeyOf(log[0]) != key
    ensures FindKey(log, key) == 1
  {
    hide KeyOf;
  }

  lemma TwoRecordsAgain(a: Release, b: Release, b': Release)
    requires NormalRelease(a) && NormalRelease(b) && KeyOf(a) != KeyOf(b) && b' == b.(seenAt := b'.seenAt)
    ensures Upserted([a, b], [b']) == [a, b']
  {
    hide KeyOf, MergeOf, NormalRelease, RefreshAll, Missing, StrictlySorted;
    TwoRecords(a, b);
    SameKey(b, b');
    NormalizedFixes([a, b]);
    UpsertedIs([a, b], [b']);
    NothingMissingOfOne(a, b, b');
    RefreshTwo(a, b, b');
  }

  lemma NothingMissingOfOne(a: Release, b: Release, b': Release)
    requires KeyOf(b) == KeyOf(b')
    ensures Missing([a, b], [b'], 1) == []
  {
    hide KeyOf;
    assert KeyOf([a, b][1]) == KeyOf(b');
    NothingMissing([a, b], [b'], 1);
  }

  lemma RefreshTwo(a: Release, b: Release, b': Release)
    requires KeyOf(a) != KeyOf(b') && KeyOf(b) == KeyOf(b') && b' == b.(seenAt := b'.seenAt)
    requires NormalRelease(b)
    ensures RefreshAll([a, b], [b']) == [a, b']
  {
    hide KeyOf, MergeOf, StrictlySorted, Refreshed;
    FoundNot([b'], KeyOf(a));
    assert FindKey([b'], KeyOf(b)) == 0;
    RefreshedOnce(a, [b']);
    RefreshedOnce(b, [b']);
    MergeAbsorbs(b.images, b'.images);
  }

  /** Who is ahead in a log of two records of one environment. */
  lemma AheadOfTwo(a: Release, b: Release)
    requires EnvOf(a) == EnvOf(b)
    ensures AheadKeys([a, b], 0) == if Newer(b, a) then {KeyOf(b)} else {}
  {
    hide KeyOf, EnvOf;
    var log := [a, b];
    assert Precedes(log, 1, 0) <==> Newer(b, a);
    assert !Precedes(log, 0, 0);
    forall k ensures k in AheadKeys(log, 0) <==> Newer(b, a) && k == KeyOf(b) {
      if Newer(b, a) && k == KeyOf(b) { assert KeyOf(log[1]) == k; }
    }
  }

  /** With a window of one, a past release is kept exactly when the current
      release is not newer. */
  lemma KeptOfTwo(a: Release, b: Release, retained: set<string>)
    requires EnvOf(a) == EnvOf(b) && KeyOf(a) != KeyOf(b) && RetainedBy(retained, [a, b], [b], 1)
    ensures KeyOf(b) in retained && (KeyOf(a) in retained <==> a.seenAt >= b.seenAt)
  {
    hide KeyOf, EnvOf, AheadKeys;
    var log := [a, b];
    InHasKey([b], b);
    assert Keeps(log, [b], 1, KeyOf(b));
    AheadOfTwo(a, b);
    assert !HasKey([b], KeyOf(a));
    RecentIs(log, 1, 0);
  }

  /** The past image is a candidate exactly when its release has left the
      window. */
  lemma CandidateOfTwo(a: Release, b: Release, retained: set<string>, x: string)
    requires KeyOf(b) in retained && x in a.images && x !in b.images
    ensures Candidate([a, b], retained, [b], {}, x) <==> KeyOf(a) !in retained
  {
    hide KeyOf;
    var log := [a, b];
    assert x in log[0].images;
    assert !Current([b], x);
  }

  /** A run that does not converge.  Release `a` is
      recorded at its own time; release `b` of the same environment becomes
      current at `now` and is current still at `later`.  If the clock had been
      set back, so that `a` does not look older than `now`, and then passes it,
      the second run removes an image that the first one kept; and only then. */
  lemma ClockSetBack(a: Release, b: Release, later: int, retained: set<string>, retained': set<string>, x: string)
    requires NormalRelease(a) && NormalRelease(b) && EnvOf(a) == EnvOf(b) && KeyOf(a) != KeyOf(b)
    requires x in a.images && x !in b.images
    requires RetainedBy(retained, Upserted([a], [b]), [b], 1)
    requires RetainedBy(retained', Upserted(Upserted([a], [b]), [b.(seenAt := later)]), [b.(seenAt := later)], 1)
    ensures
      var first, again := Upserted([a], [b]), Upserted(Upserted([a], [b]), [b.(seenAt := later)]);
      !Candidate(first, retained, [b], {}, x) && Candidate(again, retained', [b.(seenAt := later)], {}, x)
      <==> b.seenAt <= a.seenAt < later
  {
    hide KeyOf, EnvOf, Upserted, RetainedBy, Candidate, NormalRelease;
    var b' := b.(seenAt := later);
    TwoRecords(a, b);
    TwoRecordsAgain(a, b, b');
    SameKeyAndEnv(b, b');
    KeptOfTwo(a, b, retained);
    KeptOfTwo(a, b', retained');
    CandidateOfTwo(a, b, retained, x);
    CandidateOfTwo(a, b', retained', x);
  }

  lemma SameKeyAndEnv(a: Release, b: Release)
    requires a.environment == b.environment && a.revision == b.revision
    ensures KeyOf(a) == KeyOf(b) && EnvOf(a) == EnvOf(b)
  {
  }
}
