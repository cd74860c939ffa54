/** The loop by which each map of the solo state is normalised: visit the keys
    in sorted order, normalise one record at a time, and file the result under
    the key that the record itself implies. */
module RecordMaps {
  import opened Text
  import opened Sorting

  /** What becomes of one record. */
  datatype Outcome<+T> = Refuse | Skip | Keep(key: string, value: T)

  ghost predicate Enumerates<T>(keys: seq<string>, m: map<string, T>) {
    StrictlySorted(keys) && forall k :: k in keys <==> k in m
  }

  method SortedKeys<T>(m: map<string, T>) returns (keys: seq<string>)
    ensures Enumerates(keys, m)
  {
    hide SortStrings, StrictlySorted;
    keys := [];
    var left := m.Keys;
    while left != {}
      invariant left <= m.Keys && Sorting.Distinct(keys)
      invariant forall k :: k in keys <==> k in m && k !in left
      decreases left
    {
      var key :| key in left;
      left := left - {key};
      keys := keys + [key];
    }
    SortStringsSpec(keys);
    keys := SortStrings(keys);
  }

  /** Files one outcome; `join` decides what happens when its key is taken. */
  function Placed<T>(done: map<string, T>, o: Outcome<T>, join: (T, T) -> Option<T>): Option<map<string, T>> {
    match o
    case Refuse => None
    case Skip => Some(done)
    case Keep(key, value) =>
      if key !in done then Some(done[key := value])
      else
        match join(done[key], value)
        case None => None
        case Some(joined) => Some(done[key := joined])
  }

  /** The result for the first `n` keys, or nothing if a record was refused. */
  function Folded<T>(keys: seq<string>, m: map<string, T>, n: nat,
                     f: (string, T) -> Outcome<T>, join: (T, T) -> Option<T>):
    Option<map<string, T>>
    requires n <= |keys| && forall k <- keys :: k in m
  {
    if n == 0 then Some(map[])
    else
      match Folded(keys, m, n - 1, f, join)
      case None => None
      case Some(done) => Placed(done, f(keys[n - 1], m[keys[n - 1]]), join)
  }

  /** `t` is what the sorted-key loop makes of `m`; `None` when it gives up. */
  ghost predicate FoldsTo<T>(m: map<string, T>, f: (string, T) -> Outcome<T>, join: (T, T) -> Option<T>,
                             t: Option<map<string, T>>) {
    exists keys :: Enumerates(keys, m) && Folded(keys, m, |keys|, f, join) == t
  }

  lemma FoldsToOne<T>(m: map<string, T>, f: (string, T) -> Outcome<T>, join: (T, T) -> Option<T>,
                      a: Option<map<string, T>>, b: Option<map<string, T>>)
    requires FoldsTo(m, f, join, a) && FoldsTo(m, f, join, b)
    ensures a == b
  {
    hide StrictlySorted, Folded;
    var keys :| Enumerates(keys, m) && Folded(keys, m, |keys|, f, join) == a;
    var keys' :| Enumerates(keys', m) && Folded(keys', m, |keys'|, f, join) == b;
    StrictlySortedUnique(keys, keys');
  }

  method NormalizeMap<T>(m: map<string, T>, f: (string, T) -> Outcome<T>, join: (T, T) -> Option<T>)
    returns (r: Option<map<string, T>>)
    ensures FoldsTo(m, f, join, r)
  {
    hide StrictlySorted;
    var keys := SortedKeys(m);
    var done: map<string, T> := map[];
    for i := 0 to |keys|
      invariant Folded(keys, m, i, f, join) == Some(done)
    {
      var o := f(keys[i], m[keys[i]]);
      match o {
        case Refuse =>
          FoldedFails(keys, m, i + 1, |keys|, f, join);
          return None;
        case Skip =>
        case Keep(key, value) =>
          if key in done {
            var joined := join(done[key], value);
            if joined.None? {
              FoldedFails(keys, m, i + 1, |keys|, f, join);
              return None;
            }
            done := done[key := joined.value];
          } else {
            done := done[key := value];
          }
      }
    }
    r := Some(done);
  }

  lemma {:induction false} FoldedFails<T>(keys: seq<string>, m: map<string, T>, n: nat, k: nat,
                                          f: (string, T) -> Outcome<T>, join: (T, T) -> Option<T>)
    requires n <= k <= |keys| && forall key <- keys :: key in m
    ensures Folded(keys, m, n, f, join) == None ==> Folded(keys, m, k, f, join) == None
  {
    if n < k { FoldedFails(keys, m, n, k - 1, f, join); }
  }

  // ---- normal maps ----

  /** Every record is as its own normalisation would leave it. */
  ghost predicate Fixed<T>(m: map<string, T>, f: (string, T) -> Outcome<T>) {
    forall k <- m :: f(k, m[k]) == Keep(k, m[k])
  }

  function Restricted<T>(m: map<string, T>, keys: seq<string>): map<string, T> {
    map k <- m | k in keys :: m[k]
  }

  lemma {:induction false} FixedUpTo<T>(keys: seq<string>, m: map<string, T>, n: nat,
                                        f: (string, T) -> Outcome<T>, join: (T, T) -> Option<T>)
    requires n <= |keys| && Enumerates(keys, m) && Fixed(m, f)
    ensures Folded(keys, m, n, f, join) == Some(Restricted(m, keys[..n]))
  {
    hide StrictlySorted;
    if n > 0 {
      FixedUpTo(keys, m, n - 1, f, join);
      var done := Restricted(m, keys[..n - 1]);
      NewKey(keys, n - 1);
      assert keys[..n] == keys[..n - 1] + [keys[n - 1]];
      assert done[keys[n - 1] := m[keys[n - 1]]] == Restricted(m, keys[..n]);
    }
  }

  lemma NewKey(keys: seq<string>, n: nat)
    requires n < |keys| && StrictlySorted(keys)
    ensures keys[n] !in keys[..n]
  {
    hide Less;
    if keys[n] in keys[..n] {
      var i :| 0 <= i < n && keys[i] == keys[n];
      assert Less(keys[i], keys[n]);
      LessIrreflexive(keys[n]);
    }
  }

  /** A normal map is left as it is. */
  lemma FixedStays<T>(keys: seq<string>, m: map<string, T>, f: (string, T) -> Outcome<T>, join: (T, T) -> Option<T>)
    requires Enumerates(keys, m) && Fixed(m, f)
    ensures Folded(keys, m, |keys|, f, join) == Some(m)
  {
    hide StrictlySorted;
    FixedUpTo(keys, m, |keys|, f, join);
    assert keys[..|keys|] == keys;
    assert Restricted(m, keys) == m;
  }

  // ---- what holds of every result ----

  /** Every outcome has property `P`, and joining keeps it. */
  ghost predicate Upholds<T(!new)>(f: (string, T) -> Outcome<T>, join: (T, T) -> Option<T>, P: (string, T) -> bool) {
    && (forall k, v :: f(k, v).Keep? ==> P(f(k, v).key, f(k, v).value))
    && (forall k, a, b :: P(k, a) && P(k, b) && join(a, b).Some? ==> P(k, join(a, b).value))
  }

  lemma {:induction false} FoldedUpholds<T(!new)>(keys: seq<string>, m: map<string, T>, n: nat,
                                                  f: (string, T) -> Outcome<T>, join: (T, T) -> Option<T>,
                                                  P: (string, T) -> bool)
    requires n <= |keys| && (forall k <- keys :: k in m) && Upholds(f, join, P)
    ensures Folded(keys, m, n, f, join).Some? ==>
      forall k <- Folded(keys, m, n, f, join).value :: P(k, Folded(keys, m, n, f, join).value[k])
  {
    if n > 0 { FoldedUpholds(keys, m, n - 1, f, join, P); }
  }

  lemma FoldsToUpholds<T(!new)>(m: map<string, T>, f: (string, T) -> Outcome<T>, join: (T, T) -> Option<T>,
                                t: map<string, T>, P: (string, T) -> bool)
    requires FoldsTo(m, f, join, Some(t)) && Upholds(f, join, P)
    ensures forall k <- t :: P(k, t[k])
  {
    hide StrictlySorted, Folded, Upholds;
    var keys :| Enumerates(keys, m) && Folded(keys, m, |keys|, f, join) == Some(t);
    FoldedUpholds(keys, m, |keys|, f, join, P);
  }

  // ---- where the results come from ----

  /** Key `keys[i]`, among the first `n`, ends up under `k`. */
  ghost predicate Lands<T>(keys: seq<string>, m: map<string, T>, n: nat, f: (string, T) -> Outcome<T>, k: string,
                           i: int)
    requires n <= |keys| && forall k <- keys :: k in m
  {
    0 <= i < n && f(keys[i], m[keys[i]]).Keep? && f(keys[i], m[keys[i]]).key == k
  }

  lemma {:induction false} FoldedKeys<T>(keys: seq<string>, m: map<string, T>, n: nat,
                                         f: (string, T) -> Outcome<T>, join: (T, T) -> Option<T>)
    requires n <= |keys| && (forall k <- keys :: k in m) && Folded(keys, m, n, f, join).Some?
    ensures forall k :: k in Folded(keys, m, n, f, join).value <==> exists i :: Lands(keys, m, n, f, k, i)
    ensures forall i :: 0 <= i < n ==> !f(keys[i], m[keys[i]]).Refuse?
  {
    if n > 0 {
      FoldedKeys(keys, m, n - 1, f, join);
      LandsGrows(keys, m, n, f);
      var t, done := Folded(keys, m, n, f, join).value, Folded(keys, m, n - 1, f, join).value;
      forall k ensures k in t <==> exists i :: Lands(keys, m, n, f, k, i) {
        if k in done {
          var i :| Lands(keys, m, n - 1, f, k, i);
          assert Lands(keys, m, n, f, k, i);
        }
        if f(keys[n - 1], m[keys[n - 1]]).Keep? && f(keys[n - 1], m[keys[n - 1]]).key == k {
          assert Lands(keys, m, n, f, k, n - 1);
        }
      }
    }
  }

  /** `join` never gives anything but what both sides say. */
  ghost predicate Agreeing<T(!new)>(join: (T, T) -> Option<T>) {
    forall a, b :: join(a, b).Some? ==> join(a, b).value == a == b
  }

  /** Then nothing is lost: every record that is kept is there, as normalised. */
  lemma {:induction false} FoldedKeepsAll<T(!new)>(keys: seq<string>, m: map<string, T>, n: nat,
                                                   f: (string, T) -> Outcome<T>, join: (T, T) -> Option<T>)
    requires n <= |keys| && (forall k <- keys :: k in m) && Agreeing(join) && Folded(keys, m, n, f, join).Some?
    ensures forall i, k :: Lands(keys, m, n, f, k, i) ==>
              k in Folded(keys, m, n, f, join).value && Folded(keys, m, n, f, join).value[k] ==
              f(keys[i], m[keys[i]]).value
  {
    if n > 0 {
      FoldedKeepsAll(keys, m, n - 1, f, join);
      var done := Folded(keys, m, n - 1, f, join).value;
      forall i, k | Lands(keys, m, n, f, k, i)
        ensures k in Folded(keys, m, n, f, join).value &&
          Folded(keys, m, n, f, join).value[k] == f(keys[i], m[keys[i]]).value
      {
        if i < n - 1 { assert Lands(keys, m, n - 1, f, k, i); }
      }
    }
  }

  /** When keys may not be shared and nothing is skipped, the result has as many
      records as there were. */
  lemma {:induction false} FoldedSize<T(!new)>(keys: seq<string>, m: map<string, T>, n: nat,
                                               f: (string, T) -> Outcome<T>, join: (T, T) -> Option<T>)
    requires n <= |keys| && (forall k <- keys :: k in m) && Folded(keys, m, n, f, join).Some?
    requires (forall a, b :: join(a, b).None?) && (forall k, v :: !f(k, v).Skip?)
    ensures |Folded(keys, m, n, f, join).value| == n
  {
    if n > 0 { FoldedSize(keys, m, n - 1, f, join); }
  }

  /** No record among the first `n` is refused, and those that meet under one key
      can be joined. */
  ghost predicate Compatible<T>(keys: seq<string>, m: map<string, T>, n: nat,
                                f: (string, T) -> Outcome<T>, join: (T, T) -> Option<T>)
    requires n <= |keys| && forall k <- keys :: k in m
  {
    && (forall i :: 0 <= i < n ==> !f(keys[i], m[keys[i]]).Refuse?)
    && (forall i, j, k :: i < j && Lands(keys, m, n, f, k, i) && Lands(keys, m, n, f, k, j) ==>
          join(f(keys[i], m[keys[i]]).value, f(keys[j], m[keys[j]]).value).Some?)
  }

  /** Exactly when such a loop succeeds. */
  lemma {:induction false} FoldedSucceeds<T(!new)>(keys: seq<string>, m: map<string, T>, n: nat,
                                                   f: (string, T) -> Outcome<T>, join: (T, T) -> Option<T>)
    requires n <= |keys| && (forall k <- keys :: k in m) && Agreeing(join)
    ensures Folded(keys, m, n, f, join).Some? <==> Compatible(keys, m, n, f, join)
  {
    if n > 0 {
      FoldedSucceeds(keys, m, n - 1, f, join);
      LandsGrows(keys, m, n, f);
      var last := f(keys[n - 1], m[keys[n - 1]]);
      if Folded(keys, m, n - 1, f, join).None? {
        if Compatible(keys, m, n, f, join) { CompatibleShrinks(keys, m, n, n - 1, f, join); }
      } else {
        FoldedKeepsAll(keys, m, n - 1, f, join);
        FoldedKeys(keys, m, n - 1, f, join);
        var done := Folded(keys, m, n - 1, f, join).value;
        if last.Keep? {
          assert Lands(keys, m, n, f, last.key, n - 1);
          if last.key in done {
            var i :| Lands(keys, m, n - 1, f, last.key, i);
            assert Lands(keys, m, n, f, last.key, i) && done[last.key] == f(keys[i], m[keys[i]]).value;
          }
        }
      }
    }
  }

  lemma CompatibleShrinks<T>(keys: seq<string>, m: map<string, T>, n: nat, fewer: nat,
                             f: (string, T) -> Outcome<T>, join: (T, T) -> Option<T>)
    requires fewer < n <= |keys| && (forall k <- keys :: k in m) && Compatible(keys, m, n, f, join)
    ensures Compatible(keys, m, fewer, f, join)
  {
    forall i, j, k | i < j && Lands(keys, m, fewer, f, k, i) && Lands(keys, m, fewer, f, k, j)
      ensures join(f(keys[i], m[keys[i]]).value, f(keys[j], m[keys[j]]).value).Some?
    {
      assert Lands(keys, m, n, f, k, i) && Lands(keys, m, n, f, k, j);
    }
  }

  lemma LandsGrows<T>(keys: seq<string>, m: map<string, T>, n: nat, f: (string, T) -> Outcome<T>)
    requires 0 < n <= |keys| && forall k <- keys :: k in m
    ensures forall i, k :: Lands(keys, m, n - 1, f, k, i) ==> Lands(keys, m, n, f, k, i)
    ensures forall i, k :: Lands(keys, m, n, f, k, i) && i < n - 1 ==> Lands(keys, m, n - 1, f, k, i)
  {
  }

  /** When joining unites what `members` finds in the records, the result has
      exactly what the records that met had. */
  lemma {:induction false} FoldedUnites<T(!new)>(keys: seq<string>, m: map<string, T>, n: nat,
                                                 f: (string, T) -> Outcome<T>, join: (T, T) -> Option<T>,
                                                 members: T -> set<string>)
    requires n <= |keys| && (forall k <- keys :: k in m) && Folded(keys, m, n, f, join).Some?
    requires forall a, b :: join(a, b).Some? ==> members(join(a, b).value) == members(a) + members(b)
    ensures forall k, x :: k in Folded(keys, m, n, f, join).value ==>
              (x in members(Folded(keys, m, n, f, join).value[k]) <==>
               exists i :: Lands(keys, m, n, f, k, i) && x in members(f(keys[i], m[keys[i]]).value))
  {
    if n > 0 {
      FoldedUnites(keys, m, n - 1, f, join, members);
      FoldedKeys(keys, m, n - 1, f, join);
      LandsGrows(keys, m, n, f);
      var t, done := Folded(keys, m, n, f, join).value, Folded(keys, m, n - 1, f, join).value;
      var last := f(keys[n - 1], m[keys[n - 1]]);
      forall k, x | k in t
        ensures x in members(t[k]) <==> exists i ::
          Lands(keys, m, n, f, k, i) &&
          x in members(f(keys[i], m[keys[i]]).value)
      {
        if last.Keep? && last.key == k { assert Lands(keys, m, n, f, k, n - 1); }
        if k in done && x in members(done[k]) {
          var i :| Lands(keys, m, n - 1, f, k, i) && x in members(f(keys[i], m[keys[i]]).value);
          assert Lands(keys, m, n, f, k, i);
        }
      }
    }
  }
}
