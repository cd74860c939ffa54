/** The CLI's shared sign-in session: any number of concurrent calls, one token,
    and at most one re-authentication at a time.  A mutex and a condition
    variable divide each call into atomic regions; a run is any interleaving of
    these regions. */
module AuthSessions {
  import opened Text
  import opened Sorting

  /** Where a call is between two of its atomic regions. */
  datatype Phase =
    | Idle
    | Using(token: string)                        // runs its request with this token
    | Asleep(stale: string)                       // in `cond.Wait`
    | Awake(stale: string)                        // woken, but without the lock yet
    | Reauthenticating(stale: string)             // outside the lock, signing in again
    | Returned(stale: string, token: string)
    | Failed(stale: string)

  /** A re-authentication that began when `count` tokens had been held. */
  datatype Start = Start(stale: string, count: nat)
  datatype Success = Success(stale: string, token: string)

  datatype Action =
    | Read(id: nat)                               // `AccessToken`
    | Enter(id: nat)                              // `refresh`, up to its first wait or release
    | Wake(id: nat)                               // after a wait
    | Finish(id: nat, result: Option<string>)     // after `reauthenticate`

  /** Every success replaced the token that its call had found stale, or a blank
      one. */
  ghost predicate Replaced(successes: seq<Success>, issued: seq<string>) {
    && |issued| == |successes| + 1
    && forall k :: 0 <= k < |successes| ==>
         successes[k].token == issued[k + 1] && (successes[k].stale == issued[k] || Blank(issued[k]))
  }

  /** Every re-authentication began because the token held at that time was the
      one its call had found stale, or blank. */
  ghost predicate Justified(starts: seq<Start>, issued: seq<string>) {
    forall k :: 0 <= k < |starts| ==>
      0 < starts[k].count <= |issued| && (starts[k].stale == issued[starts[k].count - 1] ||
                                          Blank(issued[starts[k].count - 1]))
  }

  /** What the call knows, it has seen the session hold. */
  ghost predicate Seen(p: Phase, issued: seq<string>) {
    && (p.Using? || p.Returned? ==> p.token in issued)
    && (!p.Idle? && !p.Using? ==> p.stale in issued)
  }

  /** The calls fit the flag: only its holder re-authenticates, with the token
      that is still in place, and nobody sleeps when nobody holds it, so no
      wake-up is lost. */
  ghost predicate Coherent(callers: map<nat, Phase>, holder: Option<nat>, token: string, issued: seq<string>) {
    && (holder.Some? ==> holder.value in callers)
    && (forall id <- callers :: callers[id].Reauthenticating? <==> holder == Some(id))
    && (forall id <- callers :: callers[id].Asleep? ==> holder.Some?)
    && (forall id <- callers :: callers[id].Reauthenticating? ==> callers[id].stale == token || Blank(token))
    && (forall id <- callers :: Seen(callers[id], issued))
  }

  /** What the call came back with is of use to it: the token of its own success, or one
      that is not blank and not the one it had found stale. */
  ghost predicate WellServed(p: Phase, successes: seq<Success>) {
    p.Returned? ==> Success(p.stale, p.token) in successes || (p.token != p.stale && !Blank(p.token))
  }

  ghost predicate AllServed(callers: map<nat, Phase>, successes: seq<Success>) {
    forall id <- callers :: WellServed(callers[id], successes)
  }

  /** At most one re-authentication is in flight, whatever the number of calls. */
  lemma SingleFlight(callers: map<nat, Phase>, holder: Option<nat>, token: string, issued: seq<string>)
    requires Coherent(callers, holder, token, issued)
    ensures forall i, j ::
              i in callers && j in callers && callers[i].Reauthenticating? && callers[j].Reauthenticating? ==> i == j
    ensures holder.Some? <==> exists i :: i in callers && callers[i].Reauthenticating?
  {
    hide Trim;
    if holder.Some? { assert callers[holder.value].Reauthenticating?; }
  }

  class AuthSession {
    var token: string
    var refreshing: bool
    /** The calls in progress. */
    var callers: map<nat, Phase>

    /** The tokens held so far, the present one last. */
    ghost var issued: seq<string>
    /** The call that the flag is up for. */
    ghost var holder: Option<nat>
    ghost var starts: seq<Start>
    ghost var successes: seq<Success>

    ghost predicate Valid()
      reads this
    {
      && issued != [] && issued[|issued| - 1] == token
      && (refreshing <==> holder.Some?)
      && Coherent(callers, holder, token, issued)
      && Replaced(successes, issued) && Justified(starts, issued)
      && AllServed(callers, successes)
    }

    constructor (token: string)
      ensures Valid() && this.token == token && !refreshing && callers == map[]
      ensures issued == [token] && starts == [] && successes == []
    {
      this.token, refreshing, callers := token, false, map[];
      issued, starts, successes, holder := [token], [], [], None;
    }

    /** Another token than the stale one is at hand. */
    predicate Fresh(stale: string)
      reads this
    {
      token != stale && !Blank(token)
    }

    function PhaseOf(id: nat): Phase
      reads this
    {
      if id in callers then callers[id] else Idle
    }

    /** A call fetches the token and starts its request. */
    method Read(id: nat) returns (t: string)
      requires Valid() && PhaseOf(id).Idle?
      modifies this`callers
      ensures Valid() && t == token && callers == old(callers)[id := Using(token)]
    {
      hide Trim, Coherent, Replaced, Justified;
      t := token;
      NotHolder(callers, holder, token, issued, id);
      CoherentSet(callers, holder, token, issued, id, Using(token));
      callers := callers[id := Using(token)];
    }

    /** The decision that both regions of `refresh` end with, once nobody else is
        re-authenticating: take the token at hand, or become the one. */
    method Decide(id: nat, stale: string)
      requires Valid() && !refreshing && stale in issued && !PhaseOf(id).Reauthenticating?
      modifies this`callers, this`refreshing, this`starts, this`holder
      ensures Valid()
      ensures refreshing == !Fresh(stale)
      ensures starts == if Fresh(stale) then old(starts) else old(starts) + [Start(stale, |issued|)]
      ensures callers == old(callers)[id := if Fresh(stale) then Returned(stale, token) else Reauthenticating(stale)]
      ensures PhaseOf(id) == if token == stale || Blank(token) then Reauthenticating(stale) else Returned(stale, token)
    {
      hide Trim, Coherent, Replaced;
      NotHolder(callers, holder, token, issued, id);
      if Fresh(stale) {
        CoherentSet(callers, holder, token, issued, id, Returned(stale, token));
        callers := callers[id := Returned(stale, token)];
        return;
      }
      CoherentStart(callers, token, issued, id, stale);
      refreshing := true;
      holder := Some(id);
      starts := starts + [Start(stale, |issued|)];
      callers := callers[id := Reauthenticating(stale)];
    }

    /** `refresh` from its start.  A call that finds a re-authentication under way
        waits for it, even if another token is at hand. */
    method Enter(id: nat)
      requires Valid() && PhaseOf(id).Using?
      modifies this`callers, this`refreshing, this`starts, this`holder
      ensures Valid()
      ensures
        var stale := old(PhaseOf(id)).token;
        && refreshing == (old(refreshing) || !Fresh(stale))
        && starts == (if old(refreshing) || Fresh(stale) then old(starts) else old(starts) + [Start(stale, |issued|)])
        && callers == old(callers)[id := if old(refreshing) then Asleep(stale)
                                         else if Fresh(stale) then Returned(stale, token)
                                         else Reauthenticating(stale)]
      // with nobody signing in, it signs in exactly with the stale token or none in place
      ensures
        var stale := old(PhaseOf(id)).token;
        !old(refreshing) ==>
          PhaseOf(id) == if token == stale || Blank(token) then Reauthenticating(stale) else Returned(stale, token)
    {
      hide Trim, Coherent, Replaced, Justified;
      var stale := callers[id].token;
      CoherentStale(callers, holder, token, issued, id);
      if refreshing {
        CoherentSet(callers, holder, token, issued, id, Asleep(stale));
        callers := callers[id := Asleep(stale)];
        return;
      }
      Decide(id, stale);
    }

    /** `refresh` after a wait.  Here a token at hand is taken even while somebody
        re-authenticates again. */
    method Wake(id: nat)
      requires Valid() && PhaseOf(id).Awake?
      modifies this`callers, this`refreshing, this`starts, this`holder
      ensures Valid()
      ensures
        var stale := old(PhaseOf(id)).stale;
        && refreshing == (old(refreshing) || !Fresh(stale))
        && starts == (if old(refreshing) || Fresh(stale) then old(starts) else old(starts) + [Start(stale, |issued|)])
        && callers == old(callers)[id := if Fresh(stale) then Returned(stale, token)
                                         else if old(refreshing) then Asleep(stale)
                                         else Reauthenticating(stale)]
      // it goes on waiting or signs in exactly with the stale token or none in place
      ensures
        var stale := old(PhaseOf(id)).stale;
        PhaseOf(id) == if token != stale && !Blank(token) then Returned(stale, token)
                       else if old(refreshing) then Asleep(stale)
                       else Reauthenticating(stale)
    {
      hide Trim, Coherent, Replaced, Justified;
      var stale := callers[id].stale;
      CoherentStale(callers, holder, token, issued, id);
      if Fresh(stale) {
        CoherentSet(callers, holder, token, issued, id, Returned(stale, token));
        callers := callers[id := Returned(stale, token)];
        return;
      }
      if refreshing {
        CoherentSet(callers, holder, token, issued, id, Asleep(stale));
        callers := callers[id := Asleep(stale)];
        return;
      }
      Decide(id, stale);
    }

    /** The last region of `refresh`: publish the new token, if there is one, and
        wake everybody. */
    method Finish(id: nat, result: Option<string>)
      requires Valid() && PhaseOf(id).Reauthenticating?
      modifies this
      ensures Valid() && !refreshing && starts == old(starts)
      ensures token == if result.Some? then result.value else old(token)
      ensures issued == old(issued) + if result.Some? then [result.value] else []
      ensures successes == old(successes) + if result.Some? then [Success(old(PhaseOf(id)).stale, result.value)] else []
      ensures callers.Keys == old(callers).Keys
      ensures PhaseOf(id) == if result.Some? then Returned(old(PhaseOf(id)).stale, result.value)
        else Failed(old(PhaseOf(id)).stale)
      ensures forall other :: other != id ==>
        PhaseOf(other) == if old(PhaseOf(other)).Asleep? then Awake(old(PhaseOf(other)).stale) else old(PhaseOf(other))
    {
      hide Trim, Replaced, Justified, Coherent;
      var stale := callers[id].stale;
      CoherentStale(callers, holder, token, issued, id);
      CoherentFinish(callers, holder, token, issued, id, result);
      if result.Some? {
        token := result.value;
        ReplacesOne(successes, issued, stale, result.value);
        JustifiedStays(starts, issued, result.value);
        issued := issued + [result.value];
        successes := successes + [Success(stale, result.value)];
      }
      refreshing, holder := false, None;
      var woken := Broadcast(callers);
      callers := woken[id := if result.Some? then Returned(stale, result.value) else Failed(stale)];
    }

    /** Any interleaving of any number of calls.  What began or succeeded during
        the run is justified by the token held at the time, and no call ever comes
        back with the token it had found stale, unless it has just signed in. */
    method Drive(schedule: seq<Action>)
      requires Valid()
      modifies this
      ensures Valid() && old(issued) <= issued && old(starts) <= starts && old(successes) <= successes
      ensures forall k :: |old(starts)| <= k < |starts| ==> starts[k].count >= |old(issued)|
      ensures AllServed(callers, successes)
    {
      hide Trim, Replaced, Justified, Seen, Coherent, WellServed;
      for i := 0 to |schedule|
        invariant Valid() && old(issued) <= issued && old(starts) <= starts && old(successes) <= successes
        invariant forall k :: |old(starts)| <= k < |starts| ==> starts[k].count >= |old(issued)|
      {
        match schedule[i] {
          case Read(id) => if PhaseOf(id).Idle? { var t := this.Read(id); }
          case Enter(id) => if PhaseOf(id).Using? { this.Enter(id); }
          case Wake(id) => if PhaseOf(id).Awake? { this.Wake(id); }
          case Finish(id, result) => if PhaseOf(id).Reauthenticating? { this.Finish(id, result); }
        }
      }
    }
  }

  function Broadcast(callers: map<nat, Phase>): (r: map<nat, Phase>)
    ensures r.Keys == callers.Keys
    ensures forall id <- callers :: r[id] == if callers[id].Asleep? then Awake(callers[id].stale) else callers[id]
  {
    map id <- callers :: if callers[id].Asleep? then Awake(callers[id].stale) else callers[id]
  }

  lemma CoherentStale(callers: map<nat, Phase>, holder: Option<nat>, token: string, issued: seq<string>, id: nat)
    requires Coherent(callers, holder, token, issued) && id in callers
    ensures callers[id].Reauthenticating? ==> callers[id].stale == token || Blank(token)
    ensures Seen(callers[id], issued) && (callers[id].Reauthenticating? <==> holder == Some(id))
  {
    hide Trim;
  }

  lemma NotHolder(callers: map<nat, Phase>, holder: Option<nat>, token: string, issued: seq<string>, id: nat)
    requires Coherent(callers, holder, token, issued) && (id in callers ==> !callers[id].Reauthenticating?)
    ensures holder != Some(id)
  {
    hide Trim;
  }

  lemma CoherentFinish(callers: map<nat, Phase>, holder: Option<nat>, token: string, issued: seq<string>, id: nat,
                       result: Option<string>)
    requires Coherent(callers, holder, token, issued) && id in callers && callers[id].Reauthenticating?
    ensures
      var token' := if result.Some? then result.value else token;
      var issued' := if result.Some? then issued + [result.value] else issued;
      var last := if result.Some? then Returned(callers[id].stale, result.value) else Failed(callers[id].stale);
      Coherent(Broadcast(callers)[id := last], None, token', issued')
  {
    hide Trim;
  }

  lemma CoherentSet(callers: map<nat, Phase>, holder: Option<nat>, token: string, issued: seq<string>, id: nat,
                    p: Phase)
    requires Coherent(callers, holder, token, issued) && holder != Some(id)
    requires !p.Reauthenticating? && Seen(p, issued) && (p.Asleep? ==> holder.Some?)
    ensures Coherent(callers[id := p], holder, token, issued)
  {
    hide Trim;
  }

  lemma CoherentStart(callers: map<nat, Phase>, token: string, issued: seq<string>, id: nat, stale: string)
    requires Coherent(callers, None, token, issued) && stale in issued && (stale == token || Blank(token))
    ensures Coherent(callers[id := Reauthenticating(stale)], Some(id), token, issued)
  {
    hide Trim;
  }

  lemma ReplacesOne(successes: seq<Success>, issued: seq<string>, stale: string, token: string)
    requires Replaced(successes, issued) && issued != [] &&
      (stale == issued[|issued| - 1] || Blank(issued[|issued| - 1]))
    ensures Replaced(successes + [Success(stale, token)], issued + [token])
  {
    hide Trim;
  }

  lemma JustifiedStays(starts: seq<Start>, issued: seq<string>, token: string)
    requires Justified(starts, issued)
    ensures Justified(starts, issued + [token])
  {
    hide Trim;
  }

  // ---- what follows when tokens are never reused ----

  ghost predicate NeverReused(issued: seq<string>) {
    Sorting.Distinct(issued) && forall t <- issued :: !Blank(t)
  }

  /** Every stale token is refreshed successfully at most once, and it is the
      token that the success replaced. */
  lemma RefreshedOnce(successes: seq<Success>, issued: seq<string>, j: nat, k: nat)
    requires Replaced(successes, issued) && NeverReused(issued)
    requires j < |successes| && k < |successes| && successes[j].stale == successes[k].stale
    ensures j == k && successes[k].stale == issued[k]
  {
    hide Trim;
    assert issued[j] in issued && issued[k] in issued;
  }

  /** Once a token has been replaced, nobody signs in again on its account: a
      re-authentication that begins when `count` tokens have been held is never
      for an earlier one. */
  lemma NoLateStart(starts: seq<Start>, issued: seq<string>, k: nat, j: nat)
    requires Justified(starts, issued) && NeverReused(issued)
    requires k < |starts| && j < |issued| && j + 1 < starts[k].count
    ensures starts[k].stale != issued[j]
  {
    hide Trim;
    assert issued[starts[k].count - 1] in issued;
  }

  /** So a call that still wants a replaced token finds another one at hand: it
      will return without signing in. */
  lemma ReplacedIsFresh(issued: seq<string>, j: nat)
    requires NeverReused(issued) && j + 1 < |issued|
    ensures issued[|issued| - 1] != issued[j] && !Blank(issued[|issued| - 1])
  {
    hide Trim;
    assert issued[|issued| - 1] in issued;
  }
}
