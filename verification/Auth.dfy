/** The agent's assignment state: which desired state this node follows, how far
    it has got in it, and the Google token cached for it.  Every entry point runs
    under one lock, so a run is any sequence of whole calls; what the control
    plane and Google answer is arbitrary. */
module Auth {
  import opened Text

  const ASSIGNED := "assigned"
  const UNASSIGNED := "unassigned"
  const MANAGED_BUNDLE := "managed_bundle"
  const EMPTY_DESIRED_STATE := "{\"schemaVersion\":2,\"revision\":\"unassigned\",\"environments\":[]}"

  /** The three bundle tokens. */
  datatype Bundle = Bundle(organization: string, environment: string, node: string)

  const NO_BUNDLE := Bundle("", "", "")

  datatype State = State(
    nodeName: string, nodeID: int,
    mode: string, environmentID: int, identityVersion: int, floor: int, uri: string, inline: string, bundle: Bundle,
    accessToken: string, accessExpires: Option<int>, refreshToken: string,
    googleToken: string, googleExpires: Option<int>)

  const BLANK_STATE := State("", 0, "", 0, 0, 0, "", "", NO_BUNDLE, "", None, "", "", None)

  datatype Target = Target(mode: string, uri: string, inline: string, bundle: Bundle)
  datatype Snapshot = Snapshot(nodeID: int, environmentID: int, floor: int, target: Target)

  // ---- responses ----

  datatype TargetResponse = TargetResponse(mode: string, sequence: int, uri: string, bundle: Bundle)
  datatype BootstrapResponse = BootstrapResponse(
    nodeID: int, accessToken: string, refreshToken: string, expiresIn: int, target: Option<TargetResponse>)
  datatype RefreshResponse = RefreshResponse(
    accessToken: string, refreshToken: string, expiresIn: int, target: Option<TargetResponse>)
  datatype AssignmentResponse = AssignmentResponse(
    mode: string, environmentID: int, identityVersion: int, sequence: int, uri: string, desiredState: string,
    bundle: Bundle)

  datatype Reply<T> = Answer(value: T) | Unauthorized | Failed

  function TrimBundle(b: Bundle): Bundle {
    Bundle(Trim(b.organization), Trim(b.environment), Trim(b.node))
  }

  // ---- what the updates amount to ----

  /** `managedDesiredStateLocked`. */
  predicate Managed(s: State) {
    Trim(s.mode) == MANAGED_BUNDLE && !Blank(s.uri)
  }

  /** `AssignmentEligible`. */
  predicate Eligible(mode: string) {
    Trim(mode) == ASSIGNED || Trim(mode) == MANAGED_BUNDLE
  }

  function ForgetGoogle(s: State): State {
    s.(googleToken := "", googleExpires := None)
  }

  function TargetMode(t: TargetResponse): string {
    if Blank(t.mode) then MANAGED_BUNDLE else Trim(t.mode)
  }

  function SameTarget(s: State, mode: string, uri: string, bundle: Bundle): bool {
    s.mode == mode && s.uri == uri && s.bundle == bundle
  }

  function Max(a: int, b: int): int {
    if a < b then b else a
  }

  /** The target part of the state after a response that carries one. */
  function TargetBy(s: State, t: TargetResponse): State {
    var mode, uri, bundle := TargetMode(t), Trim(t.uri), TrimBundle(t.bundle);
    s.(mode := mode, environmentID := 0, identityVersion := 0, uri := uri, bundle := bundle, inline := "",
       floor := if SameTarget(s, mode, uri, bundle) then Max(s.floor, t.sequence) else t.sequence)
  }

  /** The state after a response that may carry a desired-state target.  A cached
      token outlives it exactly when neither what the node follows nor the floor
      changes. */
  function Applied(s: State, target: Option<TargetResponse>): State {
    if target.None? || Blank(target.value.uri) then
      if Managed(s) then ForgetGoogle(s.(mode := "", uri := "", bundle := NO_BUNDLE, inline := "")) else s
    else
      var next := TargetBy(s, target.value);
      if SameTarget(s, next.mode, next.uri, next.bundle) && next.floor == s.floor then next else ForgetGoogle(next)
  }

  /** Everything that `fetchAssignmentLocked` compares. */
  function Assignment(s: State): (string, int, int, int, string, string, Bundle) {
    (s.mode, s.environmentID, s.identityVersion, s.floor, s.uri, s.inline, s.bundle)
  }

  /** The assignment part of the state after an "assigned" response. */
  function AssignedBy(s: State, r: AssignmentResponse): State {
    var bundle := TrimBundle(r.bundle);
    var same := s.mode == ASSIGNED && s.environmentID == r.environmentID && s.identityVersion == r.identityVersion &&
      s.bundle == bundle;
    s.(mode := ASSIGNED, environmentID := r.environmentID, identityVersion := r.identityVersion,
       floor := if same then Max(s.floor, r.sequence) else r.sequence,
       uri := Trim(r.uri), inline := "", bundle := bundle)
  }

  /** The same for an "unassigned" response. */
  function UnassignedBy(s: State, r: AssignmentResponse): State {
    s.(mode := UNASSIGNED, environmentID := 0, identityVersion := 0, floor := r.sequence, uri := "",
       inline := if r.desiredState == "" then EMPTY_DESIRED_STATE else r.desiredState, bundle := NO_BUNDLE)
  }

  /** The state after an assignment response, or nothing when it is refused.  Here a
      cached token outlives only a response that changes nothing of the assignment. */
  function Fetched(s: State, r: AssignmentResponse): Option<State> {
    var mode := Trim(r.mode);
    if (mode == ASSIGNED && !Blank(r.uri)) || mode == UNASSIGNED then
      var next := if mode == ASSIGNED then AssignedBy(s, r) else UnassignedBy(s, r);
      Some(if Assignment(next) == Assignment(s) then next else ForgetGoogle(next))
    else None
  }

  /** The state after a bootstrap response. */
  function Bootstrapped(s: State, nodeName: string, r: BootstrapResponse, now: int): State {
    Applied(s.(nodeName := nodeName, nodeID := r.nodeID, accessToken := r.accessToken, refreshToken := r.refreshToken,
               accessExpires := Some(now + r.expiresIn)), r.target)
  }

  /** The state after a refresh response; a blank refresh token is not taken. */
  function Refreshed(s: State, r: RefreshResponse, now: int): State {
    Applied(s.(accessToken := r.accessToken,
               refreshToken := if Blank(r.refreshToken) then s.refreshToken else r.refreshToken,
               accessExpires := Some(now + r.expiresIn)), r.target)
  }

  function TargetOf(s: State): Target {
    Target(s.mode, s.uri, s.inline, s.bundle)
  }

  function SnapshotOf(s: State): Snapshot {
    Snapshot(s.nodeID, s.environmentID, s.floor, TargetOf(s))
  }

  predicate Matches(snapshot: Snapshot, s: State) {
    snapshot.nodeID == s.nodeID && snapshot.environmentID == s.environmentID && snapshot.target == TargetOf(s)
  }

  predicate TokenValid(now: int, token: string, expires: Option<int>, skew: int) {
    !Blank(token) && expires.Some? && now < expires.value - skew
  }

  // ---- what the calls amount to ----

  /** `ensureControlPlaneAccessLocked`: the token at hand, or one bootstrap, or one
      refresh; a failure changes nothing. */
  ghost predicate Accessed(nodeName: string, bootstrapToken: string, skew: int, s: State, t: State, ok: bool) {
    if !ok then t == s
    else
      || (t == s && exists now :: TokenValid(now, s.accessToken, s.accessExpires, skew))
      || ((s.refreshToken == "" || !Blank(bootstrapToken)) && exists r, now :: t == Bootstrapped(s, nodeName, r, now))
      || (s.refreshToken != "" && exists r, now :: t == Refreshed(s, r, now))
  }

  predicate Offline(s: State) {
    !Blank(s.uri) || |s.inline| > 0
  }

  /** The middle of `Initialize` and `Sync`: with access, a managed node drops its
      inline state and any other fetches its assignment; without, or when the
      fetch fails, the node carries on with what it has, if it has anything. */
  ghost predicate Followed(accessible: bool, s: State, t: State, ok: bool) {
    if accessible && !Managed(s) then
      if ok then (exists r :: Fetched(s, r) == Some(t)) || (t == s && Offline(s)) else t == s && !Offline(s)
    else ok && t == if Managed(s) then s.(inline := "") else s
  }

  /** `ensureGoogleAccessLocked`, by way of the state `via` that control-plane
      access may have led to. */
  ghost predicate Googled(skew: int, s: State, via: State, t: State, ok: bool) {
    if !ok then t == via
    else
      || (t == via == s && exists now :: TokenValid(now, s.googleToken, s.googleExpires, skew))
      || (!Blank(t.googleToken) && t == via.(googleToken := t.googleToken, googleExpires := t.googleExpires))
  }

  /** The end of `Sync`: an ineligible node drops its Google token, any other that has
      one renews it. */
  ghost predicate Renewed(nodeName: string, bootstrapToken: string, skew: int, s: State, via: State, t: State,
                          got: bool) {
    if !Eligible(s.mode) then t == ForgetGoogle(s) && got
    else if Blank(s.googleToken) then t == s && got
    else
      && (via == s || Accessed(nodeName, bootstrapToken, skew, s, via, true))
      && Googled(skew, s, via, t, got)
  }

  /** The states that a pass of the background loop goes through. */
  datatype Passage = Passage(online: bool, accessed: State, followed: State, via: State, got: bool)

  /** `Sync`: get access, follow the assignment, then drop or renew the token. */
  ghost predicate Synced(nodeName: string, bootstrapToken: string, skew: int, s: State, p: Passage, t: State) {
    && Accessed(nodeName, bootstrapToken, skew, s, p.accessed, p.online) && (p.online || Offline(p.accessed))
    && Followed(p.online, p.accessed, p.followed, true)
    && Renewed(nodeName, bootstrapToken, skew, p.followed, p.via, t, p.got) && (p.got || Offline(t))
  }

  /** `Initialize`, from the loaded state `s`: bootstrap if there is no refresh
      token, get access, follow the assignment.  `p.via` is the state after the
      bootstrap and `p.got` says whether the node is online by then. */
  ghost predicate Started(nodeName: string, bootstrapToken: string, skew: int, s: State, p: Passage, t: State) {
    && (if s.refreshToken != "" then p.via == s && p.got
        else if p.got then !Blank(bootstrapToken) && exists r, now :: p.via == Bootstrapped(s, nodeName, r, now)
        else p.via == s && Offline(s))
    && (if p.got then Accessed(nodeName, bootstrapToken, skew, p.via, p.accessed, p.online) &&
        (p.online || Offline(p.accessed))
        else p.accessed == p.via && !p.online)
    && Followed(p.online, p.accessed, t, true)
  }

  // ---- provenance ----

  /** The response or record that the floor came from. */
  datatype FloorOrigin = FloorOrigin(mode: string, bundle: Bundle, sequence: int)
  /** What the node followed when a Google token was obtained. */
  datatype TokenOrigin = TokenOrigin(mode: string, uri: string, bundle: Bundle, token: string)

  /** What must not change for the floor to keep its meaning. */
  datatype Identity = Identity(mode: string, environmentID: int, identityVersion: int, uri: string, bundle: Bundle)

  function IdentityOf(s: State): Identity {
    Identity(s.mode, s.environmentID, s.identityVersion, s.uri, s.bundle)
  }

  /** What every reachable state satisfies: the floor came from the present mode
      and bundle tokens, a cached token from the present mode, URI and bundle
      tokens, an inline desired state belongs to an unassigned node, and what the
      node follows is spelled without white space around it. */
  ghost predicate Sane(s: State, floorFrom: FloorOrigin, tokenFrom: TokenOrigin) {
    && Trimmed(s.mode) && Trimmed(s.uri)
    && Trimmed(s.bundle.organization) && Trimmed(s.bundle.environment) && Trimmed(s.bundle.node)
    && (s.mode != "" ==> floorFrom == FloorOrigin(s.mode, s.bundle, s.floor))
    && (s.googleToken != "" ==> tokenFrom == TokenOrigin(s.mode, s.uri, s.bundle, s.googleToken))
    && (s.inline != "" ==> s.mode == UNASSIGNED && s.uri == "" && s.bundle == NO_BUNDLE)
  }

  /** How the state at one moment relates to a later one.  `epoch` counts the
      changes of identity, including those in the middle of a call. */
  ghost predicate Advanced(before: State, epoch: nat, after: State, epoch': nat) {
    && epoch <= epoch'
    && (epoch == epoch' ==> IdentityOf(before) == IdentityOf(after))
    && (epoch == epoch' && before.mode != UNASSIGNED ==> before.floor <= after.floor)
  }

  lemma AppliedKeepsFloor(s: State, target: Option<TargetResponse>)
    requires IdentityOf(Applied(s, target)) == IdentityOf(s)
    ensures s.floor <= Applied(s, target).floor
  {
    hide Trim;
  }

  lemma FetchedKeepsFloor(s: State, r: AssignmentResponse)
    requires Fetched(s, r).Some? && IdentityOf(Fetched(s, r).value) == IdentityOf(s) && s.mode != UNASSIGNED
    ensures s.floor <= Fetched(s, r).value.floor
  {
    hide Trim;
  }

  // ---- what the lock does not protect ----

  /** One call can apply a refresh target and then fetch the assignment.  When
      that leads away from an assignment and straight back to it, the floor is
      the fetched one, however low, unless the target itself was for the same
      bundle with no environment. */
  lemma HopFloor(s: State, t: TargetResponse, r: AssignmentResponse)
    requires s.mode == ASSIGNED && !Blank(t.uri)
    requires Fetched(Applied(s, Some(t)), r).Some? && IdentityOf(Fetched(Applied(s, Some(t)), r).value) == IdentityOf(s)
    ensures
      var there, back := Applied(s, Some(t)), Fetched(Applied(s, Some(t)), r).value;
      back.floor ==
        if TargetMode(t) == ASSIGNED && TrimBundle(t.bundle) == s.bundle &&
           s.environmentID == 0 && s.identityVersion == 0
        then Max(there.floor, r.sequence) else r.sequence
    ensures s.environmentID != 0 ==>
      (Fetched(Applied(s, Some(t)), r).value.floor < s.floor <==> r.sequence < s.floor)
  {
    hide Trim;
    AssignedIsNotUnassigned();
  }

  lemma AssignedIsNotUnassigned()
    ensures ASSIGNED != UNASSIGNED
  {
    assert |ASSIGNED| != |UNASSIGNED|;
  }

  /** What a pass of the background loop does in any case, whether it succeeds or
      gives up on the way. */
  ghost predicate Ran(nodeName: string, bootstrapToken: string, skew: int, s: State, p: Passage, t: State) {
    && Accessed(nodeName, bootstrapToken, skew, s, p.accessed, p.online)
    && (p.followed == p.accessed || Followed(p.online, p.accessed, p.followed, true))
    && (|| t == p.followed || t == ForgetGoogle(p.followed)
        || (&& !Blank(p.followed.googleToken)
            && (p.via == p.followed || Accessed(nodeName, bootstrapToken, skew, p.followed, p.via, true))
            && Googled(skew, p.followed, p.via, t, p.got)))
  }

  /** What `AssignedBy` calls the same assignment. */
  predicate SameAssigned(s: State, r: AssignmentResponse) {
    && s.mode == ASSIGNED && s.environmentID == r.environmentID && s.identityVersion == r.identityVersion
    && s.bundle == TrimBundle(r.bundle)
  }

  /** The pass left for another target and came back by a fetch whose sequence, and
      that of the target if the fetch went on from it, is below the floor. */
  ghost predicate CameBackLower(s: State, p: Passage) {
    && IdentityOf(p.accessed) != IdentityOf(s)
    && exists r :: Fetched(p.accessed, r) == Some(p.followed) && r.sequence < s.floor &&
                   (SameAssigned(p.accessed, r) ==> p.accessed.floor < s.floor)
  }

  /** What a pass that ends in the identity it began with does to the floor. */
  ghost predicate FloorKept(s: State, p: Passage, t: State) {
    IdentityOf(t) == IdentityOf(s) ==>
      && (s.mode != ASSIGNED && s.mode != UNASSIGNED ==> s.floor <= t.floor)
      && (s.mode == ASSIGNED ==> (t.floor < s.floor <==> CameBackLower(s, p)))
  }

  /** What access can do to identity, floor and cached token. */
  ghost predicate Moved(s: State, a: State) {
    if IdentityOf(a) == IdentityOf(s) then s.floor <= a.floor
    else
      || (a.mode == "" && s.mode != "" && a.googleToken == "")
      || (a.environmentID == 0 && a.identityVersion == 0 &&
          (a.googleToken == "" || SameTarget(s, a.mode, a.uri, a.bundle)))
  }

  lemma AppliedMoves(s: State, target: Option<TargetResponse>)
    ensures Moved(s, Applied(s, target))
  {
    hide Trim;
    ManagedHasMode(s);
  }

  lemma ManagedHasMode(s: State)
    ensures Managed(s) ==> s.mode != ""
  {
  }

  lemma AccessMoves(nodeName: string, bootstrapToken: string, skew: int, s: State, a: State, ok: bool)
    requires Accessed(nodeName, bootstrapToken, skew, s, a, ok)
    ensures Moved(s, a)
  {
    hide Trim, Blank, Applied, Moved;
    assert Moved(s, s) by { hide *; StandingMoves(s); }
    if ok && a != s {
      if r, now :| a == Bootstrapped(s, nodeName, r, now) {
        AccountMoves(s, s.(nodeName := nodeName, nodeID := r.nodeID, accessToken := r.accessToken,
                           refreshToken := r.refreshToken, accessExpires := Some(now + r.expiresIn)), r.target);
      } else {
        var r, now :| a == Refreshed(s, r, now);
        AccountMoves(s, s.(accessToken := r.accessToken,
                           refreshToken := if Blank(r.refreshToken) then s.refreshToken else r.refreshToken,
                           accessExpires := Some(now + r.expiresIn)), r.target);
      }
    }
  }

  lemma StandingMoves(s: State)
    ensures Moved(s, s)
  {
  }

  lemma AccountMoves(s: State, moved: State, target: Option<TargetResponse>)
    requires IdentityOf(s) == IdentityOf(moved) && s.floor == moved.floor
    ensures Moved(s, Applied(moved, target))
  {
    hide Trim, Applied;
    AppliedMoves(moved, target);
  }

  /** A fetch that changes the identity, or nothing of it. */
  lemma FetchMoves(s: State, r: AssignmentResponse)
    requires Fetched(s, r).Some?
    ensures
      var f := Fetched(s, r).value;
      && (f.mode == ASSIGNED || f.mode == UNASSIGNED) && f.googleToken in ["", s.googleToken]
      && (if IdentityOf(f) == IdentityOf(s) then s.mode != UNASSIGNED ==> s.floor <= f.floor else f.googleToken == "")
      && (f.mode == ASSIGNED ==> f.floor == if SameAssigned(s, r) then Max(s.floor, r.sequence) else r.sequence)
  {
    hide Trim;
    AssignedIsNotUnassigned();
  }

  lemma FollowMoves(accessible: bool, s: State, f: State)
    requires Followed(accessible, s, f, true) || f == s
    ensures f.googleToken in ["", s.googleToken]
    ensures IdentityOf(f) == IdentityOf(s) && s.mode != UNASSIGNED ==> s.floor <= f.floor
    ensures IdentityOf(f) != IdentityOf(s) ==> f.googleToken == "" && exists r :: Fetched(s, r) == Some(f)
  {
    hide Trim, Managed, Fetched;
    if r :| Fetched(s, r) == Some(f) { FetchMoves(s, r); }
  }

  /** A pass that ends in the identity it began with never lowers the floor of a
      node that is neither assigned nor unassigned, such as a managed-bundle one, and
      that of an assigned one exactly when it left for another target and came back
      with a lower sequence. */
  lemma SyncFloor(nodeName: string, bootstrapToken: string, skew: int, s: State, p: Passage, t: State)
    requires Ran(nodeName, bootstrapToken, skew, s, p, t)
    ensures FloorKept(s, p, t)
  {
    hide Trim, Followed, Accessed, Fetched, SameAssigned;
    AssignedIsNotUnassigned();
    AccessMoves(nodeName, bootstrapToken, skew, s, p.accessed, p.online);
    FollowMoves(p.online, p.accessed, p.followed);
    BlankToken();
    if t != p.followed && t != ForgetGoogle(p.followed) {
      assert Moved(p.followed, p.via) by {
        if p.via == p.followed {
          StandingMoves(p.via);
        } else {
          AccessMoves(nodeName, bootstrapToken, skew, p.followed, p.via, true);
        }
      }
    }
    forall r | Fetched(p.accessed, r) == Some(p.followed)
      ensures (p.followed.mode == ASSIGNED || p.followed.mode == UNASSIGNED)
      ensures p.followed.mode == ASSIGNED ==>
              p.followed.floor == if SameAssigned(p.accessed, r) then Max(p.accessed.floor, r.sequence) else r.sequence
    {
      FetchMoves(p.accessed, r);
    }
  }

  lemma BlankToken()
    ensures Blank("")
  {
  }

  /** A snapshot taken before a fetch still matches after it exactly when the
      fetch left environment, URI, bundle tokens, mode and inline state alone.
      The identity version is not looked at: if that alone changed, the floor
      starts again from the response, and a late record can still raise it. */
  lemma LateRecord(s: State, r: AssignmentResponse)
    requires Fetched(s, r).Some?
    ensures
      var next := Fetched(s, r).value;
      Matches(SnapshotOf(s), next) <==>
      IdentityOf(next).(identityVersion := s.identityVersion) == IdentityOf(s) && next.inline == s.inline
    ensures
      var next := Fetched(s, r).value;
      Matches(SnapshotOf(s), next) && s.mode == ASSIGNED && next.identityVersion != s.identityVersion ==>
      next.floor == r.sequence
  {
    hide Trim;
    AssignedIsNotUnassigned();
  }

  // ---- who holds a Google token ----

  /** Whether a response with this target leaves a node eligible: one without a
      target takes eligibility from a managed node and from nobody else. */
  predicate LeavesEligible(s: State, target: Option<TargetResponse>) {
    if target.None? || Blank(target.value.uri) then Eligible(s.mode) && !Managed(s)
    else Eligible(TargetMode(target.value))
  }

  lemma AppliedEligible(s: State, target: Option<TargetResponse>)
    ensures Eligible(Applied(s, target).mode) <==> LeavesEligible(s, target)
  {
    hide Trim;
    BlankIsNotEligible();
  }

  /** The same for the two responses that carry a target. */
  lemma ResponseEligible(s: State, nodeName: string, b: BootstrapResponse, r: RefreshResponse, now: int)
    ensures Eligible(Bootstrapped(s, nodeName, b, now).mode) <==> LeavesEligible(s, b.target)
    ensures Eligible(Refreshed(s, r, now).mode) <==> LeavesEligible(s, r.target)
  {
    hide Trim, Eligible, Applied;
    AppliedEligible(s.(nodeName := nodeName, nodeID := b.nodeID, accessToken := b.accessToken,
                       refreshToken := b.refreshToken, accessExpires := Some(now + b.expiresIn)), b.target);
    AppliedEligible(s.(accessToken := r.accessToken,
                       refreshToken := if Blank(r.refreshToken) then s.refreshToken else r.refreshToken,
                       accessExpires := Some(now + r.expiresIn)), r.target);
  }

  /** The access that a token was obtained with took the node's eligibility. */
  ghost predicate LostOnTheWay(p: Passage) {
    Eligible(p.followed.mode) && !Blank(p.followed.googleToken) && p.got && !Eligible(p.via.mode)
  }

  /** A response that takes a node's eligibility drops its token. */
  lemma AccessDropsToken(nodeName: string, bootstrapToken: string, skew: int, s: State, a: State, ok: bool)
    requires Accessed(nodeName, bootstrapToken, skew, s, a, ok) && (Eligible(s.mode) <==> !Eligible(a.mode))
    ensures a.googleToken == ""
  {
    hide Trim, Blank, Eligible;
  }

  lemma FollowDropsToken(accessible: bool, s: State, f: State)
    requires Followed(accessible, s, f, true) && (Eligible(s.mode) <==> !Eligible(f.mode))
    ensures f.googleToken == ""
  {
    hide Trim, Eligible, Managed;
  }

  /** After a successful pass an ineligible node holds a Google token exactly when it
      lost its eligibility on the way to it; and a pass that begins with an
      ineligible node ends without one. */
  lemma SyncHolder(nodeName: string, bootstrapToken: string, skew: int, s: State, p: Passage, t: State)
    requires Synced(nodeName, bootstrapToken, skew, s, p, t)
    ensures t.googleToken != "" && !Eligible(t.mode) <==> LostOnTheWay(p)
    ensures !Eligible(s.mode) ==> t.googleToken == ""
  {
    hide Trim, Eligible, Accessed, Followed;
    BlankToken();
    if Eligible(s.mode) <==> !Eligible(p.accessed.mode) {
      AccessDropsToken(nodeName, bootstrapToken, skew, s, p.accessed, p.online);
    }
    if Eligible(p.accessed.mode) <==> !Eligible(p.followed.mode) {
      FollowDropsToken(p.online, p.accessed, p.followed);
    }
    FollowMoves(p.online, p.accessed, p.followed);
    if p.via != p.followed && Eligible(p.followed.mode) && !Eligible(p.via.mode) && !Blank(p.followed.googleToken) {
      AccessDropsToken(nodeName, bootstrapToken, skew, p.followed, p.via, true);
    }
  }

  /** The node knows what to run: it has a URI to read, or a desired state inline. */
  ghost predicate Directed(s: State) {
    Trim(s.uri) != "" || s.inline != ""
  }

  lemma OfflineIs(s: State)
    ensures Offline(s) <==> Directed(s)
  {
    hide Trim;
  }

  lemma FetchDirects(s: State, r: AssignmentResponse)
    requires Fetched(s, r).Some?
    ensures Directed(Fetched(s, r).value)
  {
    hide Trim;
    TrimTrims(r.uri);
  }

  lemma FollowDirects(accessible: bool, s: State, f: State)
    requires Followed(accessible, s, f, true) && (accessible || Directed(s))
    ensures Directed(f)
  {
    hide Trim, Fetched;
    OfflineIs(s);
    if r :| Fetched(s, r) == Some(f) { FetchDirects(s, r); }
  }

  /** Access takes a node's direction only with its eligibility. */
  lemma AccessDirects(nodeName: string, bootstrapToken: string, skew: int, s: State, a: State)
    requires Accessed(nodeName, bootstrapToken, skew, s, a, true) && Directed(s)
    ensures Directed(a) || !Eligible(a.mode)
  {
    hide Trim, Applied;
    if a != s {
      if r, now :| a == Bootstrapped(s, nodeName, r, now) {
        AppliedDirects(s.(nodeName := nodeName, nodeID := r.nodeID, accessToken := r.accessToken,
                          refreshToken := r.refreshToken, accessExpires := Some(now + r.expiresIn)), r.target);
      } else {
        var r, now :| a == Refreshed(s, r, now);
        AppliedDirects(s.(accessToken := r.accessToken,
                          refreshToken := if Blank(r.refreshToken) then s.refreshToken else r.refreshToken,
                          accessExpires := Some(now + r.expiresIn)), r.target);
      }
    }
  }

  lemma AppliedDirects(s: State, target: Option<TargetResponse>)
    requires Directed(s)
    ensures Directed(Applied(s, target)) || !Eligible(Applied(s, target).mode)
  {
    hide Trim;
    PlainModes();
    if target.Some? { TrimTrims(target.value.uri); }
  }

  /** A pass that succeeds leaves a node that knows what to run, unless it lost its
      eligibility on the way to a Google token. */
  lemma SyncDirects(nodeName: string, bootstrapToken: string, skew: int, s: State, p: Passage, t: State)
    requires Synced(nodeName, bootstrapToken, skew, s, p, t)
    ensures Directed(t) || LostOnTheWay(p)
  {
    hide Trim, Eligible, Accessed, Followed;
    OfflineIs(p.accessed);
    OfflineIs(t);
    FollowDirects(p.online, p.accessed, p.followed);
    if p.via != p.followed && Eligible(p.followed.mode) && !Blank(p.followed.googleToken) {
      AccessDirects(nodeName, bootstrapToken, skew, p.followed, p.via);
    }
  }

  lemma PlainModes()
    ensures !Eligible("") && !Eligible(UNASSIGNED) && Eligible(ASSIGNED) && Eligible(MANAGED_BUNDLE)
    ensures Trimmed("") && Trimmed(ASSIGNED) && Trimmed(UNASSIGNED) && Trimmed(MANAGED_BUNDLE)
  {
    hide Trim, IsSpace;
    PlainWords();
    VisibleAscii('u');
    VisibleAscii('d');
    TrimmedEnds(UNASSIGNED);
    assert |ASSIGNED| != |UNASSIGNED|;
  }

  /** What is taken from an answer is trimmed. */
  lemma TidyAnswer(mode: string, uri: string, b: Bundle)
    ensures Trimmed(Trim(mode)) && Trimmed(Trim(uri))
    ensures Trimmed(TrimBundle(b).organization) && Trimmed(TrimBundle(b).environment) && Trimmed(TrimBundle(b).node)
  {
    hide Trim;
    TrimTrims(mode);
    TrimTrims(uri);
    TrimTrims(b.organization);
    TrimTrims(b.environment);
    TrimTrims(b.node);
  }

  lemma ValidIs(now: int, token: string, expires: Option<int>, skew: int)
    ensures TokenValid(now, token, expires, skew) <==> Trim(token) != "" && expires.Some? && now + skew < expires.value
    ensures TokenValid(now, token, expires, skew) ==> !Blank(token)
  {
    hide Trim;
  }

  lemma EligibleIs(mode: string)
    ensures Eligible(mode) <==> Trim(mode) in [ASSIGNED, MANAGED_BUNDLE]
  {
    hide Trim;
  }

  /** A pass in which nothing failed leaves a token exactly with an assigned or
      managed-bundle node that had one. */
  lemma SyncKeeps(nodeName: string, bootstrapToken: string, skew: int, s: State, p: Passage, t: State)
    requires Synced(nodeName, bootstrapToken, skew, s, p, t)
    ensures p.got ==>
      (!Blank(t.googleToken) <==>
       Trim(p.followed.mode) in [ASSIGNED, MANAGED_BUNDLE] && !Blank(p.followed.googleToken))
  {
    hide Trim, Eligible, Accessed, Followed;
    EligibleIs(p.followed.mode);
    BlankToken();
  }

  /** What an answer says the node is to follow. */
  function AnsweredTarget(mode: string, uri: string, inline: string, organization: string, environment: string,
                          node: string): Target {
    Target(mode, Trim(uri), inline, Bundle(Trim(organization), Trim(environment), Trim(node)))
  }

  /** What the node follows is what was answered last. */
  lemma AnswerIsFollowed(s: State, t: TargetResponse, r: AssignmentResponse)
    ensures !Blank(t.uri) ==>
      && TargetOf(Applied(s, Some(t))) ==
         AnsweredTarget(if Trim(t.mode) == "" then "managed_bundle" else Trim(t.mode), t.uri, "",
                        t.bundle.organization, t.bundle.environment, t.bundle.node)
      && Applied(s, Some(t)).environmentID == 0 && Applied(s, Some(t)).identityVersion == 0
    ensures Trim(r.mode) == "assigned" && !Blank(r.uri) ==>
      && Fetched(s, r).Some?
      && var f := Fetched(s, r).value;
      && TargetOf(f) == AnsweredTarget("assigned", r.uri, "", r.bundle.organization, r.bundle.environment,
                                       r.bundle.node)
      && f.environmentID == r.environmentID && f.identityVersion == r.identityVersion && f.floor >= r.sequence
    ensures Trim(r.mode) == "unassigned" ==>
      && Fetched(s, r).Some?
      && var f := Fetched(s, r).value;
      && TargetOf(f) == Target("unassigned", "", f.inline, NO_BUNDLE) && f.inline != ""
      && (r.desiredState != "" ==> f.inline == r.desiredState)
      && f.environmentID == 0 && f.identityVersion == 0 && f.floor == r.sequence
    ensures Fetched(s, r).Some? ==> Trim(r.mode) == "unassigned" || (Trim(r.mode) == "assigned" && !Blank(r.uri))
  {
    hide Trim;
    AssignedIsNotUnassigned();
  }

  /** How far the node has got, and its Google token, outlive an answer only if it stays
      with what it follows: the floor then never goes down, else it is the sequence
      answered; the token is kept exactly if not even the floor moves. */
  lemma WhatOutlivesTarget(s: State, t: TargetResponse)
    requires Trim(t.uri) != ""
    ensures
      var n := Applied(s, Some(t));
      var same := s.mode == n.mode && s.uri == n.uri && s.bundle == n.bundle;
      && n.floor == (if same && s.floor > t.sequence then s.floor else t.sequence)
      && n.googleToken == (if same && n.floor == s.floor then s.googleToken else "")
      && n.googleExpires == (if same && n.floor == s.floor then s.googleExpires else None)
  {
    hide Trim;
  }

  lemma WhatOutlivesAssignment(s: State, r: AssignmentResponse)
    requires Fetched(s, r).Some?
    ensures
      var n := Fetched(s, r).value;
      var same := s.mode == "assigned" && n.mode == "assigned" && s.environmentID == n.environmentID &&
                  s.identityVersion == n.identityVersion && s.bundle == n.bundle;
      var still := s.mode == n.mode && s.environmentID == n.environmentID && s.identityVersion == n.identityVersion &&
                   s.bundle == n.bundle && s.uri == n.uri && s.inline == n.inline && s.floor == n.floor;
      && n.floor == (if same && s.floor > r.sequence then s.floor else r.sequence)
      && n.googleToken == (if still then s.googleToken else "")
      && n.googleExpires == (if still then s.googleExpires else None)
  {
    hide Trim;
    AssignedIsNotUnassigned();
  }

  /** An answer without a target takes what a managed-bundle node follows, and nothing
      from any other. */
  lemma NoTargetIsFollowed(s: State, target: Option<TargetResponse>)
    requires target.None? || Trim(target.value.uri) == ""
    ensures
      if Trim(s.mode) == "managed_bundle" && Trim(s.uri) != "" then
        && TargetOf(Applied(s, target)) == Target("", "", "", NO_BUNDLE)
        && Applied(s, target).googleToken == "" && Applied(s, target).floor == s.floor
      else Applied(s, target) == s
  {
    hide Trim;
  }

  /** Whose node this is and what it identifies itself with. */
  datatype Account = Account(
    nodeName: string, nodeID: int, accessToken: string, accessExpires: Option<int>, refreshToken: string)

  function AccountOf(s: State): Account {
    Account(s.nodeName, s.nodeID, s.accessToken, s.accessExpires, s.refreshToken)
  }

  /** The account is that of the last answer, whatever its target. */
  lemma AnsweredAccount(s: State, nodeName: string, b: BootstrapResponse, r: RefreshResponse, now: int)
    ensures AccountOf(Bootstrapped(s, nodeName, b, now)) ==
            Account(nodeName, b.nodeID, b.accessToken, Some(now + b.expiresIn), b.refreshToken)
    ensures AccountOf(Refreshed(s, r, now)) ==
            Account(s.nodeName, s.nodeID, r.accessToken, Some(now + r.expiresIn),
                    if Trim(r.refreshToken) == "" then s.refreshToken else r.refreshToken)
  {
    hide Trim;
  }

  lemma PlainWords()
    ensures Trim(ASSIGNED) == ASSIGNED && Trim(MANAGED_BUNDLE) == MANAGED_BUNDLE
    ensures Trim("u") == "u" && Trim("v") == "v" && Trim("g") == "g" && Trim("a") == "a" && Trim("") == ""
  {
    hide Trim, IsSpace;
    VisibleAscii('a');
    VisibleAscii('d');
    VisibleAscii('e');
    VisibleAscii('g');
    VisibleAscii('m');
    VisibleAscii('u');
    VisibleAscii('v');
    TrimmedEnds(ASSIGNED);
    TrimmedEnds(MANAGED_BUNDLE);
    TrimmedEnds("u");
    TrimmedEnds("v");
    TrimmedEnds("g");
    TrimmedEnds("a");
    TrimmedEnds("");
  }

  /** A managed-bundle node with an access token that is valid until `expires`, and
      a Google token that is not valid. */
  function ManagedNode(expires: int): State {
    BLANK_STATE.(mode := MANAGED_BUNDLE, uri := "u", accessToken := "a", accessExpires := Some(expires),
                 refreshToken := "r", googleToken := "g")
  }

  /** A pass that ends with a Google token in the hands of an ineligible node.  The
      access token is valid when the pass begins and no longer when it comes to the
      Google token; the refresh answers without a target, and Google all the same. */
  lemma IneligibleHolder(nodeName: string, bootstrapToken: string, skew: int, expires: int, now: int)
    ensures
      var s := ManagedNode(expires);
      var via := Refreshed(s, RefreshResponse("a", "", 60, None), now);
      var t := via.(googleToken := "g", googleExpires := Some(expires));
      && Synced(nodeName, bootstrapToken, skew, s, Passage(true, s, s, via, true), t)
      && Accessed(nodeName, bootstrapToken, skew, s, via, true) && Googled(skew, s, via, t, true)
      && Eligible(s.mode) && !Eligible(t.mode) && t.googleToken != ""
  {
    hide Trim;
    PlainWords();
    BlankIsNotEligible();
    var s := ManagedNode(expires);
    assert TokenValid(expires - skew - 1, s.accessToken, s.accessExpires, skew);
    assert Accessed(nodeName, bootstrapToken, skew, s, Refreshed(s, RefreshResponse("a", "", 60, None), now), true);
  }

  /** A node assigned to environment 1 that has got to sequence 10. */
  const ASSIGNED_NODE := BLANK_STATE.(mode := ASSIGNED, environmentID := 1, identityVersion := 1, floor := 10,
                                      uri := "u", refreshToken := "r")

  /** A pass in which the floor drops.  The refresh answers with a target for another
      URI, and the control plane with the old assignment and a lower sequence. */
  lemma FloorDrops(nodeName: string, bootstrapToken: string, skew: int, now: int)
    ensures
      var target := TargetResponse(ASSIGNED, 10, "v", NO_BUNDLE);
      var accessed := Refreshed(ASSIGNED_NODE, RefreshResponse("a", "", 60, Some(target)), now);
      var response := AssignmentResponse(ASSIGNED, 1, 1, 3, "u", "", NO_BUNDLE);
      && Fetched(accessed, response).Some?
      && var t := Fetched(accessed, response).value;
      && Synced(nodeName, bootstrapToken, skew, ASSIGNED_NODE, Passage(true, accessed, t, t, true), t)
      && IdentityOf(t) == IdentityOf(ASSIGNED_NODE) && t.floor == 3
  {
    hide Trim;
    PlainWords();
    AssignedIsNotUnassigned();
    var target := TargetResponse(ASSIGNED, 10, "v", NO_BUNDLE);
    var accessed := Refreshed(ASSIGNED_NODE, RefreshResponse("a", "", 60, Some(target)), now);
    var t := Fetched(accessed, AssignmentResponse(ASSIGNED, 1, 1, 3, "u", "", NO_BUNDLE)).value;
    assert Accessed(nodeName, bootstrapToken, skew, ASSIGNED_NODE, accessed, true);
    assert Followed(true, accessed, t, true);
  }

  /** A late record at work: the fetch changes the identity version alone and starts
      the floor again at 3, and a record for the snapshot taken before raises it. */
  lemma LateRecordRaises(sequence: int)
    requires sequence > 3
    ensures
      var fetched := Fetched(ASSIGNED_NODE, AssignmentResponse(ASSIGNED, 1, 2, 3, "u", "", NO_BUNDLE));
      && fetched.Some? && fetched.value.identityVersion == 2 && fetched.value.floor == 3
      && Matches(SnapshotOf(ASSIGNED_NODE), fetched.value) && Max(fetched.value.floor, sequence) == sequence
  {
    hide Trim;
    PlainWords();
  }

  // ---- the manager ----

  datatype Call =
    | Sync
    | GoogleAccess
    | ControlPlaneAccess
    | Invalidate
    | Record(sequence: int)
    | RecordFor(snapshot: Snapshot, sequence: int)
    | Restart

  class Manager {
    const nodeName: string
    const bootstrapToken: string
    const skew: int
    const metadataEnabled: bool

    var state: State
    /** The state file. */
    var file: Option<State>

    ghost var floorFrom: FloorOrigin
    ghost var tokenFrom: TokenOrigin
    ghost var savedFloorFrom: FloorOrigin
    ghost var savedTokenFrom: TokenOrigin
    ghost var epoch: nat
    /** How often `OnAssignmentEligible` was called. */
    ghost var wakes: nat
    /** How often a request, reading or writing the file failed, or an answer was
        refused. */
    ghost var failures: nat
    /** How often the network was asked for something. */
    ghost var requests: nat

    /** What every call keeps.  The file, if any, was written by a manager. */
    ghost predicate Valid()
      reads this
    {
      && Sane(state, floorFrom, tokenFrom)
      && (file.Some? ==> Sane(file.value, savedFloorFrom, savedTokenFrom))
    }

    constructor (nodeName: string, bootstrapToken: string, skew: int, metadataEnabled: bool)
      requires !Blank(nodeName) && skew >= 0
      ensures Valid() && state == BLANK_STATE && file == None
    {
      this.nodeName, this.bootstrapToken, this.metadataEnabled := Trim(nodeName), bootstrapToken, metadataEnabled;
      this.skew := if skew == 0 then 120 else skew;
      state, file, epoch, wakes, failures, requests := BLANK_STATE, None, 0, 0, 0, 0;
      EmptyIsBlank();
    }

    // ---- the network, as far as the state is concerned ----

    method Now() returns (now: int)
    {
      now := *;
    }

    ghost method NoteFailure(failed: bool)
      modifies this`failures
      ensures failures == old(failures) + if failed then 1 else 0
    {
      if failed { failures := failures + 1; }
    }

    method RequestBootstrap() returns (r: Option<BootstrapResponse>)
      modifies this`failures, this`requests
      ensures failures == old(failures) + if r.None? then 1 else 0
      ensures requests == old(requests) + 1
    {
      r := *;
      requests := requests + 1;
      NoteFailure(r.None?);
    }

    method RequestRefresh() returns (r: Reply<RefreshResponse>)
      modifies this`failures, this`requests
      ensures failures == old(failures) + if r.Answer? then 0 else 1
      ensures requests == old(requests) + 1
    {
      r := *;
      requests := requests + 1;
      NoteFailure(!r.Answer?);
    }

    method RequestAssignment() returns (r: Option<AssignmentResponse>)
      modifies this`failures, this`requests
      ensures failures == old(failures) + if r.None? then 1 else 0
      ensures requests == old(requests) + 1
    {
      r := *;
      requests := requests + 1;
      NoteFailure(r.None?);
    }

    /** A token and its expiry, from the metadata server or at the end of the
        exchange; never blank. */
    method RequestGoogleToken() returns (r: Option<(string, int)>)
      modifies this`failures, this`requests
      ensures r.Some? ==> !Blank(r.value.0)
      ensures failures == old(failures) + if r.None? then 1 else 0
      ensures requests == old(requests) + 1
    {
      r := *;
      if r.Some? && Blank(r.value.0) { r := None; }
      requests := requests + 1;
      NoteFailure(r.None?);
    }

    // ---- the updates ----

    method ClearGoogleTokens()
      modifies this`state
      ensures state == ForgetGoogle(old(state))
    {
      state := state.(googleToken := "", googleExpires := None);
    }

    /** `notifyAssignmentEligibleLocked`. */
    method NotifyAssignmentEligible(previousMode: string)
      modifies this`wakes
      ensures wakes == old(wakes) + if !Eligible(previousMode) && Eligible(state.mode) then 1 else 0
    {
      if Eligible(previousMode) || !Eligible(state.mode) { return; }
      wakes := wakes + 1;
    }

    /** Notes, in the ghost state, that the identity may have changed. */
    ghost method NoteIdentity(before: State)
      modifies this`epoch
      ensures epoch == old(epoch) + if IdentityOf(state) == IdentityOf(before) then 0 else 1
    {
      if IdentityOf(state) != IdentityOf(before) { epoch := epoch + 1; }
    }

    method ApplyDesiredStateTarget(target: Option<TargetResponse>)
      requires Valid()
      modifies this`state, this`floorFrom, this`epoch, this`wakes
      ensures Valid() && state == Applied(old(state), target)
      ensures epoch == old(epoch) + if IdentityOf(state) == IdentityOf(old(state)) then 0 else 1
      ensures wakes == old(wakes) + if !Eligible(old(state).mode) && Eligible(state.mode) then 1 else 0
    {
      hide Trim, Blank, Sane, Eligible, IdentityOf, Applied, TargetBy;
      var before := state;
      ghost var from := floorFrom;
      if target.None? || Blank(target.value.uri) {
        if Managed(state) {
          state := state.(mode := "", uri := "", bundle := NO_BUNDLE, inline := "");
          ClearGoogleTokens();
        }
        NoteIdentity(before);
        AppliedDrops(before, target, floorFrom, tokenFrom);
        return;
      }
      TakeTarget(target.value);
      AppliedTakes(before, target.value, from, floorFrom, tokenFrom);
      if !SameTarget(before, state.mode, state.uri, state.bundle) || before.floor != state.floor {
        ClearGoogleTokens();
        NotifyAssignmentEligible(before.mode);
      }
      NoteIdentity(before);
    }

    method TakeTarget(t: TargetResponse)
      modifies this`state, this`floorFrom
      ensures state == TargetBy(old(state), t)
      ensures floorFrom == FloorOrigin(state.mode, state.bundle, state.floor) ||
              (floorFrom == old(floorFrom) && SameTarget(old(state), state.mode, state.uri, state.bundle) &&
               old(state).floor == state.floor)
    {
      hide Trim;
      var previous := state;
      var mode := Trim(t.mode);
      if mode == "" { mode := MANAGED_BUNDLE; }
      state := state.(mode := mode, environmentID := 0, identityVersion := 0, uri := Trim(t.uri),
                      bundle := TrimBundle(t.bundle), inline := "");
      if previous.mode != mode || previous.uri != state.uri || previous.bundle != state.bundle {
        state := state.(floor := t.sequence);
        floorFrom := FloorOrigin(mode, TrimBundle(t.bundle), t.sequence);
      } else if t.sequence > state.floor {
        state := state.(floor := t.sequence);
        floorFrom := FloorOrigin(mode, TrimBundle(t.bundle), t.sequence);
      }
    }

    method TakeAssigned(r: AssignmentResponse)
      modifies this`state, this`floorFrom
      ensures state == AssignedBy(old(state), r)
      ensures floorFrom == FloorOrigin(ASSIGNED, state.bundle, state.floor) ||
              (floorFrom == old(floorFrom) && old(state).mode == ASSIGNED && old(state).floor == state.floor &&
               old(state).bundle == state.bundle)
    {
      hide Trim;
      var previous := state;
      state := state.(mode := ASSIGNED, environmentID := r.environmentID, identityVersion := r.identityVersion);
      var bundle := TrimBundle(r.bundle);
      if previous.mode != ASSIGNED || previous.environmentID != r.environmentID ||
         previous.identityVersion != r.identityVersion || previous.bundle != bundle {
        state := state.(floor := r.sequence);
        floorFrom := FloorOrigin(ASSIGNED, TrimBundle(r.bundle), r.sequence);
      } else if r.sequence > state.floor {
        state := state.(floor := r.sequence);
        floorFrom := FloorOrigin(ASSIGNED, TrimBundle(r.bundle), r.sequence);
      }
      state := state.(uri := Trim(r.uri), inline := "", bundle := bundle);
    }

    method TakeUnassigned(r: AssignmentResponse)
      modifies this`state, this`floorFrom
      ensures state == UnassignedBy(old(state), r)
      ensures floorFrom == FloorOrigin(UNASSIGNED, NO_BUNDLE, r.sequence) ||
              (floorFrom == old(floorFrom) && old(state).mode == UNASSIGNED && old(state).floor == r.sequence &&
               old(state).inline == state.inline)
    {
      var previous := state;
      var inline := r.desiredState;
      if |inline| == 0 { inline := EMPTY_DESIRED_STATE; }
      state := state.(mode := UNASSIGNED, environmentID := 0, identityVersion := 0);
      if previous.mode != UNASSIGNED || r.sequence < state.floor || previous.inline != inline {
        state := state.(floor := r.sequence);
        floorFrom := FloorOrigin(UNASSIGNED, NO_BUNDLE, r.sequence);
      } else if r.sequence > state.floor {
        state := state.(floor := r.sequence);
        floorFrom := FloorOrigin(UNASSIGNED, NO_BUNDLE, r.sequence);
      }
      state := state.(uri := "", inline := inline, bundle := NO_BUNDLE);
    }

    method FetchAssignment() returns (ok: bool, ghost response: Option<AssignmentResponse>)
      requires Valid()
      modifies this`state, this`floorFrom, this`epoch, this`wakes, this`failures, this`requests
      ensures Valid()
      ensures ok <==> response.Some? && Fetched(old(state), response.value).Some?
      ensures state == if ok then Fetched(old(state), response.value).value else old(state)
      ensures epoch == old(epoch) + if IdentityOf(state) == IdentityOf(old(state)) then 0 else 1
      ensures wakes == old(wakes) + if !Eligible(old(state).mode) && Eligible(state.mode) then 1 else 0
      // a node that turns assigned is told so
      ensures old(state).mode in ["", UNASSIGNED] && state.mode == ASSIGNED ==> wakes == old(wakes) + 1
      ensures failures >= old(failures) && (!ok ==> failures > old(failures))
    {
      hide Trim, Blank, Sane, Eligible, IdentityOf, Fetched, AssignedBy, UnassignedBy, Assignment;
      var r := RequestAssignment();
      ok, response := false, r;
      if r.None? { return; }
      var previous := state;
      ghost var from := floorFrom;
      FetchedIs(previous, r.value);
      var mode := Trim(r.value.mode);
      if mode == ASSIGNED {
        if Blank(r.value.uri) {
          NoteFailure(true);
          return;
        }
        TakeAssigned(r.value);
        AssignedIsSane(previous, r.value, from, floorFrom, tokenFrom);
      } else if mode == UNASSIGNED {
        TakeUnassigned(r.value);
        UnassignedIsSane(previous, r.value, from, floorFrom, tokenFrom);
      } else {
        NoteFailure(true);
        return;
      }
      ok := true;
      PlainModes();
      SameAssignment(previous, state);
      if Assignment(previous) != Assignment(state) {
        ClearGoogleTokens();
        NotifyAssignmentEligible(previous.mode);
      }
      NoteIdentity(previous);
    }

    // ---- access tokens ----

    method Bootstrap() returns (ok: bool)
      requires Valid()
      modifies this`state, this`floorFrom, this`epoch, this`wakes, this`failures, this`requests
      ensures Valid() && Advanced(old(state), old(epoch), state, epoch)
      ensures if ok then exists r, now :: state == Bootstrapped(old(state), nodeName, r, now) else state == old(state)
      ensures failures >= old(failures) && (!ok ==> failures > old(failures)) && requests > old(requests)
    {
      hide Trim, Sane, IdentityOf, Applied, Advanced;
      Stays(state, epoch);
      var r := RequestBootstrap();
      if r.None? { return false; }
      var now := Now();
      ghost var before := state;
      state := state.(nodeName := nodeName, nodeID := r.value.nodeID, accessToken := r.value.accessToken,
                      refreshToken := r.value.refreshToken, accessExpires := Some(now + r.value.expiresIn));
      SameAccount(before, state, floorFrom, tokenFrom);
      ghost var moved := state;
      ApplyDesiredStateTarget(r.value.target);
      AppliedAdvances(before, moved, r.value.target, old(epoch), epoch);
      assert state == Bootstrapped(before, nodeName, r.value, now);
      return true;
    }

    method Refresh() returns (r: Reply<()>)
      requires Valid()
      modifies this`state, this`floorFrom, this`epoch, this`wakes, this`failures, this`requests
      ensures Valid() && Advanced(old(state), old(epoch), state, epoch)
      ensures if r.Answer? then exists response, now :: state == Refreshed(old(state), response, now)
        else state == old(state)
      ensures failures >= old(failures) && (!r.Answer? ==> failures > old(failures)) && requests > old(requests)
    {
      hide Trim, Sane, IdentityOf, Applied, Advanced;
      Stays(state, epoch);
      var reply := RequestRefresh();
      if reply.Unauthorized? { return Unauthorized; }
      if reply.Failed? { return Failed; }
      var response := reply.value;
      var now := Now();
      ghost var before := state;
      state := state.(accessToken := response.accessToken,
                      refreshToken := if Blank(response.refreshToken) then state.refreshToken
                        else response.refreshToken,
                      accessExpires := Some(now + response.expiresIn));
      SameAccount(before, state, floorFrom, tokenFrom);
      ghost var moved := state;
      ApplyDesiredStateTarget(response.target);
      AppliedAdvances(before, moved, response.target, old(epoch), epoch);
      assert state == Refreshed(before, response, now);
      return Answer(());
    }

    /** The control plane is asked exactly when there is no token at hand that outlives
        the margin. */
    method EnsureControlPlaneAccess() returns (ok: bool, ghost at: int)
      requires Valid()
      modifies this`state, this`floorFrom, this`epoch, this`wakes, this`failures, this`requests
      ensures Valid() && Advanced(old(state), old(epoch), state, epoch)
      ensures Accessed(nodeName, bootstrapToken, skew, old(state), state, ok)
      ensures failures >= old(failures) && (!ok ==> failures > old(failures))
      ensures requests >= old(requests)
      ensures requests == old(requests) <==>
        Trim(old(state).accessToken) != "" && old(state).accessExpires.Some? &&
        at + skew < old(state).accessExpires.value
      ensures requests == old(requests) ==> ok && state == old(state)
    {
      hide Trim, Sane, IdentityOf, Advanced, Bootstrapped, Refreshed, Blank;
      Stays(state, epoch);
      var now := Now();
      ok, at := true, now;
      ValidIs(now, state.accessToken, state.accessExpires, skew);
      if TokenValid(now, state.accessToken, state.accessExpires, skew) { return; }
      if state.refreshToken == "" {
        ok := Bootstrap();
        return;
      }
      var r := Refresh();
      ghost var middle, middleEpoch := state, epoch;
      if r.Unauthorized? && !Blank(bootstrapToken) {
        ok := Bootstrap();
        Joins(old(state), old(epoch), middle, middleEpoch, state, epoch);
        return;
      }
      ok := r.Answer?;
    }

    /** A token may be stored for a node that the access in this very call has just
        made ineligible, and in no other way. */
    method EnsureGoogleAccess() returns (ok: bool, ghost via: State, ghost at: int)
      requires Valid()
      modifies this`state, this`floorFrom, this`tokenFrom, this`epoch, this`wakes, this`failures, this`requests
      ensures Valid() && Advanced(old(state), old(epoch), state, epoch)
      ensures via == old(state) || Accessed(nodeName, bootstrapToken, skew, old(state), via, true)
      ensures Googled(skew, old(state), via, state, ok)
      ensures !Eligible(old(state).mode) ==> !ok && state == old(state)
      ensures ok ==> !Blank(state.googleToken) && (Eligible(state.mode) <==> Eligible(via.mode))
      ensures ok && !Eligible(state.mode) ==> epoch > old(epoch)
      // an assigned or managed-bundle node is only refused when something fails, any other always
      ensures failures >= old(failures)
      ensures !ok ==> failures > old(failures) || Trim(old(state).mode) !in [ASSIGNED, MANAGED_BUNDLE]
      ensures Trim(old(state).mode) !in [ASSIGNED, MANAGED_BUNDLE] ==> !ok && state == old(state)
      // somebody is asked exactly when such a node has no token that outlives the margin
      ensures requests >= old(requests)
      ensures requests == old(requests) <==>
        (|| Trim(old(state).mode) !in [ASSIGNED, MANAGED_BUNDLE]
         || (Trim(old(state).googleToken) != "" && old(state).googleExpires.Some? &&
             at + skew < old(state).googleExpires.value))
      ensures requests == old(requests) ==> state == old(state)
    {
      hide Trim, Blank, Sane, IdentityOf, Advanced, Eligible, Accessed, TokenValid;
      Stays(state, epoch);
      var now := Now();
      via, at := state, now;
      EligibleIs(state.mode);
      if !Eligible(state.mode) { return false, via, at; }
      ValidIs(now, state.googleToken, state.googleExpires, skew);
      if TokenValid(now, state.googleToken, state.googleExpires, skew) { return true, via, at; }
      if metadataEnabled {
        var token := RequestGoogleToken();
        if token.Some? {
          StoreGoogleToken(token.value.0, token.value.1);
          return true, via, at;
        }
      }
      var accessible;
      ghost var later;
      accessible, later := EnsureControlPlaneAccess();
      if !accessible {
        NoAccess(nodeName, bootstrapToken, skew, old(state), state);
        return false, via, at;
      }
      via := state;
      EligibleMoves(old(state), old(epoch), state, epoch);
      ghost var middleEpoch := epoch;
      var token := RequestGoogleToken();
      if token.None? { return false, via, at; }
      StoreGoogleToken(token.value.0, token.value.1);
      Joins(old(state), old(epoch), via, middleEpoch, state, epoch);
      return true, via, at;
    }

    method StoreGoogleToken(token: string, expires: int)
      requires Valid() && !Blank(token)
      modifies this`state, this`tokenFrom
      ensures Valid() && Advanced(old(state), epoch, state, epoch)
      ensures state == old(state).(googleToken := token, googleExpires := Some(expires))
    {
      hide Trim;
      state := state.(googleToken := token, googleExpires := Some(expires));
      tokenFrom := TokenOrigin(state.mode, state.uri, state.bundle, token);
    }

    // ---- persistence ----

    method SaveState() returns (ok: bool)
      requires Valid()
      modifies this`file, this`savedFloorFrom, this`savedTokenFrom, this`failures
      ensures Valid() && file == if ok then Some(state) else old(file)
      ensures failures == old(failures) + if ok then 0 else 1
    {
      ok := *;
      NoteFailure(!ok);
      if ok { file, savedFloorFrom, savedTokenFrom := Some(state), floorFrom, tokenFrom; }
    }

    /** Reading the file back starts a new epoch: it may be older than what a
        previous process held when a save had failed. */
    method LoadState() returns (ok: bool)
      requires Valid()
      modifies this`state, this`floorFrom, this`tokenFrom, this`epoch
      ensures Valid() && epoch > old(epoch)
      ensures state == if ok && file.Some? then file.value else old(state)
    {
      ok := *;
      epoch := epoch + 1;
      if ok && file.Some? { state, floorFrom, tokenFrom := file.value, savedFloorFrom, savedTokenFrom; }
    }

    // ---- entry points ----

    predicate CanOperateOffline()
      reads this
    {
      Offline(state)
    }

    method ClearInlineDesiredState()
      requires Valid()
      modifies this`state
      ensures Valid() && Advanced(old(state), epoch, state, epoch)
      ensures state == old(state).(inline := "")
    {
      hide Trim;
      state := state.(inline := "");
    }

    /** The part that `Initialize` and `Sync` share: bring the assignment up to
        date, or decide to carry on offline. */
    method FollowAssignment(accessible: bool) returns (ok: bool)
      requires Valid()
      modifies this`state, this`floorFrom, this`epoch, this`wakes, this`failures, this`requests
      ensures Valid() && Advanced(old(state), old(epoch), state, epoch)
      ensures Followed(accessible, old(state), state, ok)
      ensures failures >= old(failures) && (!ok ==> failures > old(failures))
      // a node that knows what to run carries on, and one that follows the control plane does know
      ensures Directed(old(state)) ==> ok
      ensures ok && (accessible || Directed(old(state))) ==> Directed(state)
    {
      hide Trim, Sane, IdentityOf, Advanced, Fetched;
      Stays(state, epoch);
      var online := accessible;
      if online {
        if !Managed(state) {
          ghost var before := state;
          var fetched, response := FetchAssignment();
          FetchedAdvances(before, fetched, response, state, old(epoch), epoch);
          if !fetched {
            if !CanOperateOffline() { return false; }
            online := false;
          }
        } else {
          ClearInlineDesiredState();
        }
      }
      ghost var middle, middleEpoch := state, epoch;
      Stays(state, epoch);
      if !online && Managed(state) {
        ClearInlineDesiredState();
      }
      Joins(old(state), old(epoch), middle, middleEpoch, state, epoch);
      if accessible || Directed(old(state)) { FollowDirects(accessible, old(state), state); }
      return true;
    }

    method Initialize() returns (ok: bool, ghost loaded: State, ghost passage: Passage)
      requires Valid()
      modifies this
      ensures Valid() && epoch > old(epoch)
      ensures ok ==> file == Some(state)
      ensures ok ==>
        var read := if old(file).Some? then old(file).value else old(state);
        && loaded == read.(nodeName := if read.nodeName == "" then nodeName else read.nodeName)
        && Started(nodeName, bootstrapToken, skew, loaded, passage, state)
      // a node that has started knows what to run
      ensures ok ==> Directed(state)
    {
      hide Trim, Sane, IdentityOf, Advanced, Managed, Accessed, Followed, Offline, Bootstrapped, Directed;
      loaded, passage := state, Passage(false, state, state, state, false);
      ok := LoadState();
      if !ok { return; }
      if state.nodeName == "" {
        ghost var before := state;
        state := state.(nodeName := nodeName);
        SameAccount(before, state, floorFrom, tokenFrom);
      }
      loaded := state;
      ghost var first := epoch;
      var online := true;
      if state.refreshToken == "" {
        var booted := false;
        if !Blank(bootstrapToken) { booted := Bootstrap(); }
        EpochGrows(loaded, first, state, epoch) by { Stays(loaded, first); }
        if !booted {
          if !CanOperateOffline() { return false, loaded, passage; }
          online := false;
        }
      }
      passage := Passage(online, state, state, state, online);
      ghost var state1, epoch1 := state, epoch;
      ghost var at;
      if online {
        online, at := EnsureControlPlaneAccess();
        EpochGrows(state1, epoch1, state, epoch);
        passage := passage.(online := online, accessed := state);
        if !online && !CanOperateOffline() { return false, loaded, passage; }
      }
      ghost var state2, epoch2 := state, epoch;
      OfflineIs(state);
      ok := FollowAssignment(online);
      EpochGrows(state2, epoch2, state, epoch);
      if !ok { return; }
      FollowedOk(online, state2, state, ok);
      ok := SaveState();
    }

    /** The end of `Sync`. */
    method DropOrRenew() returns (got: bool, ghost via: State)
      requires Valid()
      modifies this`state, this`floorFrom, this`tokenFrom, this`epoch, this`wakes, this`failures, this`requests
      ensures Valid() && Advanced(old(state), old(epoch), state, epoch)
      ensures Renewed(nodeName, bootstrapToken, skew, old(state), via, state, got)
      ensures failures >= old(failures) && (!got ==> failures > old(failures))
      ensures !Eligible(state.mode) ==> state.googleToken == "" || epoch > old(epoch)
    {
      hide Trim, Blank, Sane, IdentityOf, Advanced, Eligible, Accessed, Googled, ForgetGoogle;
      Stays(state, epoch);
      got, via := true, state;
      EligibleIs(state.mode);
      if !Eligible(state.mode) {
        ForgettingAdvances(state, floorFrom, tokenFrom, epoch);
        ClearGoogleTokens();
        Forgotten(old(state));
      } else if !Blank(state.googleToken) {
        ghost var at;
        got, via, at := EnsureGoogleAccess();
        EligibleMoves(old(state), old(epoch), state, epoch);
      }
    }

    /** A pass of the background loop. */
    method Sync() returns (ok: bool, ghost passage: Passage)
      requires Valid()
      modifies this
      ensures Valid() && Advanced(old(state), old(epoch), state, epoch)
      ensures ok ==> Synced(nodeName, bootstrapToken, skew, old(state), passage, state)
      ensures FloorKept(old(state), passage, state)
      ensures ok ==> file == Some(state)
      ensures ok ==> (state.googleToken != "" && !Eligible(state.mode) <==> LostOnTheWay(passage))
      ensures ok && !Eligible(old(state).mode) ==> state.googleToken == ""
      ensures ok && !Eligible(state.mode) ==> state.googleToken == "" || epoch > old(epoch)
      // without a failure it succeeds, and exactly an assigned or managed-bundle node keeps its token
      ensures !ok ==> failures > old(failures)
      ensures failures == old(failures) ==>
        (!Blank(state.googleToken) <==>
         Trim(passage.followed.mode) in [ASSIGNED, MANAGED_BUNDLE] && !Blank(passage.followed.googleToken))
      ensures ok ==> Directed(state) || LostOnTheWay(passage)
    {
      hide Trim, Blank, Sane, IdentityOf, Advanced, Managed, Eligible, Accessed, Followed, Renewed, Offline,
           FloorKept, LostOnTheWay, Directed, Ran;
      Stays(state, epoch);
      var online;
      ghost var at;
      online, at := EnsureControlPlaneAccess();
      passage := Passage(online, state, state, state, true);
      ghost var epoch1 := epoch;
      RanSoFar(nodeName, bootstrapToken, skew, old(state), passage);
      SyncFloor(nodeName, bootstrapToken, skew, old(state), passage, state);
      if !online && !CanOperateOffline() { return false, passage; }
      ok := FollowAssignment(online);
      passage := passage.(followed := state, via := state);
      Joins(old(state), old(epoch), passage.accessed, epoch1, state, epoch);
      if !ok {
        NotFollowed(online, passage.accessed, state);
        return;
      }
      FollowedOk(online, passage.accessed, state, ok);
      ghost var epoch2 := epoch;
      EpochGrows(old(state), old(epoch), state, epoch);
      var got;
      ghost var via;
      got, via := DropOrRenew();
      passage := passage.(got := got, via := via);
      Joins(old(state), old(epoch), passage.followed, epoch2, state, epoch);
      RanThrough(nodeName, bootstrapToken, skew, old(state), passage, state);
      SyncFloor(nodeName, bootstrapToken, skew, old(state), passage, state);
      if !got && !CanOperateOffline() { return false, passage; }
      SyncHolder(nodeName, bootstrapToken, skew, old(state), passage, state);
      SyncKeeps(nodeName, bootstrapToken, skew, old(state), passage, state);
      SyncDirects(nodeName, bootstrapToken, skew, old(state), passage, state);
      ok := SaveState();
    }

    method GoogleAccess() returns (token: Option<string>)
      requires Valid()
      modifies this
      ensures Trim(old(state).mode) !in [ASSIGNED, MANAGED_BUNDLE] ==> token == None
      ensures token == None ==> failures > old(failures) || Trim(old(state).mode) !in [ASSIGNED, MANAGED_BUNDLE]
      ensures Valid() && Advanced(old(state), old(epoch), state, epoch)
      ensures token.Some? ==> token.value == state.googleToken && !Blank(token.value) && file == Some(state)
      ensures !Eligible(old(state).mode) ==> token == None
    {
      hide Trim, Sane, IdentityOf, Advanced, Eligible;
      var ok;
      ghost var via;
      ghost var at;
      ok, via, at := EnsureGoogleAccess();
      if !ok { return None; }
      ok := SaveState();
      return if ok then Some(state.googleToken) else None;
    }

    method ControlPlaneAccess() returns (token: Option<string>)
      requires Valid()
      modifies this
      ensures token == None ==> failures > old(failures)
      ensures Valid() && Advanced(old(state), old(epoch), state, epoch)
      ensures token.Some? ==> token.value == state.accessToken && file == Some(state)
    {
      hide Trim, Sane, IdentityOf, Advanced;
      var ok;
      ghost var at;
      ok, at := EnsureControlPlaneAccess();
      if !ok { return None; }
      ok := SaveState();
      return if ok then Some(state.accessToken) else None;
    }

    method InvalidateGoogleAccess() returns (ok: bool)
      requires Valid()
      modifies this
      ensures Valid() && Advanced(old(state), old(epoch), state, epoch)
      ensures state == ForgetGoogle(old(state)) && epoch == old(epoch)
    {
      hide Trim, Sane, IdentityOf, Advanced;
      ForgettingAdvances(state, floorFrom, tokenFrom, epoch);
      ClearGoogleTokens();
      ok := SaveState();
    }

    /** The floor only ever goes up here. */
    method RecordDesiredStateSequenceFloor(sequence: int) returns (ok: bool)
      requires Valid()
      modifies this
      ensures Valid() && Advanced(old(state), old(epoch), state, epoch)
      ensures state == old(state).(floor := Max(old(state).floor, sequence)) && epoch == old(epoch)
    {
      hide Trim;
      if sequence <= state.floor { return true; }
      state := state.(floor := sequence);
      floorFrom := FloorOrigin(state.mode, state.bundle, sequence);
      ok := SaveState();
    }

    /** A record for a snapshot that is no longer what the node follows changes
        nothing, however high it is. */
    method RecordDesiredStateSequenceFloorForSnapshot(snapshot: Snapshot, sequence: int) returns (ok: bool)
      requires Valid()
      modifies this
      ensures Valid() && Advanced(old(state), old(epoch), state, epoch)
      ensures state == (if Matches(snapshot, old(state)) then old(state).(floor := Max(old(state).floor, sequence))
                        else old(state))
      ensures epoch == old(epoch)
      ensures state.floor > old(state).floor ==>
              floorFrom == FloorOrigin(snapshot.target.mode, snapshot.target.bundle, sequence) &&
              snapshot.nodeID == state.nodeID && snapshot.environmentID == state.environmentID &&
              snapshot.target == TargetOf(state)
      ensures !Matches(snapshot, old(state)) ==> file == old(file)
    {
      hide Trim;
      if !Matches(snapshot, state) { return true; }
      if sequence <= state.floor { return true; }
      state := state.(floor := sequence);
      floorFrom := FloorOrigin(state.mode, state.bundle, sequence);
      ok := SaveState();
    }

    /** A process that starts knows nothing. */
    method StartProcess()
      requires Valid()
      modifies this`state, this`floorFrom, this`tokenFrom, this`epoch
      ensures Valid() && state == BLANK_STATE && epoch > old(epoch)
    {
      state, epoch := BLANK_STATE, epoch + 1;
      floorFrom, tokenFrom := FloorOrigin("", NO_BUNDLE, 0), TokenOrigin("", "", NO_BUNDLE, "");
    }

    /** Any run: every reachable state is valid, and as long as the identity has
        not changed in between, the floor has not gone down. */
    method Drive(calls: seq<Call>)
      requires Valid()
      modifies this
      ensures Valid() && Advanced(old(state), old(epoch), state, epoch)
    {
      hide Trim, Sane, IdentityOf, Advanced, Eligible, Managed, ForgetGoogle, Matches;
      Stays(state, epoch);
      for i := 0 to |calls|
        invariant Valid() && Advanced(old(state), old(epoch), state, epoch)
      {
        ghost var before, epoch' := state, epoch;
        var ok: bool, token: Option<string>;
        match calls[i] {
          case Sync =>
            ghost var passage;
            ok, passage := this.Sync();
          case GoogleAccess => token := this.GoogleAccess();
          case ControlPlaneAccess => token := this.ControlPlaneAccess();
          case Invalidate => ok := InvalidateGoogleAccess();
          case Record(sequence) => ok := RecordDesiredStateSequenceFloor(sequence);
          case RecordFor(snapshot, sequence) => ok := RecordDesiredStateSequenceFloorForSnapshot(snapshot, sequence);
          case Restart =>
            ghost var loaded, passage;
            StartProcess();
            ok, loaded, passage := Initialize();
            NewEpoch(before, epoch', state, epoch);
        }
        Joins(old(state), old(epoch), before, epoch', state, epoch);
      }
    }
  }

  lemma FetchedIs(s: State, r: AssignmentResponse)
    ensures Fetched(s, r) ==
            if (Trim(r.mode) == ASSIGNED && !Blank(r.uri)) || Trim(r.mode) == UNASSIGNED then
              var next := if Trim(r.mode) == ASSIGNED then AssignedBy(s, r) else UnassignedBy(s, r);
              Some(if Assignment(next) == Assignment(s) then next else ForgetGoogle(next))
            else None
  {
    hide Trim, Blank, AssignedBy, UnassignedBy, Assignment;
  }

  lemma SameAssignment(a: State, b: State)
    ensures Assignment(a) == Assignment(b) ==> a.mode == b.mode && IdentityOf(a) == IdentityOf(b)
  {
  }

  lemma AssignedIsSane(s: State, r: AssignmentResponse, from: FloorOrigin, from': FloorOrigin, tokenFrom: TokenOrigin)
    requires Sane(s, from, tokenFrom)
    requires
      var next := AssignedBy(s, r);
      from' == FloorOrigin(ASSIGNED, next.bundle, next.floor) ||
      (from' == from && s.mode == ASSIGNED && s.floor == next.floor && s.bundle == next.bundle)
    ensures Assignment(AssignedBy(s, r)) == Assignment(s) ==> Sane(AssignedBy(s, r), from', tokenFrom)
    ensures Sane(ForgetGoogle(AssignedBy(s, r)), from', tokenFrom)
  {
    hide Trim;
    PlainModes();
    TidyAnswer("", r.uri, r.bundle);
    AssignedIsNotUnassigned();
  }

  lemma UnassignedIsSane(s: State, r: AssignmentResponse, from: FloorOrigin, from': FloorOrigin, tokenFrom: TokenOrigin)
    requires Sane(s, from, tokenFrom)
    requires from' == FloorOrigin(UNASSIGNED, NO_BUNDLE, r.sequence) ||
             (from' == from && s.mode == UNASSIGNED && s.floor == r.sequence && s.inline == UnassignedBy(s, r).inline)
    ensures Assignment(UnassignedBy(s, r)) == Assignment(s) ==> Sane(UnassignedBy(s, r), from', tokenFrom)
    ensures Sane(ForgetGoogle(UnassignedBy(s, r)), from', tokenFrom)
  {
    hide Trim;
    PlainModes();
  }

  lemma AppliedDrops(s: State, target: Option<TargetResponse>, floorFrom: FloorOrigin, tokenFrom: TokenOrigin)
    requires Sane(s, floorFrom, tokenFrom) && (target.None? || Blank(target.value.uri))
    ensures Applied(s, target) ==
            if Managed(s) then ForgetGoogle(s.(mode := "", uri := "", bundle := NO_BUNDLE, inline := "")) else s
    ensures Sane(Applied(s, target), floorFrom, tokenFrom)
    ensures Eligible(Applied(s, target).mode) ==> Eligible(s.mode)
  {
    hide Trim;
    PlainModes();
    BlankIsNotEligible();
  }

  lemma AppliedTakes(s: State, t: TargetResponse, from: FloorOrigin, from': FloorOrigin, tokenFrom: TokenOrigin)
    requires Sane(s, from, tokenFrom) && !Blank(t.uri)
    requires
      var next := TargetBy(s, t);
      from' == FloorOrigin(next.mode, next.bundle, next.floor) ||
      (from' == from && SameTarget(s, next.mode, next.uri, next.bundle) && s.floor == next.floor)
    ensures
      var next := TargetBy(s, t);
      Applied(s, Some(t)) == if SameTarget(s, next.mode, next.uri, next.bundle) && next.floor == s.floor then next
      else ForgetGoogle(next)
    ensures Sane(Applied(s, Some(t)), from', tokenFrom)
  {
    hide Trim;
    PlainModes();
    TidyAnswer(t.mode, t.uri, t.bundle);
  }

  lemma BlankIsNotEligible()
    ensures !Eligible("")
  {
  }

  // ---- moving on ----

  lemma NoAccess(nodeName: string, bootstrapToken: string, skew: int, s: State, t: State)
    requires Accessed(nodeName, bootstrapToken, skew, s, t, false)
    ensures t == s
  {
  }

  lemma FollowedOk(accessible: bool, s: State, t: State, ok: bool)
    requires Followed(accessible, s, t, ok) && ok
    ensures Followed(accessible, s, t, true)
  {
  }

  lemma RanSoFar(nodeName: string, bootstrapToken: string, skew: int, s: State, p: Passage)
    requires Accessed(nodeName, bootstrapToken, skew, s, p.accessed, p.online) && p.followed == p.accessed
    ensures Ran(nodeName, bootstrapToken, skew, s, p, p.accessed)
  {
    hide Accessed, Followed;
  }

  lemma RanThrough(nodeName: string, bootstrapToken: string, skew: int, s: State, p: Passage, t: State)
    requires Accessed(nodeName, bootstrapToken, skew, s, p.accessed, p.online)
    requires Followed(p.online, p.accessed, p.followed, true)
    requires Renewed(nodeName, bootstrapToken, skew, p.followed, p.via, t, p.got)
    ensures Ran(nodeName, bootstrapToken, skew, s, p, t)
  {
    hide Accessed, Followed, Googled, Trim, Eligible;
  }

  lemma NotFollowed(accessible: bool, s: State, t: State)
    requires Followed(accessible, s, t, false)
    ensures t == s
  {
  }

  lemma Forgotten(s: State)
    ensures ForgetGoogle(s).googleToken == "" && ForgetGoogle(s).mode == s.mode
  {
  }

  lemma Stays(s: State, epoch: nat)
    ensures Advanced(s, epoch, s, epoch)
  {
  }

  lemma Joins(a: State, epochA: nat, b: State, epochB: nat, c: State, epochC: nat)
    requires Advanced(a, epochA, b, epochB) && Advanced(b, epochB, c, epochC)
    ensures Advanced(a, epochA, c, epochC)
  {
  }

  lemma EpochGrows(a: State, epochA: nat, b: State, epochB: nat)
    requires Advanced(a, epochA, b, epochB)
    ensures epochA <= epochB
  {
  }

  lemma NewEpoch(a: State, epochA: nat, b: State, epochB: nat)
    requires epochA < epochB
    ensures Advanced(a, epochA, b, epochB)
  {
  }

  lemma EligibleMoves(a: State, epochA: nat, b: State, epochB: nat)
    requires Advanced(a, epochA, b, epochB)
    ensures Eligible(a.mode) && !Eligible(b.mode) ==> epochA < epochB
  {
    hide Eligible;
  }

  /** The control-plane account is no part of what the invariants speak of. */
  lemma SameAccount(a: State, b: State, floorFrom: FloorOrigin, tokenFrom: TokenOrigin)
    requires Sane(a, floorFrom, tokenFrom)
    requires b == a.(nodeName := b.nodeName, nodeID := b.nodeID, accessToken := b.accessToken,
                     accessExpires := b.accessExpires,
                     refreshToken := b.refreshToken)
    ensures Sane(b, floorFrom, tokenFrom) && IdentityOf(a) == IdentityOf(b) && a.floor == b.floor
  {
  }

  lemma AppliedAdvances(s: State, moved: State, target: Option<TargetResponse>, epoch: nat, epoch': nat)
    requires IdentityOf(moved) == IdentityOf(s) && moved.floor == s.floor
    requires epoch' == epoch + if IdentityOf(Applied(moved, target)) == IdentityOf(moved) then 0 else 1
    ensures Advanced(s, epoch, Applied(moved, target), epoch')
  {
    hide Trim, Applied;
    if IdentityOf(Applied(moved, target)) == IdentityOf(moved) { AppliedKeepsFloor(moved, target); }
  }

  lemma FetchedAdvances(s: State, ok: bool, r: Option<AssignmentResponse>, next: State, epoch: nat, epoch': nat)
    requires ok <==> r.Some? && Fetched(s, r.value).Some?
    requires next == if ok then Fetched(s, r.value).value else s
    requires epoch' == epoch + if IdentityOf(next) == IdentityOf(s) then 0 else 1
    ensures Advanced(s, epoch, next, epoch')
  {
    hide Trim, Fetched;
    if ok && IdentityOf(next) == IdentityOf(s) && s.mode != UNASSIGNED { FetchedKeepsFloor(s, r.value); }
  }

  lemma ForgettingAdvances(s: State, floorFrom: FloorOrigin, tokenFrom: TokenOrigin, epoch: nat)
    requires Sane(s, floorFrom, tokenFrom)
    ensures Sane(ForgetGoogle(s), floorFrom, tokenFrom) && Advanced(s, epoch, ForgetGoogle(s), epoch)
  {
  }
}
