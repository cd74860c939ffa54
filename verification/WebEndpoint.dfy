/** Where the endpoints of a web service lead while one of its containers takes
    over from another: which entries of the endpoint table a run may change, and
    exactly when the container they lead to is still there afterwards. */
module WebEndpoints {
  import opened EndpointTables
  import opened Hosts

  /** The run has told Envoy to send traffic elsewhere. */
  ghost predicate Repoints(seg: seq<Event>) {
    exists e <- seg :: e.Point?
  }

  /** The update at position `i` failed, or the route check right after it did. */
  ghost predicate FailsAt(seg: seq<Event>, i: int) {
    && 0 <= i < |seg| && seg[i].Point?
    && (!seg[i].ok || (i + 1 < |seg| && seg[i + 1] == RouteCheck(false)))
  }

  ghost predicate GoneAt(seg: seq<Event>, name: string, j: int) {
    0 <= j < |seg| && seg[j].Remove? && seg[j].name == name && seg[j].gone
  }

  /** Traffic was pointed at the container, that failed, and the container was
      taken away all the same. */
  ghost predicate Dangles(seg: seq<Event>, name: string) {
    exists i, j :: i < j && FailsAt(seg, i) && GoneAt(seg, name, j)
  }

  /** The table after an update that leads `cluster` to container `name`. */
  ghost predicate Repointed(before: map<string, Endpoint>, after: map<string, Endpoint>, cluster: string,
                            defaultCluster: string, referenced: set<string>, name: string) {
    exists address, ok :: Points(before, cluster, defaultCluster, referenced, Endpoint(address, name), ok, after)
  }

  /** What a cutover does to the table, whether it succeeds or not. */
  ghost predicate TableAfter(seg: seq<Event>, name: string, cluster: string, defaultCluster: string,
                             referenced: set<string>, before: map<string, Endpoint>, after: map<string, Endpoint>) {
    if Repoints(seg) then Repointed(before, after, cluster, defaultCluster, referenced, name) else after == before
  }

  /** What one run of the web path does to the table.  A run that never points
      traffic elsewhere adds and changes no entry.  One that does leaves the
      default cluster, and the service's own cluster if there is an entry, leading
      to container `name`, and changes no other entry; and the container they lead
      to is there afterwards if and only if the run does not dangle. */
  ghost predicate EndpointOutcome(seg: seq<Event>, name: string, cluster: string, defaultCluster: string,
                                  before: map<string, Endpoint>, after: map<string, Endpoint>,
                                  containers: map<string, Container>) {
    if Repoints(seg) then
      && defaultCluster in after
      && (forall c <- after :: if Moved(c, cluster, defaultCluster) then after[c].container == name
                               else c in before && after[c] == before[c])
      && (forall c <- after :: Moved(c, cluster, defaultCluster) ==>
            (after[c].container in containers <==> !Dangles(seg, name)))
    else
      Within(after, before)
  }

  /** The clusters whose entries an update for `cluster` writes. */
  predicate Moved(c: string, cluster: string, defaultCluster: string) {
    c == defaultCluster || c == ClusterKey(cluster, defaultCluster)
  }

  lemma RepointedEntries(before: map<string, Endpoint>, after: map<string, Endpoint>, cluster: string,
                         defaultCluster: string, referenced: set<string>, name: string)
    requires Repointed(before, after, cluster, defaultCluster, referenced, name)
    ensures defaultCluster in after
    ensures forall c <- after :: if Moved(c, cluster, defaultCluster) then after[c].container == name
                                 else c in before && after[c] == before[c]
    ensures ClusterKey(cluster, defaultCluster) in referenced ==> ClusterKey(cluster, defaultCluster) in after
    ensures forall c <- before :: c in referenced ==> c in after
  {
    hide ClusterKey;
  }

  lemma NeverPointed(seg: seq<Event>)
    ensures !Repoints(seg) ==> EndsFailing(seg)
  {
  }

  /** A run that ends by pointing traffic elsewhere, and at most one check after it. */
  lemma PointedAtEnd(before: seq<Event>, point: Event, check: seq<Event>)
    requires point.Point? && (check == [] || check == [RouteCheck(true)] || check == [RouteCheck(false)])
    ensures Repoints(before + [point] + check)
    ensures !point.ok || check == [RouteCheck(false)] ==> EndsFailing(before + [point] + check)
    ensures before + [point] + [] == before + [point]
  {
    var seg := before + [point] + check;
    assert seg[|before|] == point && seg[|before|] in seg;
    assert before + [point] + [] == before + [point];
    if !point.ok || check == [RouteCheck(false)] { assert FailsAt(seg, |before|); }
  }

  lemma LedTo(before: map<string, Endpoint>, cluster: string, defaultCluster: string, referenced: set<string>,
              address: string, name: string, ok: bool, after: map<string, Endpoint>)
    requires Points(before, cluster, defaultCluster, referenced, Endpoint(address, name), ok, after)
    ensures Repointed(before, after, cluster, defaultCluster, referenced, name)
  {
    hide Points;
  }

  /** A further snapshot changes nothing. */
  lemma SettledTable(before: map<string, Endpoint>, cluster: string, defaultCluster: string, referenced: set<string>,
                     endpoint: Endpoint, pointed: map<string, Endpoint>, after: map<string, Endpoint>)
    requires Points(before, cluster, defaultCluster, referenced, endpoint, true, pointed)
    requires after == pointed || after == Pruned(pointed, defaultCluster, referenced)
    ensures after == pointed
  {
    hide Pruned, Updated;
    PrunedTwice(Updated(before, cluster, defaultCluster, endpoint), defaultCluster, referenced);
  }

  lemma RepointsAppend(a: seq<Event>, b: seq<Event>)
    ensures Repoints(a + b) <==> Repoints(a) || Repoints(b)
  {
    forall e ensures e in a + b <==> e in a || e in b { }
    if Repoints(a) { var e :| e in a && e.Point?; assert e in a + b; }
    if Repoints(b) { var e :| e in b && e.Point?; assert e in a + b; }
  }

  /** Without a removal of its container a run does not dangle. */
  lemma NothingGone(seg: seq<Event>, name: string)
    requires forall e <- seg :: e.Remove? ==> e.name != name
    ensures !Dangles(seg, name)
  {
    forall j ensures !GoneAt(seg, name, j) {
      if 0 <= j < |seg| { assert seg[j] in seg; }
    }
  }

  /** A cutover that failed after it had pointed traffic at the container ends with
      the failure. */
  ghost predicate EndsFailing(cut: seq<Event>) {
    Repoints(cut) ==>
      FailsAt(cut, |cut| - 1) || FailsAt(cut, |cut| - 2)
  }

  /** A failed cutover and the tear-down after it: it dangles exactly when the
      container is gone in the end. */
  lemma TornDownDangles(create: seq<Event>, cut: seq<Event>, down: seq<Event>, name: string)
    requires Quiet(create + cut) || (forall e <- create + cut :: !e.Remove?)
    requires EndsFailing(cut) && Repoints(cut)
    requires |down| == 2 && down[0].Stop? && down[1].Remove? && down[1].name == name
    ensures Dangles(create + cut + down, name) <==> down[1].gone
  {
    var up := create + cut;
    var seg := up + down;
    assert forall i :: 0 <= i < |up| ==> up[i] in up && seg[i] == up[i];
    assert seg[|up|] == down[0] && seg[|up| + 1] == down[1];
    var i := if FailsAt(cut, |cut| - 1) then |cut| - 1 else |cut| - 2;
    assert cut[i] == seg[|create| + i];
    assert i + 1 < |cut| ==> cut[i + 1] == seg[|create| + i + 1];
    assert FailsAt(seg, |create| + i);
    forall j | GoneAt(seg, name, j) ensures j == |up| + 1 { }
    if down[1].gone { assert GoneAt(seg, name, |up| + 1); }
  }

  /** What the web path makes of a cutover, when the container is not removed. */
  lemma StandingOutcome(up: seq<Event>, drained: seq<Event>, name: string, cluster: string, defaultCluster: string,
                        referenced: set<string>, before: map<string, Endpoint>, after: map<string, Endpoint>,
                        containers: map<string, Container>)
    requires TableAfter(up, name, cluster, defaultCluster, referenced, before, after)
    requires forall e <- up :: !e.Remove?
    requires forall e <- drained :: Drains(e) && e.name != name
    requires name in containers
    ensures EndpointOutcome(up + drained, name, cluster, defaultCluster, before, after, containers)
  {
    hide Repointed, Dangles, Moved;
    RepointsAppend(up, drained);
    assert forall e <- up + drained :: e in up || e in drained;
    NothingGone(up + drained, name);
    if Repoints(up) { RepointedEntries(before, after, cluster, defaultCluster, referenced, name); }
  }

  /** ... and when it was torn down after a failure. */
  lemma FailedOutcome(create: seq<Event>, cut: seq<Event>, down: seq<Event>, name: string, cluster: string,
                      defaultCluster: string, referenced: set<string>, before: map<string, Endpoint>,
                      after: map<string, Endpoint>, containers: map<string, Container>)
    requires TableAfter(cut, name, cluster, defaultCluster, referenced, before, after)
    requires EndsFailing(cut) && (forall e <- create :: !e.Remove? && !e.Point?) && Quiet(cut)
    requires |down| == 2 && down[0].Stop? && down[1].Remove? && down[1].name == name
    requires down[1].gone <==> name !in containers
    ensures EndpointOutcome(create + cut + down, name, cluster, defaultCluster, before, after, containers)
  {
    hide Repointed, Dangles, Moved;
    RepointsAppend(create, cut);
    RepointsAppend(create + cut, down);
    assert forall e <- down :: e == down[0] || e == down[1];
    if Repoints(cut) {
      assert forall e <- create + cut :: e in create || e in cut;
      TornDownDangles(create, cut, down, name);
      RepointedEntries(before, after, cluster, defaultCluster, referenced, name);
    }
  }

  /** Entries that were forgotten before the run do not matter. */
  lemma OutcomeFromLess(seg: seq<Event>, name: string, cluster: string, defaultCluster: string,
                        before: map<string, Endpoint>, middle: map<string, Endpoint>, after: map<string, Endpoint>,
                        containers: map<string, Container>)
    requires EndpointOutcome(seg, name, cluster, defaultCluster, middle, after, containers) && Within(middle, before)
    ensures EndpointOutcome(seg, name, cluster, defaultCluster, before, after, containers)
  {
    hide Moved, Dangles, Repoints;
  }

  // ---- a run that dangles ----

  /** The failing run.  A new container comes up and answers its probe, traffic is
      pointed at it, and then either Envoy refuses the update or the route check
      fails; so the container is taken away again.  Every call does what it may do,
      the old containers are all untouched, and the default cluster leads to a
      container that is not there. */
  lemma DanglingRun(c: Container, address: string, cluster: string, defaultCluster: string, referenced: set<string>,
                    before: map<string, Container>, table: map<string, Endpoint>, refused: bool)
    requires c.running && c.name !in before
    ensures
      var update := Updated(table, cluster, defaultCluster, Endpoint(address, c.name));
      var after := Pruned(update, defaultCluster, referenced);
      var created := before[c.name := c];
      var stopped := before[c.name := c.(running := false)];
      var seg := [Create(c.name, true), Inspect(c.name, address), Probe(address, true),
                  Point(cluster, address, !refused)] +
                 (if refused then [] else [RouteCheck(false)]) +
                 [Event.Stop(c.name, true), Event.Remove(c.name, true, true)];
      && Creates(before, c, true, created)
      && Points(table, cluster, defaultCluster, referenced, Endpoint(address, c.name), !refused, after)
      && Stops(created, c.name, true, stopped)
      && Removes(stopped, c.name, true, true, before)
      && Dangles(seg, c.name)
      && defaultCluster in after && after[defaultCluster].container !in before
  {
    var seg := [Create(c.name, true), Inspect(c.name, address), Probe(address, true),
                Point(cluster, address, !refused)] +
               (if refused then [] else [RouteCheck(false)]) +
               [Event.Stop(c.name, true), Event.Remove(c.name, true, true)];
    assert FailsAt(seg, 3) && GoneAt(seg, c.name, |seg| - 1);
    assert before[c.name := c.(running := false)] - {c.name} == before;
  }
}
