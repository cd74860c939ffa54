/** The endpoint table that Envoy is served from: one endpoint per cluster, with a
    default cluster that follows every update.  Making a snapshot forgets the
    clusters that the last ingress does not reference. */
module EndpointTables {
  import opened Text

  /** The cluster that an update for `cluster` is filed under. */
  function ClusterKey(cluster: string, defaultCluster: string): string {
    if Blank(cluster) then defaultCluster else cluster
  }

  /** The table after an update, before any snapshot. */
  function Updated<T>(table: map<string, T>, cluster: string, defaultCluster: string, endpoint: T): map<string, T> {
    table[ClusterKey(cluster, defaultCluster) := endpoint][defaultCluster := endpoint]
  }

  /** What a snapshot keeps of the table. */
  function Pruned<T>(table: map<string, T>, defaultCluster: string, referenced: set<string>): map<string, T> {
    map c <- table | c == defaultCluster || c in referenced :: table[c]
  }

  lemma PrunedTwice<T>(table: map<string, T>, defaultCluster: string, referenced: set<string>)
    ensures Pruned(Pruned(table, defaultCluster, referenced), defaultCluster, referenced) ==
            Pruned(table, defaultCluster, referenced)
  {
  }

  lemma PrunedMore<T>(table: map<string, T>, defaultCluster: string, referenced: set<string>, name: string)
    ensures Pruned(table, defaultCluster, referenced + {name}) ==
            if name in table then Pruned(table, defaultCluster, referenced)[name := table[name]]
            else Pruned(table, defaultCluster, referenced)
  {
  }

  lemma PrunedToDefault<T>(table: map<string, T>, defaultCluster: string)
    ensures Pruned(table, defaultCluster, {}) ==
            if defaultCluster in table then map[defaultCluster := table[defaultCluster]] else map[]
  {
  }

  /** Every entry of `after` was there before. */
  ghost predicate Within<T(!new)>(after: map<string, T>, before: map<string, T>) {
    forall c <- after :: c in before && after[c] == before[c]
  }
}
