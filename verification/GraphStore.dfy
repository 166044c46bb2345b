/** The SQLite-backed store: an object whose four tables change in place, statement by
    statement.  Every method is pinned to the statement functions of `GraphModel`. */
module GraphStore {
  import opened Wrappers
  import opened Text
  import opened Collections
  import opened GraphModel

  class SqliteGraphStore {
    var nodes: map<Uuid, NodeRow>
    var edges: map<EdgeKey, EdgeRow>
    var trajectories: map<Uuid, TrajectoryRow>
    var fts: seq<FtsRow>

    function State(): Db
      reads this
    {
      Db(nodes, edges, trajectories, fts)
    }

    constructor ()
      ensures State() == EMPTY
    {
      nodes, edges, trajectories, fts := map[], map[], map[], [];
    }

    /** Adopt a database whose edge table predates the foreign keys. */
    constructor Migrate(legacyNodes: map<Uuid, NodeRow>, legacyEdges: map<EdgeKey, EdgeRow>,
                        details: map<Uuid, TrajectoryRow>, index: seq<FtsRow>)
      ensures State() == Db(legacyNodes, MigrateEdges(legacyNodes, legacyEdges), details, index)
    {
      nodes, trajectories, fts := legacyNodes, details, index;
      edges := map k | k in legacyEdges && k.source in legacyNodes && k.target in legacyNodes :: legacyEdges[k];
    }

    method PersistEdge(k: EdgeKey, row: EdgeRow) returns (r: Outcome)
      modifies this`edges
      ensures Effect(State(), r) == ReplaceEdge(old(State()), k, row)
      ensures r == if k.source in nodes && k.target in nodes then Done else Failed(ForeignKey)
      ensures edges == if r.Done? then old(edges)[k := row] else old(edges)
    {
      if k.source in nodes && k.target in nodes {
        edges := edges[k := row];
        r := Done;
      } else {
        r := Failed(ForeignKey);
      }
    }

    method DeleteFts(id: Uuid)
      modifies this`fts
      ensures fts == Filter(old(fts), OtherThan(id))
    {
      var kept := [];
      for i := 0 to |fts|
        invariant fts == old(fts)
        invariant kept == Filter(fts[..i], OtherThan(id))
      {
        FilterStep(fts, i, OtherThan(id));
        if fts[i].nodeId != id {
          kept := kept + [fts[i]];
        }
      }
      assert fts[..|fts|] == fts;
      fts := kept;
    }

    method SyncAllNodesFts(n: Node)
      modifies this`fts
      ensures State() == SyncFts(old(State()), n)
    {
      if Trim(n.agentId) != "" {
        DeleteFts(n.id);
        fts := fts + [FtsRow(n.id, n.agentId, TrimmedProject(n.projectId), n)];
      }
    }

    method WriteNode(n: Node, now: int) returns (r: Outcome)
      modifies this
      ensures Effect(State(), r) == PersistNode(old(State()), n, now)
    {
      if n.id in nodes {
        edges := map k | k in edges && k.source != n.id && k.target != n.id :: edges[k];
        trajectories := map t | t in trajectories && trajectories[t].episodeId != n.id :: trajectories[t];
        nodes := nodes - {n.id};
      }
      nodes := nodes[n.id := RowFor(n, now)];
      ghost var replaced := State();
      assert replaced == ReplaceNode(old(State()), n, now);
      for i := 0 to |n.links|
        invariant PersistLinks(replaced, n.id, n.links) == PersistLinks(State(), n.id, n.links[i..])
      {
        r := PersistEdge(EdgeKey(n.id, n.links[i].target, n.links[i].rel), EdgeRow(1.0, None));
        if r.Failed? {
          return;
        }
        assert n.links[i..][1..] == n.links[i + 1..];
      }
      SyncAllNodesFts(n);
      r := Done;
    }

    method WriteNodeWithEdges(n: Node, now: int) returns (r: Outcome)
      modifies this
      ensures Effect(State(), r) == PersistNodeChecked(old(State()), n, now)
    {
      var savedNodes, savedEdges, savedTrajectories, savedFts := nodes, edges, trajectories, fts;
      for i := 0 to |n.links|
        invariant State() == old(State())
        invariant FirstMissing(State(), n.links) == FirstMissing(State(), n.links[i..])
      {
        if n.links[i].target !in nodes {
          return Failed(MissingTarget(n.links[i].target));
        }
      }
      r := WriteNode(n, now);
      if r.Failed? {
        nodes, edges, trajectories, fts := savedNodes, savedEdges, savedTrajectories, savedFts;
      }
    }

    method InsertGraphEdge(k: EdgeKey, weight: real, metadata: Option<string>) returns (r: Outcome)
      modifies this`edges
      ensures Effect(State(), r) == ReplaceEdge(old(State()), k, EdgeRow(weight, metadata))
      ensures r == if k.source in nodes && k.target in nodes then Done else Failed(ForeignKey)
      ensures edges == if r.Done? then old(edges)[k := EdgeRow(weight, metadata)] else old(edges)
    {
      r := PersistEdge(k, EdgeRow(weight, metadata));
    }

    method InsertGraphEdgeChecked(k: EdgeKey) returns (r: Outcome)
      modifies this`edges
      ensures Effect(State(), r) == InsertEdgeChecked(old(State()), k)
      ensures r == if k.source !in nodes then Failed(MissingSource(k.source))
                   else if k.target !in nodes then Failed(MissingTarget(k.target))
                   else Done
      ensures edges == if r.Done? then old(edges)[k := EdgeRow(1.0, None)] else old(edges)
    {
      if k.source !in nodes {
        return Failed(MissingSource(k.source));
      }
      if k.target !in nodes {
        return Failed(MissingTarget(k.target));
      }
      r := PersistEdge(k, EdgeRow(1.0, None));
    }

    method InsertTrajectoryDetail(id: Uuid, row: TrajectoryRow) returns (r: Outcome)
      modifies this`trajectories
      ensures Effect(State(), r) == InsertTrajectory(old(State()), id, row)
      ensures r == if row.episodeId in nodes then Done else Failed(ForeignKey)
      ensures trajectories == if r.Done? then old(trajectories)[id := row] else old(trajectories)
    {
      if row.episodeId !in nodes {
        return Failed(ForeignKey);
      }
      trajectories := trajectories[id := row];
      r := Done;
    }

    method DeleteTrajectoryDetailsBefore(agent: string, before: int) returns (r: Outcome, removed: nat)
      modifies this`trajectories
      ensures Effect(State(), r) == PruneTrajectories(old(State()), agent, before)
      ensures r == if Trim(agent) == "" then Failed(EmptyAgent) else Done
      ensures forall t :: t in trajectories <==>
                && t in old(trajectories)
                && !(r.Done? && old(trajectories)[t].agentId == agent && old(trajectories)[t].recordedAt < before)
      ensures forall t :: t in trajectories ==> trajectories[t] == old(trajectories)[t]
      ensures removed == |old(trajectories).Keys - trajectories.Keys|
    {
      if Trim(agent) == "" {
        assert trajectories.Keys - trajectories.Keys == {};
        return Failed(EmptyAgent), 0;
      }
      var outdated := Outdated(State(), agent, before);
      removed := |outdated|;
      trajectories := trajectories - outdated;
      assert old(trajectories).Keys - trajectories.Keys == outdated;
      r := Done;
    }

    method TryInsertNodeIgnore(n: Node, now: int)
      modifies this`nodes, this`fts
      ensures State() == ImportNode(old(State()), n, now)
    {
      if n.id !in nodes {
        nodes := nodes[n.id := RowFor(n, now)];
        SyncAllNodesFts(n);
      }
    }

    method TryInsertEdgeIgnore(e: SnapshotEdge, enforce: bool) returns (r: Outcome)
      modifies this`edges
      ensures Effect(State(), r) == ImportEdge(old(State()), e.key, e.row, enforce)
    {
      r := Done;
      if e.key !in edges {
        if enforce && !(e.key.source in nodes && e.key.target in nodes) {
          return Failed(ForeignKey);
        }
        edges := edges[e.key := e.row];
      }
    }

    /** One transaction over nodes, then edges; `allowDangling` switches the foreign keys
        off for its duration. */
    method ImportGraph(s: Snapshot, allowDangling: bool, now: int) returns (r: Outcome)
      modifies this
      ensures Effect(State(), r) == Import(old(State()), s, allowDangling, now)
    {
      if s.schemaVersion != SNAPSHOT_SCHEMA_VERSION {
        return Failed(UnsupportedSchema(s.schemaVersion));
      }
      var savedNodes, savedEdges, savedTrajectories, savedFts := nodes, edges, trajectories, fts;
      for i := 0 to |s.nodes|
        invariant ImportNodes(old(State()), s.nodes, now) == ImportNodes(State(), s.nodes[i..], now)
      {
        TryInsertNodeIgnore(s.nodes[i], now);
        assert s.nodes[i..][1..] == s.nodes[i + 1..];
      }
      ghost var withNodes := State();
      for i := 0 to |s.edges|
        invariant ImportEdges(withNodes, s.edges, !allowDangling) == ImportEdges(State(), s.edges[i..], !allowDangling)
      {
        r := TryInsertEdgeIgnore(s.edges[i], !allowDangling);
        if r.Failed? {
          nodes, edges, trajectories, fts := savedNodes, savedEdges, savedTrajectories, savedFts;
          return;
        }
        assert s.edges[i..][1..] == s.edges[i + 1..];
      }
      r := Done;
    }
  }
}
