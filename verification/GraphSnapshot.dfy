/** Export and import of one agent's subgraph. */
module GraphSnapshot {
  import opened Collections
  import opened GraphModel
  import opened GraphIntegrity
  import opened GraphValidation

  /** `s` lists the agent's decoded node rows and the edges among them, each exactly once. */
  ghost predicate IsExport(db: Db, agent: string, s: Snapshot) {
    && s.agentId == agent && s.schemaVersion == SNAPSHOT_SCHEMA_VERSION
    && Distinct(s.nodes) && Distinct(s.edges)
    && Elems(s.nodes) == ExportedNodes(db, agent)
    && Elems(s.edges) == ExportedEdges(db, agent)
  }

  function ExportedNodes(db: Db, agent: string): set<Node> {
    set id | id in AgentNodes(db, agent) :: Decoded(db.nodes[id].payload)
  }

  function ExportedEdges(db: Db, agent: string): set<SnapshotEdge> {
    set k | k in db.edges && k.source in AgentNodes(db, agent) && k.target in AgentNodes(db, agent)
      :: SnapshotEdge(k, db.edges[k])
  }

  /** The node rows come first; the edge scan then keeps rows whose two ends are among the
      ids of the nodes just read. */
  method ExportGraph(db: Db, agent: string) returns (s: Snapshot)
    requires WellKeyed(db)
    ensures IsExport(db, agent, s)
  {
    var nodes := Enumerate(ExportedNodes(db, agent));
    var idSet := set n | n in nodes :: n.id;
    assert idSet == AgentNodes(db, agent) by {
      ExportedIds(db, agent, nodes);
    }
    var rows := Enumerate(set k | k in db.edges :: SnapshotEdge(k, db.edges[k]));
    var edges := [];
    for i := 0 to |rows|
      invariant edges == Filter(rows[..i], WithinIds(idSet))
    {
      FilterStep(rows, i, WithinIds(idSet));
      if rows[i].key.source in idSet && rows[i].key.target in idSet {
        edges := edges + [rows[i]];
      }
    }
    assert rows[..|rows|] == rows;
    FilterDistinct(rows, WithinIds(idSet));
    FilteredEdges(db, agent, rows);
    s := Snapshot(agent, SNAPSHOT_SCHEMA_VERSION, nodes, edges);
  }

  function WithinIds(ids: set<Uuid>): SnapshotEdge -> bool {
    (e: SnapshotEdge) => e.key.source in ids && e.key.target in ids
  }

  lemma FilteredEdges(db: Db, agent: string, rows: seq<SnapshotEdge>)
    requires Elems(rows) == set k | k in db.edges :: SnapshotEdge(k, db.edges[k])
    ensures Elems(Filter(rows, WithinIds(AgentNodes(db, agent)))) == ExportedEdges(db, agent)
  {
    forall e ensures e in rows <==> e in (set k | k in db.edges :: SnapshotEdge(k, db.edges[k])) {
      assert e in rows <==> e in Elems(rows);
    }
  }

  lemma ExportedIds(db: Db, agent: string, nodes: seq<Node>)
    requires WellKeyed(db) && Elems(nodes) == ExportedNodes(db, agent)
    ensures NodeIds(nodes) == AgentNodes(db, agent)
  {
    forall id | id in AgentNodes(db, agent) ensures id in NodeIds(nodes) {
      assert Decoded(db.nodes[id].payload) in Elems(nodes);
    }
    forall n | n in nodes ensures n.id in AgentNodes(db, agent) {
      assert n in Elems(nodes);
    }
  }

  // ---- Import ----

  /** With foreign keys on, a snapshot loads exactly when its version is known and each of
      its edges is already stored or joins rows that exist once its nodes are in. */
  lemma StrictImportAcceptsIff(db: Db, s: Snapshot, now: int)
    ensures Import(db, s, false, now).outcome.Done? <==>
            && s.schemaVersion == "1.0"
            && forall x :: x in s.edges ==>
                 || x.key in db.edges
                 || (x.key.source in db.nodes.Keys + NodeIds(s.nodes) && x.key.target in db.nodes.Keys + NodeIds(s.nodes))
  {
    var mid := ImportNodes(db, s.nodes, now);
    ImportNodesGrows(db, s.nodes, now);
    ImportEdgesExact(mid, s.edges, true);
    assert forall id :: id in mid.nodes <==> id in mid.nodes.Keys;
  }

  /** An import that fails changes nothing; one that succeeds changes no existing row. */
  lemma ImportIsAtomicAndAdditive(db: Db, s: Snapshot, allowDangling: bool, now: int)
    ensures var e := Import(db, s, allowDangling, now);
            && (e.outcome.Failed? ==> e.db == db)
            && (forall id :: id in db.nodes ==> id in e.db.nodes && e.db.nodes[id] == db.nodes[id])
            && (forall k :: k in db.edges ==> k in e.db.edges && e.db.edges[k] == db.edges[k])
            && e.db.trajectories == db.trajectories
  {
    ImportNodesGrows(db, s.nodes, now);
    ImportEdgesExact(ImportNodes(db, s.nodes, now), s.edges, !allowDangling);
    assert forall id :: id in db.nodes ==> id in db.nodes.Keys + NodeIds(s.nodes);
  }

  /** What any store exports, every store accepts. */
  lemma ExportIsAlwaysImportable(source: Db, agent: string, s: Snapshot, target: Db, now: int)
    requires WellKeyed(source) && IsExport(source, agent, s)
    ensures Import(target, s, false, now).outcome.Done?
  {
    ExportedIds(source, agent, s.nodes);
    StrictImportAcceptsIff(target, s, now);
    forall x | x in s.edges ensures x.key.source in NodeIds(s.nodes) && x.key.target in NodeIds(s.nodes) {
      assert x in Elems(s.edges);
    }
  }

  lemma {:induction false} ImportNodesAgain(db: Db, nodes: seq<Node>, now: int)
    requires NodeIds(nodes) <= db.nodes.Keys
    ensures ImportNodes(db, nodes, now) == db
    decreases |nodes|
  {
    if nodes != [] {
      assert nodes[0] in nodes && nodes[0].id in NodeIds(nodes);
      assert nodes == [nodes[0]] + nodes[1..];
      assert NodeIds(nodes[1..]) <= NodeIds(nodes);
      ImportNodesAgain(db, nodes[1..], now);
    }
  }

  lemma {:induction false} ImportEdgesAgain(db: Db, edges: seq<SnapshotEdge>, enforce: bool)
    requires forall x :: x in edges ==> x.key in db.edges
    ensures ImportEdges(db, edges, enforce) == Effect(db, Done)
    decreases |edges|
  {
    if edges != [] {
      ImportEdgesAgain(db, edges[1..], enforce);
    }
  }

  /** Importing the same snapshot again, in either mode and at any later time, succeeds and
      changes nothing. */
  lemma ImportIsIdempotent(db: Db, s: Snapshot, allowDangling: bool, again: bool, now: int, later: int)
    requires Import(db, s, allowDangling, now).outcome.Done?
    ensures var r := Import(db, s, allowDangling, now).db;
            Import(r, s, again, later) == Effect(r, Done)
  {
    var mid := ImportNodes(db, s.nodes, now);
    ImportNodesGrows(db, s.nodes, now);
    ImportEdgesExact(mid, s.edges, !allowDangling);
    var r := Import(db, s, allowDangling, now).db;
    ImportNodesAgain(r, s.nodes, later);
    ImportEdgesAgain(r, s.edges, !again);
  }

  // ---- Round trip ----

  /** The rows a list of nodes with distinct new ids brings in. */
  lemma {:induction false} FreshNodesStored(db: Db, nodes: seq<Node>, now: int, n: Node)
    requires n in nodes
    requires forall a, b :: a in nodes && b in nodes && a.id == b.id ==> a == b
    requires n.id !in db.nodes
    ensures var r := ImportNodes(db, nodes, now);
            n.id in r.nodes && r.nodes[n.id].payload == n
    decreases |nodes|
  {
    var first := ImportNode(db, nodes[0], now);
    ImportNodeGrows(db, nodes[0], now);
    if nodes[0].id == n.id {
      assert nodes[0] == n;
      ImportNodesGrows(first, nodes[1..], now);
    } else {
      assert nodes == [nodes[0]] + nodes[1..];
      FreshNodesStored(first, nodes[1..], now, n);
    }
  }

  lemma {:induction false} FreshEdgesStored(db: Db, edges: seq<SnapshotEdge>, enforce: bool, x: SnapshotEdge)
    requires ImportEdges(db, edges, enforce).outcome.Done?
    requires x in edges && x.key !in db.edges
    requires forall a, b :: a in edges && b in edges && a.key == b.key ==> a == b
    ensures var r := ImportEdges(db, edges, enforce).db;
            x.key in r.edges && r.edges[x.key] == x.row
    decreases |edges|
  {
    var first := ImportEdge(db, edges[0].key, edges[0].row, enforce).db;
    if edges[0].key == x.key {
      assert edges[0] == x;
      ImportEdgesExact(first, edges[1..], enforce);
    } else {
      assert edges == [edges[0]] + edges[1..];
      FreshEdgesStored(first, edges[1..], enforce, x);
    }
  }

  /** The agent's export survives a trip through any intact store that holds none of its
      nodes and none of the snapshot's ids: exporting there again lists the same nodes and
      the same edges. */
  lemma ExportRoundTrips(source: Db, agent: string, s: Snapshot, target: Db, now: int)
    requires WellKeyed(source) && IsExport(source, agent, s)
    requires Intact(target) && AgentNodes(target, agent) == {} && NodeIds(s.nodes) !! target.nodes.Keys
    ensures var r := Import(target, s, false, now).db;
            && ExportedNodes(r, agent) == Elems(s.nodes)
            && ExportedEdges(r, agent) == Elems(s.edges)
  {
    ExportIsAlwaysImportable(source, agent, s, target, now);
    ExportedIds(source, agent, s.nodes);
    var mid := ImportNodes(target, s.nodes, now);
    var r := Import(target, s, false, now).db;
    ImportNodesGrows(target, s.nodes, now);
    ImportEdgesExact(mid, s.edges, true);
    assert r.nodes == mid.nodes;
    RoundTripNodes(source, agent, s, target, now);
    RoundTripAgentNodes(source, agent, s, target, now);
    RoundTripEdges(source, agent, s, target, now);
  }

  lemma ExportedAgree(source: Db, agent: string, s: Snapshot)
    requires WellKeyed(source) && IsExport(source, agent, s)
    ensures forall a, b :: a in s.nodes && b in s.nodes && a.id == b.id ==> a == b
    ensures forall a, b :: a in s.edges && b in s.edges && a.key == b.key ==> a == b
    ensures forall a :: a in s.nodes ==> a.agentId == agent && Decoded(a) == a
  {
    forall a | a in s.nodes
      ensures a.id in source.nodes && a == Decoded(source.nodes[a.id].payload) && a.agentId == agent && Decoded(a) == a
    {
      assert a in Elems(s.nodes);
      var id :| id in AgentNodes(source, agent) && a == Decoded(source.nodes[id].payload);
      DecodedIdempotent(source.nodes[id].payload);
    }
    forall a | a in s.edges ensures a.key in source.edges && a.row == source.edges[a.key] {
      assert a in Elems(s.edges);
    }
  }

  lemma RoundTripNodes(source: Db, agent: string, s: Snapshot, target: Db, now: int)
    requires WellKeyed(source) && IsExport(source, agent, s)
    requires NodeIds(s.nodes) !! target.nodes.Keys
    ensures var mid := ImportNodes(target, s.nodes, now);
            forall n :: n in s.nodes ==> n.id in mid.nodes && mid.nodes[n.id].payload == n
  {
    ExportedAgree(source, agent, s);
    forall n | n in s.nodes ensures var mid := ImportNodes(target, s.nodes, now);
                                    n.id in mid.nodes && mid.nodes[n.id].payload == n
    {
      assert n.id in NodeIds(s.nodes);
      FreshNodesStored(target, s.nodes, now, n);
    }
  }

  lemma RoundTripAgentNodes(source: Db, agent: string, s: Snapshot, target: Db, now: int)
    requires WellKeyed(source) && IsExport(source, agent, s)
    requires AgentNodes(target, agent) == {} && NodeIds(s.nodes) !! target.nodes.Keys
    ensures var mid := ImportNodes(target, s.nodes, now);
            AgentNodes(mid, agent) == NodeIds(s.nodes) && ExportedNodes(mid, agent) == Elems(s.nodes)
  {
    var mid := ImportNodes(target, s.nodes, now);
    ImportNodesGrows(target, s.nodes, now);
    RoundTripNodes(source, agent, s, target, now);
    ExportedAgree(source, agent, s);
    forall id ensures id in AgentNodes(mid, agent) <==> id in NodeIds(s.nodes) {
      assert id in target.nodes && target.nodes[id].payload.agentId == agent ==> id in AgentNodes(target, agent);
    }
    forall n ensures n in ExportedNodes(mid, agent) <==> n in s.nodes {
      if n in s.nodes {
        assert n.id in AgentNodes(mid, agent) && n == Decoded(mid.nodes[n.id].payload);
      }
      if n in ExportedNodes(mid, agent) {
        var id :| id in AgentNodes(mid, agent) && n == Decoded(mid.nodes[id].payload);
        var m :| m in s.nodes && m.id == id;
      }
    }
  }

  lemma RoundTripEdges(source: Db, agent: string, s: Snapshot, target: Db, now: int)
    requires WellKeyed(source) && IsExport(source, agent, s)
    requires Intact(target) && AgentNodes(target, agent) == {} && NodeIds(s.nodes) !! target.nodes.Keys
    requires Import(target, s, false, now).outcome.Done?
    requires Import(target, s, false, now).db.nodes == ImportNodes(target, s.nodes, now).nodes
    ensures ExportedEdges(Import(target, s, false, now).db, agent) == Elems(s.edges)
  {
    hide ExportedNodes, ImportNodes, ImportEdges, WellKeyed;
    var mid := ImportNodes(target, s.nodes, now);
    var r := Import(target, s, false, now).db;
    ImportNodesGrows(target, s.nodes, now);
    ImportEdgesExact(mid, s.edges, true);
    RoundTripAgentNodes(source, agent, s, target, now);
    ExportedAgree(source, agent, s);
    ExportedIds(source, agent, s.nodes);
    assert AgentNodes(r, agent) == AgentNodes(mid, agent) == NodeIds(s.nodes);
    forall x ensures x in ExportedEdges(r, agent) <==> x in s.edges {
      if x in s.edges {
        assert x in Elems(s.edges);
        assert x.key in target.edges ==> EndpointsExist(target, x.key);
        FreshEdgesStored(mid, s.edges, true, x);
      }
      if x in ExportedEdges(r, agent) {
        assert x.key in target.edges ==> EndpointsExist(target, x.key);
        var y :| y in s.edges && y.key == x.key;
        FreshEdgesStored(mid, s.edges, true, y);
      }
    }
  }
}
