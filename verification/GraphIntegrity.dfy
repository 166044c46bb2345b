/** Referential integrity over whole runs of store operations, and what a rewrite of a
    node does to its edges. */
module GraphIntegrity {
  import opened Wrappers
  import opened GraphModel

  /** Every edge endpoint and every trajectory row's episode is an existing node row. */
  ghost predicate Intact(db: Db) {
    && (forall k :: k in db.edges ==> EndpointsExist(db, k))
    && (forall t :: t in db.trajectories ==> db.trajectories[t].episodeId in db.nodes)
  }

  datatype Op =
    | WriteNode(node: Node, at: int)
    | WriteNodeWithEdges(checked: Node, at: int)
    | InsertEdge(key: EdgeKey, row: EdgeRow)
    | InsertEdgeStrict(key: EdgeKey)
    | InsertDetail(id: Uuid, detail: TrajectoryRow)
    | Prune(agent: string, before: int)
    | ImportSnapshot(snapshot: Snapshot, allowDangling: bool, at: int)

  function Apply(db: Db, op: Op): Effect {
    match op
    case WriteNode(n, at) => PersistNode(db, n, at)
    case WriteNodeWithEdges(n, at) => PersistNodeChecked(db, n, at)
    case InsertEdge(k, row) => ReplaceEdge(db, k, row)
    case InsertEdgeStrict(k) => InsertEdgeChecked(db, k)
    case InsertDetail(id, row) => InsertTrajectory(db, id, row)
    case Prune(agent, before) => PruneTrajectories(db, agent, before)
    case ImportSnapshot(s, allowDangling, at) => Import(db, s, allowDangling, at)
  }

  /** The state after a run; an operation that reports an error does not stop the run. */
  function Run(db: Db, ops: seq<Op>): Db
    decreases |ops|
  {
    if ops == [] then db else Run(Apply(db, ops[0]).db, ops[1..])
  }

  predicate IsRepair(op: Op) {
    op.ImportSnapshot? && op.allowDangling
  }

  // ---- Single statements ----

  lemma ReplaceNodeIntact(db: Db, n: Node, now: int)
    requires Intact(db)
    ensures Intact(ReplaceNode(db, n, now))
  {
  }

  /** Embedded edges touch only the edge table, and succeed exactly when every target has a row. */
  lemma {:induction false} PersistLinksFrame(db: Db, id: Uuid, links: seq<Link>)
    requires id in db.nodes
    ensures var e := PersistLinks(db, id, links);
            && e.db == db.(edges := e.db.edges)
            && (e.outcome.Done? <==> forall l :: l in links ==> l.target in db.nodes)
            && (Intact(db) ==> Intact(e.db))
    decreases |links|
  {
    if links != [] {
      var e := ReplaceEdge(db, EdgeKey(id, links[0].target, links[0].rel), EdgeRow(1.0, None));
      if e.outcome.Done? {
        PersistLinksFrame(e.db, id, links[1..]);
        assert forall l :: l in links <==> l == links[0] || l in links[1..];
      }
    }
  }

  /** The embedded edges that get stored: those before the first whose target has no row. */
  function Resolved(db: Db, links: seq<Link>): seq<Link> {
    if links == [] || links[0].target !in db.nodes then [] else [links[0]] + Resolved(db, links[1..])
  }

  lemma {:induction false} ResolvedIsAll(db: Db, links: seq<Link>)
    requires forall l :: l in links ==> l.target in db.nodes
    ensures Resolved(db, links) == links
  {
    if links != [] {
      ResolvedIsAll(db, links[1..]);
    }
  }

  /** The edge table after the embedded edges, whether or not all of them resolve: old rows plus
      one default row per link before the first lost one. */
  lemma {:induction false} StoredLinks(db: Db, id: Uuid, links: seq<Link>, k: EdgeKey)
    requires id in db.nodes
    ensures var r := PersistLinks(db, id, links).db;
            var linked := k.source == id && Link(k.target, k.rel) in Resolved(db, links);
            && (k in r.edges <==> k in db.edges || linked)
            && (k in r.edges ==> r.edges[k] == if linked then EdgeRow(1.0, None) else db.edges[k])
    decreases |links|
  {
    if links != [] && links[0].target in db.nodes {
      var e := ReplaceEdge(db, EdgeKey(id, links[0].target, links[0].rel), EdgeRow(1.0, None));
      StoredLinks(e.db, id, links[1..], k);
      SameTargets(db, e.db, links[1..]);
    }
  }

  lemma {:induction false} SameTargets(a: Db, b: Db, links: seq<Link>)
    requires a.nodes.Keys == b.nodes.Keys
    ensures Resolved(a, links) == Resolved(b, links)
  {
    if links != [] {
      assert links[0].target in a.nodes.Keys <==> links[0].target in b.nodes.Keys;
      SameTargets(a, b, links[1..]);
    }
  }

  /** The edge table after the embedded edges: old rows plus one default row per link. */
  lemma PersistLinksEdges(db: Db, id: Uuid, links: seq<Link>, k: EdgeKey)
    requires id in db.nodes && PersistLinks(db, id, links).outcome.Done?
    ensures var r := PersistLinks(db, id, links).db;
            var linked := k.source == id && Link(k.target, k.rel) in links;
            && (k in r.edges <==> k in db.edges || linked)
            && (k in r.edges ==> r.edges[k] == if linked then EdgeRow(1.0, None) else db.edges[k])
  {
    hide PersistLinks, Resolved;
    PersistLinksFrame(db, id, links);
    ResolvedIsAll(db, links);
    StoredLinks(db, id, links, k);
  }

  lemma PersistNodeIntact(db: Db, n: Node, now: int)
    requires Intact(db)
    ensures Intact(PersistNode(db, n, now).db)
  {
    ReplaceNodeIntact(db, n, now);
    PersistLinksFrame(ReplaceNode(db, n, now), n.id, n.links);
  }

  ghost function NodeIds(nodes: seq<Node>): set<Uuid> {
    set n | n in nodes :: n.id
  }

  /** Importing nodes adds the ids that were missing and keeps every existing row. */
  lemma {:induction false} ImportNodesGrows(db: Db, nodes: seq<Node>, now: int)
    ensures var r := ImportNodes(db, nodes, now);
            && r.edges == db.edges && r.trajectories == db.trajectories
            && r.nodes.Keys == db.nodes.Keys + NodeIds(nodes)
            && (forall id :: id in db.nodes ==> r.nodes[id] == db.nodes[id])
            && (WellKeyed(db) ==> WellKeyed(r))
    decreases |nodes|
  {
    hide ImportNode, WellKeyed;
    if nodes == [] {
    } else {
      var first := ImportNode(db, nodes[0], now);
      ImportNodeGrows(db, nodes[0], now);
      ImportNodesGrows(first, nodes[1..], now);
      assert nodes == [nodes[0]] + nodes[1..];
      assert NodeIds(nodes) == {nodes[0].id} + NodeIds(nodes[1..]);
    }
  }

  lemma ImportNodeGrows(db: Db, n: Node, now: int)
    ensures var r := ImportNode(db, n, now);
            && r.edges == db.edges && r.trajectories == db.trajectories
            && r.nodes == (if n.id in db.nodes then db.nodes else db.nodes[n.id := RowFor(n, now)])
            && r.nodes.Keys == db.nodes.Keys + {n.id}
            && (WellKeyed(db) ==> WellKeyed(r))
  {
  }

  /** Edge import changes the edge table only.  With foreign keys on, it succeeds exactly
      when every edge is a duplicate or resolves. */
  lemma {:induction false} ImportEdgesExact(db: Db, edges: seq<SnapshotEdge>, enforce: bool)
    ensures var e := ImportEdges(db, edges, enforce);
            && e.db == db.(edges := e.db.edges)
            && (e.outcome.Done? <==> !enforce || forall x :: x in edges ==> x.key in db.edges || EndpointsExist(db, x.key))
            && (forall k :: k in db.edges ==> k in e.db.edges && e.db.edges[k] == db.edges[k])
            && (e.outcome.Done? ==> forall x :: x in edges ==> x.key in e.db.edges)
            && (forall k :: k in e.db.edges ==> k in db.edges || exists x :: x in edges && x.key == k)
            && (enforce && Intact(db) ==> Intact(e.db))
    decreases |edges|
  {
    if edges != [] {
      var x0 := edges[0];
      var e := ImportEdge(db, x0.key, x0.row, enforce);
      if e.outcome.Done? {
        ImportEdgesExact(e.db, edges[1..], enforce);
      }
      assert forall x :: x in edges <==> x == x0 || x in edges[1..];
      assert forall k :: EndpointsExist(e.db, k) <==> EndpointsExist(db, k);
    }
  }

  // ---- Runs ----

  lemma PersistNodeWellKeyed(db: Db, n: Node, now: int)
    requires WellKeyed(db)
    ensures WellKeyed(PersistNode(db, n, now).db)
  {
    PersistLinksFrame(ReplaceNode(db, n, now), n.id, n.links);
  }

  lemma ImportKeeps(db: Db, s: Snapshot, allowDangling: bool, now: int)
    requires WellKeyed(db)
    ensures WellKeyed(Import(db, s, allowDangling, now).db)
    ensures Intact(db) && !allowDangling ==> Intact(Import(db, s, allowDangling, now).db)
  {
    ImportNodesGrows(db, s.nodes, now);
    ImportEdgesExact(ImportNodes(db, s.nodes, now), s.edges, !allowDangling);
  }

  lemma ApplyKeeps(db: Db, op: Op)
    requires WellKeyed(db)
    ensures WellKeyed(Apply(db, op).db)
    ensures Intact(db) && !IsRepair(op) ==> Intact(Apply(db, op).db)
  {
    match op
    case WriteNode(n, at) =>
      NodeWriteKeeps(db, n, at);
    case WriteNodeWithEdges(n, at) =>
      NodeWriteKeeps(db, n, at);
    case ImportSnapshot(s, allowDangling, at) =>
      ImportKeeps(db, s, allowDangling, at);
    case _ =>
  }

  lemma NodeWriteKeeps(db: Db, n: Node, now: int)
    requires WellKeyed(db)
    ensures WellKeyed(PersistNode(db, n, now).db) && WellKeyed(PersistNodeChecked(db, n, now).db)
    ensures Intact(db) ==> Intact(PersistNode(db, n, now).db) && Intact(PersistNodeChecked(db, n, now).db)
  {
    PersistNodeWellKeyed(db, n, now);
    if Intact(db) {
      PersistNodeIntact(db, n, now);
    }
  }

  /** In every run without repair import, no matter which operations fail, references stay intact. */
  lemma {:induction false} RunKeepsIntact(db: Db, ops: seq<Op>)
    requires WellKeyed(db) && Intact(db)
    requires forall op :: op in ops ==> !IsRepair(op)
    ensures WellKeyed(Run(db, ops)) && Intact(Run(db, ops))
    decreases |ops|
  {
    if ops != [] {
      ApplyKeeps(db, ops[0]);
      RunKeepsIntact(Apply(db, ops[0]).db, ops[1..]);
    }
  }

  /** A migrated store is intact exactly when its trajectory rows were; the rebuild loses an edge
      exactly when some legacy edge had a missing endpoint. */
  lemma MigrationIsIntact(nodes: map<Uuid, NodeRow>, legacy: map<EdgeKey, EdgeRow>,
                          details: map<Uuid, TrajectoryRow>, fts: seq<FtsRow>)
    ensures Intact(Db(nodes, MigrateEdges(nodes, legacy), details, fts)) <==>
            forall t :: t in details ==> details[t].episodeId in nodes
    ensures MigrateEdges(nodes, legacy) == legacy <==>
            forall k :: k in legacy ==> k.source in nodes && k.target in nodes
  {
    if MigrateEdges(nodes, legacy) == legacy {
      forall k | k in legacy ensures k.source in nodes && k.target in nodes {
        assert k in MigrateEdges(nodes, legacy);
      }
    }
  }

  /** Loading with the foreign keys off leaves an intact store intact exactly when the
      same snapshot would have loaded with them on. */
  lemma RepairIntactIffStrictAccepts(db: Db, s: Snapshot, now: int)
    requires Intact(db) && s.schemaVersion == SNAPSHOT_SCHEMA_VERSION
    ensures Intact(Import(db, s, true, now).db) <==> Import(db, s, false, now).outcome.Done?
  {
    var mid := ImportNodes(db, s.nodes, now);
    ImportNodesGrows(db, s.nodes, now);
    ImportEdgesExact(mid, s.edges, true);
    ImportEdgesExact(mid, s.edges, false);
    var loose := ImportEdges(mid, s.edges, false);
    if Intact(loose.db) {
      forall x | x in s.edges ensures x.key in mid.edges || EndpointsExist(mid, x.key) {
        assert x.key in loose.db.edges && EndpointsExist(loose.db, x.key);
      }
    }
    if ImportEdges(mid, s.edges, true).outcome.Done? {
      forall k | k in loose.db.edges ensures EndpointsExist(loose.db, k) {
        if k in db.edges {
          assert EndpointsExist(db, k);
        }
      }
    }
  }

  // ---- What a write of one node does ----

  lemma RowHoldsNode(n: Node, now: int)
    ensures RowFor(n, now).payload == n
  {
  }

  /** A write replaces exactly one node row. */
  lemma WriteTouchesOneRow(db: Db, n: Node, now: int)
    ensures PersistNode(db, n, now).db.nodes == db.nodes[n.id := RowFor(n, now)]
  {
    PersistLinksFrame(ReplaceNode(db, n, now), n.id, n.links);
    assert ReplaceNode(db, n, now).nodes == db.nodes[n.id := RowFor(n, now)];
  }

  /** A write reports success exactly when each embedded target has a row once the node
      itself has been stored; a self-link therefore always resolves. */
  lemma WriteNodeSucceedsIff(db: Db, n: Node, now: int)
    ensures PersistNode(db, n, now).outcome.Done? <==>
            forall l :: l in n.links ==> l.target in db.nodes || l.target == n.id
  {
    PersistLinksFrame(ReplaceNode(db, n, now), n.id, n.links);
  }

  /** The checked write looks targets up before storing the node, so a new node may not
      link to itself; past that check it cannot fail, and it agrees with the plain write. */
  lemma CheckedWriteExact(db: Db, n: Node, now: int)
    ensures var e := PersistNodeChecked(db, n, now);
            && (e.outcome.Done? <==> LinksResolve(db, n))
            && (e.outcome.Done? ==> e == PersistNode(db, n, now))
            && (e.outcome.Failed? ==> e.db == db && e.outcome.error.MissingTarget?
                                      && e.outcome.error.target !in db.nodes)
  {
    FirstMissingExact(db, n.links);
    PersistLinksFrame(ReplaceNode(db, n, now), n.id, n.links);
  }

  lemma {:induction false} FirstMissingExact(db: Db, links: seq<Link>)
    ensures FirstMissing(db, links).None? <==> forall l :: l in links ==> l.target in db.nodes
    ensures FirstMissing(db, links).Some? ==> FirstMissing(db, links).value !in db.nodes
  {
    if links != [] {
      FirstMissingExact(db, links[1..]);
      assert forall l :: l in links <==> l == links[0] || l in links[1..];
    }
  }

  /** After rewriting an existing node, the edges touching it are exactly its embedded ones:
      every other incident edge and every trajectory row of it is gone, and the rest of
      the graph is as before. */
  lemma RewriteKeepsOnlyEmbeddedEdges(db: Db, n: Node, now: int, k: EdgeKey)
    requires n.id in db.nodes && PersistNode(db, n, now).outcome.Done?
    ensures var r := PersistNode(db, n, now).db;
            && (k.source == n.id || k.target == n.id ==>
                  (k in r.edges <==> k.source == n.id && Link(k.target, k.rel) in n.links))
            && (k.source != n.id && k.target != n.id ==>
                  (k in r.edges <==> k in db.edges) && (k in r.edges ==> r.edges[k] == db.edges[k]))
            && (forall t :: t in r.trajectories <==> t in db.trajectories && db.trajectories[t].episodeId != n.id)
            && r.nodes == db.nodes[n.id := RowFor(n, now)]
  {
    PersistLinksFrame(ReplaceNode(db, n, now), n.id, n.links);
    PersistLinksEdges(ReplaceNode(db, n, now), n.id, n.links, k);
  }
}
