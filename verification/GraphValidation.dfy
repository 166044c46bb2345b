/** `validate_graph`: an exact account of one agent's part of the edge table, on any store,
    including one that a repair import left with dangling edges. */
module GraphValidation {
  import opened Collections
  import opened GraphModel
  import opened Wrappers
  import opened GraphIntegrity

  datatype Report = Report(
    agentId: string,
    nodeCount: nat,
    edgeCount: nat,
    danglingPairs: seq<(Uuid, Uuid)>,
    danglingDetails: seq<EdgeKey>,
    boundaryEdges: nat,
    orphanNodes: seq<Uuid>,
    isValid: bool)

  function AgentNodes(db: Db, agent: string): set<Uuid> {
    set id | id in db.nodes && db.nodes[id].payload.agentId == agent
  }

  ghost function Touching(db: Db, agent: string): set<EdgeKey> {
    set k | k in db.edges && (k.source in AgentNodes(db, agent) || k.target in AgentNodes(db, agent))
  }

  ghost function Dangling(db: Db, agent: string): set<EdgeKey> {
    set k | k in Touching(db, agent) && !EndpointsExist(db, k)
  }

  /** Both rows exist and exactly one of them belongs to the agent. */
  ghost function Boundary(db: Db, agent: string): set<EdgeKey> {
    set k | k in Touching(db, agent) && EndpointsExist(db, k)
            && (k.source in AgentNodes(db, agent)) != (k.target in AgentNodes(db, agent))
  }

  ghost function Internal(db: Db, agent: string): set<EdgeKey> {
    set k | k in db.edges && k.source in AgentNodes(db, agent) && k.target in AgentNodes(db, agent)
  }

  ghost function Orphans(db: Db, agent: string): set<Uuid> {
    set id | id in AgentNodes(db, agent) && forall k :: k in db.edges ==> k.source != id && k.target != id
  }

  ghost predicate Exact(db: Db, agent: string, r: Report) {
    && r.agentId == agent
    && r.nodeCount == |AgentNodes(db, agent)|
    && r.edgeCount == |Internal(db, agent)| + |Boundary(db, agent)| + |Dangling(db, agent)|
    && Distinct(r.danglingDetails) && Elems(r.danglingDetails) == Dangling(db, agent)
    && |r.danglingPairs| == |r.danglingDetails|
    && (forall i :: 0 <= i < |r.danglingPairs| ==>
          r.danglingPairs[i] == (r.danglingDetails[i].source, r.danglingDetails[i].target))
    && r.boundaryEdges == |Boundary(db, agent)|
    && Distinct(r.orphanNodes) && Elems(r.orphanNodes) == Orphans(db, agent)
    && (r.isValid <==> Dangling(db, agent) == {})
  }

  lemma DisjointCardinality(a: set<EdgeKey>, b: set<EdgeKey>, c: set<EdgeKey>)
    requires a !! b && a !! c && b !! c
    ensures |a + b + c| == |a| + |b| + |c|
  {
    assert a + b !! c;
  }

  lemma AgentNodesExist(db: Db, agent: string, k: EdgeKey)
    ensures k.source in AgentNodes(db, agent) ==> k.source in db.nodes
    ensures k.target in AgentNodes(db, agent) ==> k.target in db.nodes
  {
  }

  lemma TouchingSplits(db: Db, agent: string)
    ensures |Touching(db, agent)| == |Internal(db, agent)| + |Boundary(db, agent)| + |Dangling(db, agent)|
  {
    hide AgentNodes;
    var i, b, d := Internal(db, agent), Boundary(db, agent), Dangling(db, agent);
    forall k ensures k in Touching(db, agent) <==> k in i || k in b || k in d
      ensures !(k in i && k in b) && !(k in i && k in d) && !(k in b && k in d)
    {
      AgentNodesExist(db, agent, k);
    }
    assert Touching(db, agent) == i + b + d;
    DisjointCardinality(i, b, d);
  }

  method ValidateGraph(db: Db, agent: string) returns (r: Report)
    ensures Exact(db, agent, r)
  {
    var pairs := SelectTouching(db, agent);
    var dangling, details, boundary := ClassifyEdges(db, agent, pairs);
    var orphans := FindOrphans(db, agent, pairs);
    DistinctCardinality(pairs);
    DistinctCardinality(details);
    TouchingSplits(db, agent);
    r := Report(agent, |AgentNodes(db, agent)|, |pairs|, dangling, details, boundary, orphans, dangling == []);
  }

  method ClassifyEdges(db: Db, agent: string, pairs: seq<EdgeKey>)
    returns (dangling: seq<(Uuid, Uuid)>, details: seq<EdgeKey>, boundary: nat)
    requires Distinct(pairs) && Elems(pairs) == Touching(db, agent)
    ensures Distinct(details) && Elems(details) == Dangling(db, agent)
    ensures |dangling| == |details|
    ensures forall j :: 0 <= j < |dangling| ==> dangling[j] == (details[j].source, details[j].target)
    ensures boundary == |Boundary(db, agent)|
  {
    var agentNodes := AgentNodes(db, agent);
    hide Filter, Distinct, Touching, Dangling, Boundary;
    dangling, details, boundary := [], [], 0;
    FilterNone(pairs, Lost(db));
    FilterNone(pairs, Crossing(db, agent));
    for i := 0 to |pairs|
      invariant details == Filter(pairs[..i], Lost(db))
      invariant |dangling| == |details|
      invariant forall j :: 0 <= j < |dangling| ==> dangling[j] == (details[j].source, details[j].target)
      invariant boundary == |Filter(pairs[..i], Crossing(db, agent))|
    {
      var k := pairs[i];
      FilterStep(pairs, i, Lost(db));
      FilterStep(pairs, i, Crossing(db, agent));
      if k.source !in db.nodes || k.target !in db.nodes {
        dangling := dangling + [(k.source, k.target)];
        details := details + [k];
      } else if (k.source in agentNodes) != (k.target in agentNodes) {
        boundary := boundary + 1;
      }
    }
    assert pairs[..|pairs|] == pairs;
    ClassesAreExact(db, agent, pairs);
  }

  function Lost(db: Db): EdgeKey -> bool {
    k => !EndpointsExist(db, k)
  }

  function Crossing(db: Db, agent: string): EdgeKey -> bool {
    k => EndpointsExist(db, k) && (k.source in AgentNodes(db, agent)) != (k.target in AgentNodes(db, agent))
  }

  lemma ClassesAreExact(db: Db, agent: string, pairs: seq<EdgeKey>)
    requires Distinct(pairs) && Elems(pairs) == Touching(db, agent)
    ensures Distinct(Filter(pairs, Lost(db))) && Elems(Filter(pairs, Lost(db))) == Dangling(db, agent)
    ensures |Filter(pairs, Crossing(db, agent))| == |Boundary(db, agent)|
  {
    hide Distinct, Touching;
    FilterDistinct(pairs, Lost(db));
    FilterDistinct(pairs, Crossing(db, agent));
    DistinctCardinality(Filter(pairs, Crossing(db, agent)));
    assert forall k :: k in pairs <==> k in Elems(pairs);
    assert Elems(Filter(pairs, Crossing(db, agent))) == Boundary(db, agent);
  }

  method FindOrphans(db: Db, agent: string, pairs: seq<EdgeKey>) returns (orphans: seq<Uuid>)
    requires Elems(pairs) == Touching(db, agent)
    ensures Distinct(orphans) && Elems(orphans) == Orphans(db, agent)
  {
    var agentNodes := AgentNodes(db, agent);
    var touched: set<Uuid> := {};
    for i := 0 to |pairs|
      invariant touched == set id | id in agentNodes && exists k :: k in Elems(pairs[..i]) && (k.source == id || k.target == id)
    {
      var k := pairs[i];
      assert Elems(pairs[..i + 1]) == Elems(pairs[..i]) + {k};
      if k.source in agentNodes {
        touched := touched + {k.source};
      }
      if k.target in agentNodes {
        touched := touched + {k.target};
      }
    }
    assert pairs[..|pairs|] == pairs;
    orphans := Enumerate(set id | id in agentNodes && id !in touched);
    assert (set id | id in agentNodes && id !in touched) == Orphans(db, agent) by {
      forall id, k | id in agentNodes && k in db.edges && (k.source == id || k.target == id) ensures id in touched {
        assert k in Touching(db, agent);
      }
    }
  }

  /** `SELECT from_id, to_id, label`, keeping the rows with an end in the agent's node set. */
  method SelectTouching(db: Db, agent: string) returns (pairs: seq<EdgeKey>)
    ensures Distinct(pairs) && Elems(pairs) == Touching(db, agent)
  {
    var agentNodes := AgentNodes(db, agent);
    var all := Enumerate(db.edges.Keys);
    pairs := [];
    for i := 0 to |all|
      invariant Distinct(pairs)
      invariant Elems(pairs) == Touching(db, agent) * Elems(all[..i])
    {
      var k := all[i];
      assert k in Elems(all);
      assert Elems(all[..i + 1]) == Elems(all[..i]) + {k};
      assert k !in Elems(all[..i]);
      if k.source in agentNodes || k.target in agentNodes {
        assert Elems(pairs + [k]) == Elems(pairs) + {k};
        pairs := pairs + [k];
      }
    }
    assert all[..|all|] == all;
  }

  // ---- What a clean report means ----

  ghost predicate ValidForAll(db: Db) {
    forall agent :: Dangling(db, agent) == {}
  }

  /** Every agent's report is clean exactly when no edge has one endpoint without the other:
      an edge with neither endpoint belongs to no agent and is never reported. */
  lemma ValidForAllIff(db: Db)
    ensures ValidForAll(db) <==>
            forall k :: k in db.edges ==> (k.source in db.nodes <==> k.target in db.nodes)
  {
    if ValidForAll(db) {
      forall k | k in db.edges ensures k.source in db.nodes <==> k.target in db.nodes {
        if k.source in db.nodes {
          assert k !in Dangling(db, db.nodes[k.source].payload.agentId);
        }
        if k.target in db.nodes {
          assert k !in Dangling(db, db.nodes[k.target].payload.agentId);
        }
      }
    }
  }

  /** Repair import makes such edges: the report stays clean for everybody and references are broken. */
  lemma LostEdgesGoUnreported(agent: string, now: int)
    ensures var lost := Snapshot(agent, SNAPSHOT_SCHEMA_VERSION, [],
                                 [SnapshotEdge(EdgeKey(1, 2, "follows"), EdgeRow(1.0, None))]);
            var e := Import(EMPTY, lost, true, now);
            e.outcome.Done? && ValidForAll(e.db) && !Intact(e.db)
  {
    var edge := SnapshotEdge(EdgeKey(1, 2, "follows"), EdgeRow(1.0, None));
    assert [edge][1..] == [];
    var added := ImportEdge(EMPTY, edge.key, edge.row, false);
    assert ImportEdges(EMPTY, [edge], false) == ImportEdges(added.db, [], false);
    assert !EndpointsExist(added.db, edge.key);
    ValidForAllIff(added.db);
  }

  /** No run without repair import can make the pre-turn check reject any agent. */
  lemma PreTurnGateNeverRejects(db: Db, ops: seq<Op>, agent: string, r: Report)
    requires WellKeyed(db) && Intact(db)
    requires forall op :: op in ops ==> !IsRepair(op)
    requires Exact(Run(db, ops), agent, r)
    ensures r.isValid && r.danglingPairs == [] && r.danglingDetails == []
    ensures r.edgeCount == |Internal(Run(db, ops), agent)| + r.boundaryEdges
  {
    RunKeepsIntact(db, ops);
    ValidForAllIff(Run(db, ops));
    DistinctCardinality(r.danglingDetails);
  }
}
