/** The full-text shadow table against the node table: when they agree, and what a search
    returns when they do. */
module FtsIndex {
  import opened Wrappers
  import opened Text
  import opened Collections
  import opened GraphModel
  import opened GraphIntegrity

  ghost predicate OnePerNode(rows: seq<FtsRow>) {
    forall i, j :: 0 <= i < j < |rows| ==> rows[i].nodeId != rows[j].nodeId
  }

  /** Exactly one index row per node row, holding that row's current payload, agent and project. */
  ghost predicate Synced(db: Db) {
    && OnePerNode(db.fts)
    && (forall f :: f in db.fts ==> f.nodeId in db.nodes && f == FtsFor(db.nodes[f.nodeId].payload))
    && (forall id :: id in db.nodes ==> FtsFor(db.nodes[id].payload) in db.fts)
  }

  // ---- Keeping the index ----

  lemma OnePerNodeCons(f: FtsRow, rows: seq<FtsRow>)
    requires OnePerNode(rows) && forall g :: g in rows ==> g.nodeId != f.nodeId
    ensures OnePerNode([f] + rows) && OnePerNode(rows + [f])
  {
    forall i | 0 <= i < |rows| ensures rows[i].nodeId != f.nodeId {
      assert rows[i] in rows;
    }
  }

  lemma OnePerNodeTail(rows: seq<FtsRow>)
    requires rows != [] && OnePerNode(rows)
    ensures OnePerNode(rows[1..]) && forall g :: g in rows[1..] ==> g.nodeId != rows[0].nodeId
  {
  }

  lemma {:induction false} FilterKeepsOnePerNode(rows: seq<FtsRow>, p: FtsRow -> bool)
    requires OnePerNode(rows)
    ensures OnePerNode(Filter(rows, p))
  {
    hide OnePerNode;
    if rows == [] {
      assert Filter(rows, p) == rows;
    } else {
      OnePerNodeTail(rows);
      FilterKeepsOnePerNode(rows[1..], p);
      if p(rows[0]) {
        OnePerNodeCons(rows[0], Filter(rows[1..], p));
      }
    }
  }

  /** Storing a payload and indexing it re-establishes agreement for that node. */
  lemma SyncRestores(db: Db, n: Node, row: NodeRow)
    requires Synced(db) && WellKeyed(db) && !IsBlank(n.agentId) && row.payload == n
    ensures Synced(SyncFts(db.(nodes := db.nodes[n.id := row]), n))
  {
    var r := SyncFts(db.(nodes := db.nodes[n.id := row]), n);
    hide OnePerNode;
    var kept := Filter(db.fts, OtherThan(n.id));
    FilterKeepsOnePerNode(db.fts, OtherThan(n.id));
    OnePerNodeCons(FtsFor(n), kept);
    assert r.fts == kept + [FtsFor(n)];
    forall id | id in r.nodes ensures FtsFor(r.nodes[id].payload) in r.fts {
      if id == n.id {
        assert r.fts[|kept|] == FtsFor(n);
      } else {
        assert FtsFor(db.nodes[id].payload) in kept;
      }
    }
  }

  /** Agreement looks only at the payloads and the index. */
  lemma SyncedFrame(a: Db, b: Db)
    requires a.nodes == b.nodes && a.fts == b.fts
    ensures Synced(a) <==> Synced(b)
  {
  }

  /** From an agreeing store, a write with a real agent leaves the two tables agreeing if and
      only if every embedded target resolves, or the stored payload was this very node.
      Otherwise the node row is replaced and the index is not: the write is not one
      transaction. */
  lemma WriteKeepsSyncIff(db: Db, n: Node, now: int)
    requires Synced(db) && WellKeyed(db) && !IsBlank(n.agentId)
    ensures Synced(PersistNode(db, n, now).db) <==>
            || (forall l :: l in n.links ==> l.target in db.nodes || l.target == n.id)
            || (n.id in db.nodes && db.nodes[n.id].payload == n)
  {
    hide Synced;
    var e := PersistNode(db, n, now);
    var replaced := ReplaceNode(db, n, now);
    WriteNodeSucceedsIff(db, n, now);
    PersistLinksFrame(replaced, n.id, n.links);
    assert replaced.nodes == db.nodes[n.id := RowFor(n, now)];
    if e.outcome.Done? {
      SyncRestores(db, n, RowFor(n, now));
      SyncedFrame(e.db, SyncFts(db.(nodes := db.nodes[n.id := RowFor(n, now)]), n));
    } else {
      assert e.db.nodes == replaced.nodes && e.db.fts == db.fts;
      UnindexedWrite(db, n, RowFor(n, now));
      SyncedFrame(e.db, db.(nodes := db.nodes[n.id := RowFor(n, now)]));
    }
  }

  lemma UnindexedWrite(db: Db, n: Node, row: NodeRow)
    requires Synced(db) && WellKeyed(db) && row.payload == n
    ensures Synced(db.(nodes := db.nodes[n.id := row])) <==> n.id in db.nodes && db.nodes[n.id].payload == n
  {
    var r := db.(nodes := db.nodes[n.id := row]);
    if Synced(r) {
      assert FtsFor(r.nodes[n.id].payload) in r.fts;
      assert FtsFor(n) in db.fts && n.id in db.nodes;
    }
    if n.id in db.nodes && db.nodes[n.id].payload == n {
      forall id | id in r.nodes ensures r.nodes[id].payload == db.nodes[id].payload {
      }
    }
  }

  /** A failed write of a brand new node is the smallest case that loses agreement. */
  lemma FailedWriteLosesSync()
    ensures var n := Node(1, "agent", None, Semantic(SemanticFields(0, 0, 0, None, "fact")), [Link(2, "learned_from")]);
            Synced(EMPTY) && !Synced(PersistNode(EMPTY, n, 0).db)
  {
    var n := Node(1, "agent", None, Semantic(SemanticFields(0, 0, 0, None, "fact")), [Link(2, "learned_from")]);
    assert !IsBlank(n.agentId) by {
      assert n.agentId[0] == 'a' && n.agentId[4] == 't';
    }
    assert n.links[0] in n.links && n.links[0].target == 2;
    WriteKeepsSyncIff(EMPTY, n, 0);
  }

  lemma {:induction false} ImportNodesSynced(db: Db, nodes: seq<Node>, now: int)
    requires Synced(db) && WellKeyed(db) && forall n :: n in nodes ==> !IsBlank(n.agentId)
    ensures Synced(ImportNodes(db, nodes, now))
    decreases |nodes|
  {
    hide Synced;
    if nodes != [] {
      assert nodes[0] in nodes;
      if nodes[0].id !in db.nodes {
        SyncRestores(db, nodes[0], RowFor(nodes[0], now));
      }
      ImportNodeGrows(db, nodes[0], now);
      ImportNodesSynced(ImportNode(db, nodes[0], now), nodes[1..], now);
    }
  }

  /** Nodes the operation writes all carry a real agent, and a plain write resolves. */
  ghost predicate Indexable(db: Db, op: Op) {
    match op
    case WriteNode(n, _) =>
      !IsBlank(n.agentId) && forall l :: l in n.links ==> l.target in db.nodes || l.target == n.id
    case WriteNodeWithEdges(n, _) => !IsBlank(n.agentId)
    case ImportSnapshot(s, _, _) => forall n :: n in s.nodes ==> !IsBlank(n.agentId)
    case _ => true
  }

  ghost predicate IndexableRun(db: Db, ops: seq<Op>)
    decreases |ops|
  {
    ops == [] || (Indexable(db, ops[0]) && IndexableRun(Apply(db, ops[0]).db, ops[1..]))
  }

  lemma ApplyKeepsSync(db: Db, op: Op)
    requires Synced(db) && WellKeyed(db) && Indexable(db, op)
    ensures Synced(Apply(db, op).db)
  {
    hide Synced;
    match op
    case WriteNode(n, at) =>
      WriteKeepsSyncIff(db, n, at);
    case WriteNodeWithEdges(n, at) =>
      CheckedWriteExact(db, n, at);
      if PersistNodeChecked(db, n, at).outcome.Done? {
        WriteKeepsSyncIff(db, n, at);
      }
    case ImportSnapshot(s, allowDangling, at) =>
      ImportNodesSynced(db, s.nodes, at);
      ImportEdgesExact(ImportNodes(db, s.nodes, at), s.edges, !allowDangling);
      var e := ImportEdges(ImportNodes(db, s.nodes, at), s.edges, !allowDangling);
      SyncedFrame(e.db, ImportNodes(db, s.nodes, at));
    case _ =>
      SyncedFrame(db, Apply(db, op).db);
  }

  /** Over every such run, repair imports included, the index agrees with the node table. */
  lemma {:induction false} RunKeepsSync(db: Db, ops: seq<Op>)
    requires Synced(db) && WellKeyed(db) && IndexableRun(db, ops)
    ensures Synced(Run(db, ops))
    decreases |ops|
  {
    if ops != [] {
      ApplyKeepsSync(db, ops[0]);
      ApplyKeeps(db, ops[0]);
      RunKeepsSync(Apply(db, ops[0]).db, ops[1..]);
    }
  }

  // ---- Search ----

  predicate InProject(stored: Option<string>, wanted: Option<string>) {
    wanted.None? || stored.None? || stored == wanted
  }

  /** The project id of a payload or of a request, without its blanks. */
  ghost predicate IsProject(given: Option<string>, project: Option<string>) {
    match given
    case None => project == None
    case Some(p) => project == if Trim(p) == "" then None else Some(Trim(p))
  }

  /** The node rows a search should find: scanned directly, no index involved. */
  ghost function Hits(db: Db, agent: string, matches: Node -> bool, wanted: Option<string>): set<Uuid> {
    set id | id in db.nodes && db.nodes[id].payload.agentId == agent && matches(db.nodes[id].payload)
             && (wanted.None? || IsProject(db.nodes[id].payload.projectId, None)
                 || IsProject(db.nodes[id].payload.projectId, wanted))
  }

  /** `ids` are `hits` newest first, cut to the `cap` newest. */
  ghost predicate Newest(db: Db, hits: set<Uuid>, cap: nat, ids: seq<Uuid>)
    requires hits <= db.nodes.Keys
  {
    && Distinct(ids) && Elems(ids) <= hits
    && |ids| == Min(cap, |hits|)
    && (forall i, j :: 0 <= i < j < |ids| ==> db.nodes[ids[i]].timestamp >= db.nodes[ids[j]].timestamp)
    && (forall i, id :: 0 <= i < |ids| && id in hits && id !in ids ==>
          db.nodes[ids[i]].timestamp >= db.nodes[id].timestamp)
  }

  /** Every episode row is filed under the episode's own time. */
  ghost predicate EpisodesTimed(db: Db) {
    forall id :: id in db.nodes && db.nodes[id].payload.nodeType.Episode? ==>
                   db.nodes[id].timestamp == db.nodes[id].payload.nodeType.timestamp
  }

  lemma EpisodesComeNewestFirst(db: Db, out: seq<Node>)
    requires EpisodesTimed(db) && NewestFirst(db, Ids(out))
    requires forall n :: n in out ==> n.id in db.nodes && n == Decoded(db.nodes[n.id].payload)
    ensures forall i, j :: 0 <= i < j < |out| && out[i].nodeType.Episode? && out[j].nodeType.Episode? ==>
                             out[i].nodeType.timestamp >= out[j].nodeType.timestamp
  {
    forall i | 0 <= i < |out| && out[i].nodeType.Episode?
      ensures db.nodes[Ids(out)[i]].timestamp == out[i].nodeType.timestamp
    {
      assert out[i] in out;
    }
  }

  function Joined(db: Db, agent: string, matches: Node -> bool, project: Option<string>): FtsRow -> bool {
    (f: FtsRow) => f.nodeId in db.nodes && f.agentId == agent && InProject(f.projectId, project) && matches(f.body)
  }

  ghost predicate NewestFirst(db: Db, ids: seq<Uuid>) {
    && (forall id :: id in ids ==> id in db.nodes)
    && (forall i, j :: 0 <= i < j < |ids| ==> db.nodes[ids[i]].timestamp >= db.nodes[ids[j]].timestamp)
  }

  /** Index rows joined with node rows and filtered, ordered by the node's timestamp, cut to
      the limit.  `query` is None when it has no search term. */
  method SearchAllNodes(db: Db, agent: string, query: Option<Node -> bool>, project: Option<string>, limit: nat)
    returns (out: seq<Node>)
    requires WellKeyed(db)
    ensures forall n :: n in out ==> n.id in db.nodes && n == Decoded(db.nodes[n.id].payload)
    ensures query.None? || IsBlank(agent) ==> out == []
    ensures Synced(db) && query.Some? && !IsBlank(agent) ==>
              forall wanted :: IsProject(project, wanted) ==>
                                 Newest(db, Hits(db, agent, query.value, wanted), Min(Max(limit, 1), 200), Ids(out))
    ensures EpisodesTimed(db) ==>
              forall i, j :: 0 <= i < j < |out| && out[i].nodeType.Episode? && out[j].nodeType.Episode? ==>
                               out[i].nodeType.timestamp >= out[j].nodeType.timestamp
  {
    hide Synced, Newest, NewestFirst, Hits, Filter, RowIds, IsBlank, TrimmedProject, IsProject, EpisodesTimed;
    out := [];
    if query.None? || IsBlank(agent) {
      return;
    }
    var sorted := SelectNewest(db, Joined(db, agent, query.value, TrimmedProject(project)));
    var cap := Min(Max(limit, 1), 200);
    var cut := sorted[..Min(cap, |sorted|)];
    CutStored(db, sorted, Min(cap, |sorted|));
    out := DecodeAll(db, cut);
    assert Ids(out) == cut;
    if Synced(db) {
      ProjectIsTrimmed(project);
      SearchIsExact(db, agent, query.value, TrimmedProject(project), sorted, cap);
    }
    if EpisodesTimed(db) {
      EpisodesComeNewestFirst(db, out);
    }
  }

  lemma CutStored(db: Db, sorted: seq<Uuid>, k: nat)
    requires NewestFirst(db, sorted) && k <= |sorted|
    ensures NewestFirst(db, sorted[..k]) && forall id :: id in sorted[..k] ==> id in db.nodes
  {
  }

  lemma ProjectIsTrimmed(given: Option<string>)
    ensures forall p :: IsProject(given, p) <==> p == TrimmedProject(given)
  {
  }

  function DecodeAll(db: Db, ids: seq<Uuid>): (r: seq<Node>)
    requires forall id :: id in ids ==> id in db.nodes
    ensures |r| == |ids|
    ensures forall i :: 0 <= i < |ids| ==> r[i] == Decoded(db.nodes[ids[i]].payload)
  {
    seq(|ids|, i requires 0 <= i < |ids| => Decoded(db.nodes[ids[i]].payload))
  }

  /** The `WHERE` and `ORDER BY n.timestamp DESC` of the search. */
  method SelectNewest(db: Db, hit: FtsRow -> bool) returns (sorted: seq<Uuid>)
    requires forall f :: hit(f) ==> f.nodeId in db.nodes
    ensures NewestFirst(db, sorted)
    ensures multiset(sorted) == multiset(RowIds(Filter(db.fts, hit)))
  {
    hide NewestFirst, Filter, RowIds;
    sorted := [];
    NothingIsSorted(db, hit);
    for i := 0 to |db.fts|
      invariant NewestFirst(db, sorted)
      invariant multiset(sorted) == multiset(RowIds(Filter(db.fts[..i], hit)))
    {
      FilterStep(db.fts, i, hit);
      if hit(db.fts[i]) {
        sorted := InsertNewest(db, sorted, db.fts[i].nodeId);
        RowIdsSnoc(Filter(db.fts[..i], hit), db.fts[i]);
      }
    }
    assert db.fts[..|db.fts|] == db.fts;
  }

  lemma NothingIsSorted(db: Db, hit: FtsRow -> bool)
    ensures NewestFirst(db, []) && RowIds(Filter(db.fts[..0], hit)) == []
  {
  }

  lemma RowIdsSnoc(rows: seq<FtsRow>, f: FtsRow)
    ensures RowIds(rows + [f]) == RowIds(rows) + [f.nodeId]
    ensures multiset(RowIds(rows + [f])) == multiset(RowIds(rows)) + multiset{f.nodeId}
  {
    assert (rows + [f])[..|rows|] == rows;
  }

  function RowIds(rows: seq<FtsRow>): seq<Uuid> {
    if rows == [] then [] else RowIds(rows[..|rows| - 1]) + [rows[|rows| - 1].nodeId]
  }

  method InsertNewest(db: Db, ids: seq<Uuid>, id: Uuid) returns (r: seq<Uuid>)
    requires NewestFirst(db, ids) && id in db.nodes
    ensures NewestFirst(db, r) && multiset(r) == multiset(ids) + multiset{id}
  {
    var k := 0;
    while k < |ids| && db.nodes[ids[k]].timestamp >= db.nodes[id].timestamp
      invariant 0 <= k <= |ids|
      invariant forall i :: 0 <= i < k ==> db.nodes[ids[i]].timestamp >= db.nodes[id].timestamp
    {
      k := k + 1;
    }
    r := ids[..k] + [id] + ids[k..];
    InsertedNewest(db, ids, id, k);
  }

  lemma InsertedMultiset(ids: seq<Uuid>, id: Uuid, k: nat)
    requires k <= |ids|
    ensures multiset(ids[..k] + [id] + ids[k..]) == multiset(ids) + multiset{id}
  {
    assert ids == ids[..k] + ids[k..];
  }

  lemma InsertedNewest(db: Db, ids: seq<Uuid>, id: Uuid, k: nat)
    requires NewestFirst(db, ids) && id in db.nodes && k <= |ids|
    requires forall i :: 0 <= i < k ==> db.nodes[ids[i]].timestamp >= db.nodes[id].timestamp
    requires k < |ids| ==> db.nodes[ids[k]].timestamp < db.nodes[id].timestamp
    ensures var r := ids[..k] + [id] + ids[k..];
            NewestFirst(db, r) && multiset(r) == multiset(ids) + multiset{id}
  {
    InsertedMultiset(ids, id, k);
    var r := ids[..k] + [id] + ids[k..];
    forall x | x in r ensures x in db.nodes {
      assert x == id || x in ids;
    }
    forall i, j | 0 <= i < j < |r| ensures db.nodes[r[i]].timestamp >= db.nodes[r[j]].timestamp {
      if j < k {
        assert r[i] == ids[i] && r[j] == ids[j];
      } else if j == k {
        assert r[i] == ids[i] && r[j] == id;
      } else if i == k {
        assert r[i] == id && r[j] == ids[j - 1];
      } else {
        assert r[i] == ids[if i < k then i else i - 1] && r[j] == ids[j - 1];
      }
    }
  }

  lemma {:induction false} RowIdsAt(rows: seq<FtsRow>)
    ensures |RowIds(rows)| == |rows|
    ensures forall i :: 0 <= i < |rows| ==> RowIds(rows)[i] == rows[i].nodeId
  {
    if rows != [] {
      RowIdsAt(rows[..|rows| - 1]);
    }
  }

  /** The hits, told with the project column. */
  lemma HitsByColumn(db: Db, agent: string, matches: Node -> bool, project: Option<string>)
    ensures forall id :: id in Hits(db, agent, matches, project) <==>
                         id in db.nodes && db.nodes[id].payload.agentId == agent && matches(db.nodes[id].payload)
                         && InProject(TrimmedProject(db.nodes[id].payload.projectId), project)
  {
    hide IsProject, TrimmedProject;
    forall id | id in db.nodes
      ensures forall q :: IsProject(db.nodes[id].payload.projectId, q) <==> q == TrimmedProject(db.nodes[id].payload.projectId)
    {
      ProjectIsTrimmed(db.nodes[id].payload.projectId);
    }
  }

  /** On an agreeing store the joined rows are the hits of a direct scan, each once. */
  lemma JoinIsScan(db: Db, agent: string, matches: Node -> bool, project: Option<string>)
    requires Synced(db) && WellKeyed(db)
    ensures var ids := RowIds(Filter(db.fts, Joined(db, agent, matches, project)));
            Distinct(ids) && Elems(ids) == Hits(db, agent, matches, project)
  {
    HitsByColumn(db, agent, matches, project);
    var p := Joined(db, agent, matches, project);
    var rows := Filter(db.fts, p);
    var ids := RowIds(rows);
    FilterKeepsOnePerNode(db.fts, p);
    RowIdsAt(rows);
    hide Hits;
    forall id ensures id in ids <==> id in Hits(db, agent, matches, project) {
      if id in ids {
        var i :| 0 <= i < |ids| && ids[i] == id;
        assert rows[i] in rows && rows[i].nodeId == id;
      }
      if id in Hits(db, agent, matches, project) {
        var f := FtsFor(db.nodes[id].payload);
        assert f in rows;
        var i :| 0 <= i < |rows| && rows[i] == f;
        assert ids[i] == id;
      }
    }
  }

  lemma SearchIsExact(db: Db, agent: string, matches: Node -> bool, project: Option<string>, sorted: seq<Uuid>, cap: nat)
    requires Synced(db) && WellKeyed(db) && NewestFirst(db, sorted)
    requires multiset(sorted) == multiset(RowIds(Filter(db.fts, Joined(db, agent, matches, project))))
    ensures Newest(db, Hits(db, agent, matches, project), cap, sorted[..Min(cap, |sorted|)])
  {
    JoinIsScan(db, agent, matches, project);
    PermutationIsDistinct(RowIds(Filter(db.fts, Joined(db, agent, matches, project))), sorted);
    CutIsNewest(db, Hits(db, agent, matches, project), sorted, cap);
  }

  lemma CutIsNewest(db: Db, hits: set<Uuid>, sorted: seq<Uuid>, cap: nat)
    requires hits <= db.nodes.Keys && NewestFirst(db, sorted)
    requires Distinct(sorted) && Elems(sorted) == hits
    ensures Newest(db, hits, cap, sorted[..Min(cap, |sorted|)])
  {
    var cut := sorted[..Min(cap, |sorted|)];
    DistinctCardinality(sorted);
    assert forall m :: 0 <= m < |cut| ==> cut[m] == sorted[m] && sorted[m] in cut;
    forall i, id | 0 <= i < |cut| && id in hits && id !in cut
      ensures db.nodes[cut[i]].timestamp >= db.nodes[id].timestamp
    {
      assert id in Elems(sorted);
      var j :| 0 <= j < |sorted| && sorted[j] == id;
      assert j >= |cut|;
    }
  }
}
