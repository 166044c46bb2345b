/** The four tables of the graph database as a value, and the SQL statements that
    the store issues against them.

    Rows hold the node that was serialised.  Reading a row decodes it, and decoding
    normalises the project id (`Decoded`), so a decode does not give back every
    node exactly as it was written. */
module GraphModel {
  import opened Wrappers
  import opened Text
  import opened Collections
  import opened Contracts

  type Uuid = nat

  /** `artifact` is what the bytes of `compiled_graph` decode to, if they decode. */
  datatype Procedural = Procedural(
    labelName: string,
    patternName: string,
    patchVersion: nat,
    retired: bool,
    declaredReads: seq<string>,
    fitness: Option<real>,
    observationCount: nat,
    promptEligible: bool,
    artifact: Option<Artifact>)

  datatype RuntimeState = RuntimeState(
    agentId: string,
    turnCount: nat,
    lastExtractionAtTurn: nat,
    personaSnapshot: Option<string>,
    updatedAt: int)

  datatype SemanticFields = SemanticFields(
    referenceCount: nat, lastRefSnapshot: nat, recurrence: nat, topic: Option<string>, factBody: string)

  /** `strength`, `layer` and `source` as they are printed. */
  datatype PersonaFields = PersonaFields(
    traitName: string, strength: string, layer: string, source: string,
    cycle: nat, axisScores: map<string, real>, dominantAxes: seq<string>)

  datatype NodeType =
    | Episode(timestamp: int, emitted: seq<string>, episodeBody: string)
    | Semantic(semantic: SemanticFields)
    | Procedure(procedural: Procedural)
    | Persona(persona: PersonaFields)
    | Runtime(state: RuntimeState)
    | Trajectory(recordedAt: int, trajectoryBody: string)
    | Failure(failedAt: int, failureBody: string)

  /** An edge embedded in a node's own payload. */
  datatype Link = Link(target: Uuid, rel: string)

  datatype Node = Node(
    id: Uuid,
    agentId: string,
    projectId: Option<string>,
    nodeType: NodeType,
    links: seq<Link>)

  datatype NodeRow = NodeRow(payload: Node, timestamp: int, projectId: Option<string>)

  datatype EdgeKey = EdgeKey(source: Uuid, target: Uuid, rel: string)

  datatype EdgeRow = EdgeRow(weight: real, metadata: Option<string>)

  datatype TrajectoryRow = TrajectoryRow(
    episodeId: Uuid, agentId: string, recordedAt: int, detail: string)

  /** One full-text row; `body` is the node whose JSON text was indexed. */
  datatype FtsRow = FtsRow(nodeId: Uuid, agentId: string, projectId: Option<string>, body: Node)

  datatype Db = Db(
    nodes: map<Uuid, NodeRow>,
    edges: map<EdgeKey, EdgeRow>,
    trajectories: map<Uuid, TrajectoryRow>,
    fts: seq<FtsRow>)

  const EMPTY: Db := Db(map[], map[], map[], [])

  datatype StoreError =
    | ForeignKey
    | MissingSource(source: Uuid)
    | MissingTarget(target: Uuid)
    | UnsupportedSchema(got: string)
    | EmptyAgent

  datatype Outcome = Done | Failed(error: StoreError)

  /** A table state together with what the caller is told. */
  datatype Effect = Effect(db: Db, outcome: Outcome)

  /** The primary key of a node row is the id inside its payload. */
  ghost predicate WellKeyed(db: Db) {
    forall id :: id in db.nodes ==> db.nodes[id].payload.id == id
  }

  function Ids(ns: seq<Node>): (r: seq<Uuid>)
    ensures |r| == |ns|
    ensures forall i :: 0 <= i < |ns| ==> r[i] == ns[i].id
  {
    seq(|ns|, i requires 0 <= i < |ns| => ns[i].id)
  }

  // ---- Column values derived from a node ----

  function TrimmedProject(p: Option<string>): Option<string> {
    match p
    case None => None
    case Some(s) => if Trim(s) == "" then None else Some(Trim(s))
  }

  /** What deserialising the stored JSON of `n` yields. */
  function Decoded(n: Node): Node {
    n.(projectId := TrimmedProject(n.projectId))
  }

  lemma DecodedIdempotent(n: Node)
    ensures Decoded(Decoded(n)) == Decoded(n)
  {
    if n.projectId.Some? {
      TrimIdempotent(n.projectId.value);
    }
  }

  function NodeTimestamp(n: Node, now: int): int {
    match n.nodeType
    case Episode(t, _, _) => t
    case Runtime(s) => s.updatedAt
    case Trajectory(t, _) => t
    case Failure(t, _) => t
    case _ => now
  }

  function RowFor(n: Node, now: int): NodeRow {
    NodeRow(n, NodeTimestamp(n, now), TrimmedProject(n.projectId))
  }

  // ---- Statements ----

  /** Deleting a node row under `ON DELETE CASCADE`: incident edges go, and so do
      the trajectory rows of that episode. */
  function CascadeDelete(db: Db, id: Uuid): Db {
    db.(nodes := db.nodes - {id},
        edges := map k | k in db.edges && k.source != id && k.target != id :: db.edges[k],
        trajectories := map t | t in db.trajectories && db.trajectories[t].episodeId != id
                        :: db.trajectories[t])
  }

  /** `INSERT OR REPLACE` of a node row: a conflicting row is deleted first, with its
      cascade; delete triggers do not fire, so the full-text rows stay. */
  function ReplaceNode(db: Db, n: Node, now: int): Db {
    var base := if n.id in db.nodes then CascadeDelete(db, n.id) else db;
    base.(nodes := base.nodes[n.id := RowFor(n, now)])
  }

  predicate EndpointsExist(db: Db, k: EdgeKey) {
    k.source in db.nodes && k.target in db.nodes
  }

  /** `INSERT OR REPLACE` of an edge row with foreign keys enforced. */
  function ReplaceEdge(db: Db, k: EdgeKey, row: EdgeRow): Effect {
    if EndpointsExist(db, k) then Effect(db.(edges := db.edges[k := row]), Done)
    else Effect(db, Failed(ForeignKey))
  }

  /** The embedded edges in order; the first one that violates a foreign key stops the
      loop, and the ones before it stay. */
  function PersistLinks(db: Db, id: Uuid, links: seq<Link>): Effect
    decreases |links|
  {
    if links == [] then Effect(db, Done)
    else
      var e := ReplaceEdge(db, EdgeKey(id, links[0].target, links[0].rel), EdgeRow(1.0, None));
      if e.outcome.Failed? then e else PersistLinks(e.db, id, links[1..])
  }

  function OtherThan(id: Uuid): FtsRow -> bool {
    (f: FtsRow) => f.nodeId != id
  }

  function FtsFor(n: Node): FtsRow {
    FtsRow(n.id, n.agentId, TrimmedProject(n.projectId), n)
  }

  /** Delete the node's full-text rows, then insert one; a blank agent is not indexed. */
  function SyncFts(db: Db, n: Node): Db {
    if IsBlank(n.agentId) then db
    else db.(fts := Filter(db.fts, OtherThan(n.id)) + [FtsFor(n)])
  }

  /** `persist_node` outside a transaction: each statement commits on its own. */
  function PersistNode(db: Db, n: Node, now: int): Effect {
    var e := PersistLinks(ReplaceNode(db, n, now), n.id, n.links);
    if e.outcome.Failed? then e else Effect(SyncFts(e.db, n), Done)
  }

  predicate LinksResolve(db: Db, n: Node) {
    forall l :: l in n.links ==> l.target in db.nodes
  }

  /** `INSERT OR IGNORE` of a node row, as snapshot import does it. */
  function ImportNode(db: Db, n: Node, now: int): Db {
    if n.id in db.nodes then db
    else SyncFts(db.(nodes := db.nodes[n.id := RowFor(n, now)]), n)
  }

  /** `INSERT OR IGNORE` of an edge row.  A duplicate key is skipped before the foreign
      keys are looked at; a violation is an error, not ignored. */
  function ImportEdge(db: Db, k: EdgeKey, row: EdgeRow, enforce: bool): Effect {
    if k in db.edges then Effect(db, Done)
    else if enforce && !EndpointsExist(db, k) then Effect(db, Failed(ForeignKey))
    else Effect(db.(edges := db.edges[k := row]), Done)
  }

  function FirstMissing(db: Db, links: seq<Link>): Option<Uuid> {
    if links == [] then None
    else if links[0].target !in db.nodes then Some(links[0].target)
    else FirstMissing(db, links[1..])
  }

  /** `write_node_with_edges`: every target is looked up before anything is written, and
      the write is one transaction. */
  function PersistNodeChecked(db: Db, n: Node, now: int): Effect {
    match FirstMissing(db, n.links)
    case Some(t) => Effect(db, Failed(MissingTarget(t)))
    case None =>
      var e := PersistNode(db, n, now);
      if e.outcome.Failed? then Effect(db, e.outcome) else e
  }

  function InsertEdgeChecked(db: Db, k: EdgeKey): Effect {
    if k.source !in db.nodes then Effect(db, Failed(MissingSource(k.source)))
    else if k.target !in db.nodes then Effect(db, Failed(MissingTarget(k.target)))
    else ReplaceEdge(db, k, EdgeRow(1.0, None))
  }

  function InsertTrajectory(db: Db, id: Uuid, row: TrajectoryRow): Effect {
    if row.episodeId in db.nodes then Effect(db.(trajectories := db.trajectories[id := row]), Done)
    else Effect(db, Failed(ForeignKey))
  }

  /** The agent's detail rows from before a point in time. */
  function Outdated(db: Db, agent: string, before: int): set<Uuid> {
    set t | t in db.trajectories && db.trajectories[t].agentId == agent && db.trajectories[t].recordedAt < before
  }

  function PruneTrajectories(db: Db, agent: string, before: int): Effect {
    if IsBlank(agent) then Effect(db, Failed(EmptyAgent))
    else Effect(db.(trajectories := db.trajectories - Outdated(db, agent, before)), Done)
  }

  /** The one-time rebuild of a legacy edge table: only rows with both endpoints survive. */
  function MigrateEdges(nodes: map<Uuid, NodeRow>, legacy: map<EdgeKey, EdgeRow>): map<EdgeKey, EdgeRow> {
    map k | k in legacy && k.source in nodes && k.target in nodes :: legacy[k]
  }

  // ---- Snapshots ----

  const SNAPSHOT_SCHEMA_VERSION := "1.0"

  datatype SnapshotEdge = SnapshotEdge(key: EdgeKey, row: EdgeRow)

  datatype Snapshot = Snapshot(
    agentId: string, schemaVersion: string, nodes: seq<Node>, edges: seq<SnapshotEdge>)

  function ImportNodes(db: Db, nodes: seq<Node>, now: int): Db
    decreases |nodes|
  {
    if nodes == [] then db else ImportNodes(ImportNode(db, nodes[0], now), nodes[1..], now)
  }

  function ImportEdges(db: Db, edges: seq<SnapshotEdge>, enforce: bool): Effect
    decreases |edges|
  {
    if edges == [] then Effect(db, Done)
    else
      var e := ImportEdge(db, edges[0].key, edges[0].row, enforce);
      if e.outcome.Failed? then e else ImportEdges(e.db, edges[1..], enforce)
  }

  /** One transaction: a failure rolls everything back. */
  function Import(db: Db, s: Snapshot, allowDangling: bool, now: int): Effect {
    if s.schemaVersion != SNAPSHOT_SCHEMA_VERSION then Effect(db, Failed(UnsupportedSchema(s.schemaVersion)))
    else
      var e := ImportEdges(ImportNodes(db, s.nodes, now), s.edges, !allowDangling);
      if e.outcome.Failed? then Effect(db, e.outcome) else e
  }
}
