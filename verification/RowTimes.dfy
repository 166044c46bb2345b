/** The columns of the node table that are derived from the payload, over whole runs. */
module RowTimes {
  import opened Wrappers
  import opened Text
  import opened GraphModel
  import opened GraphIntegrity
  import opened FtsIndex

  /** The clock of an operation. */
  function Clock(op: Op): int {
    match op
    case WriteNode(_, at) => at
    case WriteNodeWithEdges(_, at) => at
    case ImportSnapshot(_, _, at) => at
    case _ => 0
  }

  /** The operation writes the row of `id`: a plain write always does, even one that fails on an
      edge; a checked write when it succeeds; an import when it succeeds and the row is missing. */
  ghost predicate Writes(db: Db, op: Op, id: Uuid) {
    match op
    case WriteNode(n, _) => n.id == id
    case WriteNodeWithEdges(n, _) => n.id == id && Apply(db, op).outcome.Done?
    case ImportSnapshot(s, _, _) => id !in db.nodes && id in NodeIds(s.nodes) && Apply(db, op).outcome.Done?
    case _ => false
  }

  /** The clock of the last operation of a run that wrote the row. */
  ghost function LastClock(db: Db, ops: seq<Op>, id: Uuid): Option<int>
    decreases |ops|
  {
    if ops == [] then None
    else
      var later := LastClock(Apply(db, ops[0]).db, ops[1..], id);
      if later.Some? then later else if Writes(db, ops[0], id) then Some(Clock(ops[0])) else None
  }

  /** The columns of a row: an episode, a runtime state, a trajectory and a failure carry their own
      time, any other row the clock of its write; and the project id without its blanks. */
  predicate HasOwnColumns(row: NodeRow, clock: int) {
    && (match row.payload.nodeType
        case Episode(timestamp, _, _) => row.timestamp == timestamp
        case Runtime(state) => row.timestamp == state.updatedAt
        case Trajectory(recordedAt, _) => row.timestamp == recordedAt
        case Failure(failedAt, _) => row.timestamp == failedAt
        case Semantic(_) => row.timestamp == clock
        case Procedure(_) => row.timestamp == clock
        case Persona(_) => row.timestamp == clock)
    && (match row.payload.projectId
        case None => row.projectId == None
        case Some(p) => row.projectId == if Trim(p) == "" then None else Some(Trim(p)))
  }

  lemma WrittenColumns(n: Node, now: int)
    ensures RowFor(n, now).payload == n && HasOwnColumns(RowFor(n, now), now)
  {
  }

  lemma {:induction false} ImportedColumns(db: Db, nodes: seq<Node>, now: int, id: Uuid)
    requires id !in db.nodes && id in NodeIds(nodes)
    ensures var r := ImportNodes(db, nodes, now); id in r.nodes && HasOwnColumns(r.nodes[id], now)
    decreases |nodes|
  {
    hide ImportNode, HasOwnColumns, RowFor;
    var first := ImportNode(db, nodes[0], now);
    ImportNodeGrows(db, nodes[0], now);
    assert nodes == [nodes[0]] + nodes[1..];
    if nodes[0].id == id {
      WrittenColumns(nodes[0], now);
      ImportNodesGrows(first, nodes[1..], now);
    } else {
      ImportedColumns(first, nodes[1..], now, id);
    }
  }

  /** One operation gives the row it writes its own columns and leaves every other row alone. */
  lemma OneWrite(db: Db, op: Op, id: Uuid)
    requires id in Apply(db, op).db.nodes
    ensures var r := Apply(db, op).db;
            if Writes(db, op, id) then HasOwnColumns(r.nodes[id], Clock(op)) else id in db.nodes && r.nodes[id] == db.nodes[id]
  {
    hide PersistNode, HasOwnColumns, RowFor;
    match op
    case WriteNode(n, at) =>
      WriteTouchesOneRow(db, n, at);
      WrittenColumns(n, at);
    case WriteNodeWithEdges(n, at) =>
      WriteTouchesOneRow(db, n, at);
      CheckedWriteExact(db, n, at);
      WrittenColumns(n, at);
    case ImportSnapshot(s, allowDangling, at) =>
      ImportNodesGrows(db, s.nodes, at);
      ImportEdgesExact(ImportNodes(db, s.nodes, at), s.edges, !allowDangling);
      assert id in ImportNodes(db, s.nodes, at).nodes.Keys <==> id in db.nodes.Keys + NodeIds(s.nodes);
      if Writes(db, op, id) {
        ImportedColumns(db, s.nodes, at, id);
      }
    case _ =>
  }

  /** In every run, imports and failing operations included, each row that the run wrote carries its
      own columns by the clock of its last write, and each other row is as it was. */
  lemma {:induction false} RowTimesAreExact(db: Db, ops: seq<Op>, id: Uuid)
    requires id in Run(db, ops).nodes
    ensures var row := Run(db, ops).nodes[id];
            match LastClock(db, ops, id)
            case Some(clock) => HasOwnColumns(row, clock)
            case None => id in db.nodes && row == db.nodes[id]
    decreases |ops|
  {
    hide HasOwnColumns, Writes, Apply;
    if ops != [] {
      var next := Apply(db, ops[0]).db;
      RowTimesAreExact(next, ops[1..], id);
      if id in next.nodes {
        OneWrite(db, ops[0], id);
      }
    }
  }

  /** Episodes are filed under their own times in every run that starts from such a store, an empty
      one for instance: what `SearchAllNodes` needs to list them newest first. */
  lemma RunKeepsEpisodesTimed(db: Db, ops: seq<Op>)
    requires EpisodesTimed(db)
    ensures EpisodesTimed(Run(db, ops))
  {
    hide Run;
    forall id | id in Run(db, ops).nodes && Run(db, ops).nodes[id].payload.nodeType.Episode?
      ensures Run(db, ops).nodes[id].timestamp == Run(db, ops).nodes[id].payload.nodeType.timestamp
    {
      RowTimesAreExact(db, ops, id);
    }
  }
}
