/** One turn of the runtime as a function of its state and of everything the outside world
    contributes: row scan orders, minted ids, the clock, and which writes fail. */
module TurnModel {
  import opened Wrappers
  import opened Bounds
  import opened Collections
  import opened GraphModel
  import opened GraphValidation

  /** The turn counter wraps here. */
  const U64: nat := U64_MAX + 1

  const EMIT_TO := "EMIT_TO"

  const TRAJECTORY_OF := "trajectory_of"

  /** `stateId` is the agent's stable (version 5) row id for runtime state. */
  datatype Config = Config(
    agentId: string,
    stateId: Uuid,
    maxDelegationDepth: nat,
    graphMemory: bool,
    maxSteps: nat,
    extractionInterval: nat)

  /** `depth` counts the turns in progress; `cache` is the persona text kept in memory. */
  datatype State = State(
    db: Db,
    turnCount: nat,
    lastExtraction: nat,
    cache: Option<string>,
    depth: nat)

  /** What the world decides in one turn. */
  datatype World = World(
    personaOrder: seq<Uuid>,        // scan order of the persona rows
    patchOrder: seq<Uuid>,          // scan order of the active patches
    frame: set<string>,             // keys bound in the turn's frame
    episodeId: Option<Uuid>,        // None when the episode write fails
    episodeBody: string,
    emitTargets: seq<Uuid>,
    trajectory: Option<TrajectoryIds>,  // None when trajectories are switched off
    passWrites: Option<seq<Node>>,  // rows the extraction pass writes; None when it is forced to fail
    stateWriteOk: bool,
    now: int)

  datatype TrajectoryIds = TrajectoryIds(nodeId: Uuid, rowId: Uuid, body: string)

  datatype Reason = DepthExceeded | NoAgent | InvalidGraph

  datatype TurnOutcome =
    | Rejected(reason: Reason)
    | MemoryDisabled
    | StepLimited(limited: Option<string>, steps: nat)
    | Recorded(persona: Option<string>, number: nat, extracted: bool, dispatched: nat)

  datatype TurnResult = TurnResult(state: State, outcome: TurnOutcome)

  // ---- Persona text ----

  function PersonaRows(db: Db, agent: string): map<Uuid, NodeRow> {
    map id | id in db.nodes && db.nodes[id].payload.nodeType.Persona? && db.nodes[id].payload.agentId == agent
      :: db.nodes[id]
  }

  function Line(p: PersonaFields): string {
    "- " + p.traitName + " (strength " + p.strength + ", layer " + p.layer + ", source " + p.source + ")"
  }

  function PersonaLines(nodes: seq<Node>): seq<string> {
    if nodes == [] then []
    else (if nodes[0].nodeType.Persona? then [Line(nodes[0].nodeType.persona)] else []) + PersonaLines(nodes[1..])
  }

  function JoinLines(lines: seq<string>): string {
    if lines == [] then "" else if |lines| == 1 then lines[0] else lines[0] + "\n" + JoinLines(lines[1..])
  }

  function CompilePersona(nodes: seq<Node>): Option<string> {
    var lines := PersonaLines(nodes);
    if lines == [] then None else Some(JoinLines(lines))
  }

  /** The rows in the order a scan returns them. */
  function Scanned(rows: map<Uuid, NodeRow>, order: seq<Uuid>): seq<Node> {
    if order == [] then []
    else (if order[0] in rows then [Decoded(rows[order[0]].payload)] else []) + Scanned(rows, order[1..])
  }

  /** The persona text that a scan of these rows compiles to; the query promises no order. */
  function CompileRows(rows: map<Uuid, NodeRow>, order: seq<Uuid>): Option<string> {
    CompilePersona(Scanned(rows, order))
  }

  // ---- Patch dispatch ----

  datatype Skip =
    | NotProcedural | ZeroVersion | Retired | MissingRead(key: string) | RowGone | PersistFailed

  datatype Dispatch = Dispatched(after: real) | Skipped(skip: Skip)

  datatype DispatchEffect = DispatchEffect(db: Db, result: Dispatch)

  function FitnessAfter(fitness: Option<real>): real {
    0.2 + 0.8 * (if fitness.Some? then fitness.value else 0.5)
  }

  function FirstUnbound(keys: seq<string>, frame: set<string>): Option<string> {
    if keys == [] then None else if keys[0] !in frame then Some(keys[0]) else FirstUnbound(keys[1..], frame)
  }

  function WithFitness(n: Node, f: real): Node {
    if n.nodeType.Procedure? then n.(nodeType := Procedure(n.nodeType.procedural.(fitness := Some(f)))) else n
  }

  /** Refused patches touch nothing.  Otherwise the row is read back, given the new fitness
      and written; a write that fails is reported as skipped. */
  function DispatchOne(db: Db, n: Node, frame: set<string>, now: int): DispatchEffect {
    if !n.nodeType.Procedure? then DispatchEffect(db, Skipped(NotProcedural))
    else
      var p := n.nodeType.procedural;
      if p.patchVersion == 0 then DispatchEffect(db, Skipped(ZeroVersion))
      else if p.retired then DispatchEffect(db, Skipped(Retired))
      else match FirstUnbound(p.declaredReads, frame)
        case Some(key) => DispatchEffect(db, Skipped(MissingRead(key)))
        case None =>
          var after := FitnessAfter(p.fitness);
          if n.id !in db.nodes then DispatchEffect(db, Skipped(RowGone))
          else
            var e := PersistNode(db, WithFitness(Decoded(db.nodes[n.id].payload), after), now);
            DispatchEffect(e.db, if e.outcome.Done? then Dispatched(after) else Skipped(PersistFailed))
  }

  datatype DispatchAll = DispatchAll(db: Db, dispatched: nat)

  function DispatchPatches(db: Db, patches: seq<Node>, frame: set<string>, now: int): DispatchAll
    decreases |patches|
  {
    if patches == [] then DispatchAll(db, 0)
    else
      var e := DispatchOne(db, patches[0], frame, now);
      var rest := DispatchPatches(e.db, patches[1..], frame, now);
      DispatchAll(rest.db, rest.dispatched + if e.result.Dispatched? then 1 else 0)
  }

  predicate IsActivePatch(db: Db, agent: string, id: Uuid) {
    && id in db.nodes && db.nodes[id].payload.agentId == agent
    && db.nodes[id].payload.nodeType.Procedure? && !db.nodes[id].payload.nodeType.procedural.retired
  }

  /** The active patches of the agent in scan order. */
  function ActivePatches(db: Db, agent: string, order: seq<Uuid>): seq<Node> {
    if order == [] then []
    else if IsActivePatch(db, agent, order[0])
    then [Decoded(db.nodes[order[0]].payload)] + ActivePatches(db, agent, order[1..])
    else ActivePatches(db, agent, order[1..])
  }

  // ---- Recording ----

  function EpisodeNode(cfg: Config, id: Uuid, w: World): Node {
    Node(id, cfg.agentId, None, Episode(w.now, [], w.episodeBody), [])
  }

  /** Each emit target is tried; a missing one is only a warning. */
  function EmitEdges(db: Db, episode: Uuid, targets: seq<Uuid>): Db
    decreases |targets|
  {
    if targets == [] then db
    else EmitEdges(InsertEdgeChecked(db, EdgeKey(episode, targets[0], EMIT_TO)).db, episode, targets[1..])
  }

  function TrajectoryNode(cfg: Config, t: TrajectoryIds, w: World): Node {
    Node(t.nodeId, cfg.agentId, None, Trajectory(w.now, t.body), [])
  }

  /** Graph node, then its edge to the episode, then the detail row; stop at the first error. */
  function PersistTrajectory(cfg: Config, db: Db, episode: Uuid, t: TrajectoryIds, w: World): Db {
    var written := PersistNode(db, TrajectoryNode(cfg, t, w), w.now);
    if written.outcome.Failed? then written.db
    else
      var linked := InsertEdgeChecked(written.db, EdgeKey(t.nodeId, episode, TRAJECTORY_OF));
      if linked.outcome.Failed? then linked.db
      else InsertTrajectory(linked.db, t.rowId, TrajectoryRow(episode, cfg.agentId, w.now, t.body)).db
  }

  function RecordTurn(cfg: Config, db: Db, w: World): Db {
    match w.episodeId
    case None => db
    case Some(ep) =>
      var emitted := EmitEdges(PersistNode(db, EpisodeNode(cfg, ep, w), w.now).db, ep, w.emitTargets);
      match w.trajectory
      case None => emitted
      case Some(t) => PersistTrajectory(cfg, emitted, ep, t, w)
  }

  function WriteAll(db: Db, nodes: seq<Node>, now: int): Db
    decreases |nodes|
  {
    if nodes == [] then db else WriteAll(PersistNode(db, nodes[0], now).db, nodes[1..], now)
  }

  function StateNode(cfg: Config, turn: nat, last: nat, cache: Option<string>, now: int): Node {
    Node(cfg.stateId, cfg.agentId, None, Runtime(RuntimeState(cfg.agentId, turn, last, cache, now)), [])
  }

  // ---- The turn ----

  function Extract(cfg: Config, s: State, w: World): State {
    match w.passWrites
    case None => s.(lastExtraction := s.turnCount)
    case Some(nodes) => s.(db := WriteAll(s.db, nodes, w.now), cache := None, lastExtraction := s.turnCount)
  }

  /** `turn_count - last_extraction_at_turn` saturates at zero. */
  predicate ExtractionDue(cfg: Config, turn: nat, last: nat) {
    cfg.extractionInterval > 0 && Max(turn - last, 0) >= cfg.extractionInterval
  }

  function Finish(cfg: Config, s: State, w: World, dispatched: nat, persona: Option<string>): TurnResult {
    var counted := s.(db := RecordTurn(cfg, s.db, w), turnCount := (s.turnCount + 1) % U64);
    var due := ExtractionDue(cfg, counted.turnCount, counted.lastExtraction);
    var t := if due then Extract(cfg, counted, w) else counted;
    var saved := if w.stateWriteOk
                 then PersistNode(t.db, StateNode(cfg, t.turnCount, t.lastExtraction, t.cache, w.now), w.now).db
                 else t.db;
    TurnResult(t.(db := saved), Recorded(persona, t.turnCount, due, dispatched))
  }

  function Contribution(cfg: Config, s: State, w: World): Option<string> {
    if s.cache.Some? then s.cache else CompileRows(PersonaRows(s.db, cfg.agentId), w.personaOrder)
  }

  function Turn(cfg: Config, s: State, w: World): TurnResult {
    if s.depth >= cfg.maxDelegationDepth then TurnResult(s, Rejected(DepthExceeded))
    else if !cfg.graphMemory then TurnResult(s, MemoryDisabled)
    else if cfg.agentId == "" then TurnResult(s, Rejected(NoAgent))
    else if !GatePasses(s.db, cfg.agentId) then TurnResult(s, Rejected(InvalidGraph))
    else
      var persona := Contribution(cfg, s, w);
      var d := DispatchPatches(s.db, ActivePatches(s.db, cfg.agentId, w.patchOrder), w.frame, w.now);
      var s1 := s.(db := d.db, cache := persona);
      if d.dispatched >= cfg.maxSteps then TurnResult(s1, StepLimited(persona, d.dispatched))
      else Finish(cfg, s1, w, d.dispatched, persona)
  }

  /** The pre-turn validation finds no dangling edge of this agent. */
  predicate GatePasses(db: Db, agent: string) {
    forall k :: k in db.edges && (k.source in AgentNodes(db, agent) || k.target in AgentNodes(db, agent)) ==>
                  EndpointsExist(db, k)
  }

  // ---- Restart ----

  predicate IsStateRow(db: Db, agent: string, id: Uuid) {
    && id in db.nodes && db.nodes[id].payload.nodeType.Runtime?
    && db.nodes[id].payload.nodeType.state.agentId == agent
  }

  /** `id` may be the row that `ORDER BY timestamp DESC LIMIT 1` returns. */
  predicate IsNewestState(db: Db, agent: string, id: Uuid) {
    && IsStateRow(db, agent, id)
    && forall other :: other in db.nodes && IsStateRow(db, agent, other) ==>
                         db.nodes[other].timestamp <= db.nodes[id].timestamp
  }

  /** A new runtime over the same database, restoring from `row` if there is one. */
  function Boot(cfg: Config, db: Db, row: Option<Uuid>): State
    requires row.Some? ==> IsStateRow(db, cfg.agentId, row.value)
  {
    if cfg.agentId == "" || row.None? then State(db, 0, 0, None, 0)
    else
      var st := db.nodes[row.value].payload.nodeType.state;
      State(db, st.turnCount, st.lastExtractionAtTurn, st.personaSnapshot, 0)
  }
}
