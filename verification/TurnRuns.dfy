/** Safety of the turn runtime over every interleaving of turns and restarts. */
module TurnRuns {
  import opened Wrappers
  import opened Collections
  import opened GraphModel
  import opened GraphIntegrity
  import opened GraphValidation
  import opened TurnModel

  /** A restart drops the runtime object and boots a new one over the same database. */
  datatype Event = Turned(world: World) | Restarted

  /** Any row the query may return; with none, the runtime starts from zero. */
  ghost function StateRow(db: Db, agent: string): Option<Uuid> {
    if exists id :: IsNewestState(db, agent, id)
    then var id :| IsNewestState(db, agent, id); Some(id)
    else None
  }

  ghost function Reboot(cfg: Config, db: Db): State {
    Boot(cfg, db, StateRow(db, cfg.agentId))
  }

  ghost function StepEvent(cfg: Config, s: State, e: Event): State {
    match e
    case Turned(w) => Turn(cfg, s, w).state
    case Restarted => Reboot(cfg, s.db)
  }

  ghost function After(cfg: Config, s: State, events: seq<Event>): State
    decreases |events|
  {
    if events == [] then s else After(cfg, StepEvent(cfg, s, events[0]), events[1..])
  }

  /** A database this agent has never run on. */
  ghost predicate FreshDb(cfg: Config, db: Db) {
    && WellKeyed(db) && Intact(db)
    && cfg.stateId !in db.nodes
    && forall id :: id in db.nodes ==> !IsStateRow(db, cfg.agentId, id)
  }

  /** `order` is what a scan of `rows` may return: every row once. */
  ghost predicate Lists(rows: map<Uuid, NodeRow>, order: seq<Uuid>) {
    Distinct(order) && Elems(order) == rows.Keys
  }

  /** The kinds of row a pass writes, and never under `keep`. */
  ghost predicate PassRows(nodes: seq<Node>, keep: Uuid) {
    forall n :: n in nodes ==>
                  n.id != keep && (n.nodeType.Semantic? || n.nodeType.Episode? || n.nodeType.Persona?)
  }

  /** The persona scan returns the persona rows, ids minted in the turn are new, and the pass
      writes only the kinds of row it ever writes and never under the state row's id. */
  ghost predicate Plausible(cfg: Config, db: Db, w: World) {
    && Lists(PersonaRows(db, cfg.agentId), w.personaOrder)
    && (w.episodeId.Some? ==> w.episodeId.value !in db.nodes && w.episodeId.value != cfg.stateId)
    && (w.trajectory.Some? ==>
          w.trajectory.value.nodeId !in db.nodes && w.trajectory.value.nodeId != cfg.stateId
          && Some(w.trajectory.value.nodeId) != w.episodeId)
    && (w.passWrites.Some? ==> PassRows(w.passWrites.value, cfg.stateId))
  }

  ghost predicate PlausibleRun(cfg: Config, s: State, events: seq<Event>)
    decreases |events|
  {
    events == [] ||
    ((events[0].Turned? ==> Plausible(cfg, s.db, events[0].world))
     && PlausibleRun(cfg, StepEvent(cfg, s, events[0]), events[1..]))
  }

  // ---- How a node write shows in the tables ----

  /** What the recording half of a turn may do to node rows: it keeps every row except
      procedural ones, and adds only episode and trajectory rows. */
  ghost predicate KeepsRows(a: Db, b: Db) {
    && (forall id :: id in a.nodes && !a.nodes[id].payload.nodeType.Procedure? ==>
          id in b.nodes && b.nodes[id] == a.nodes[id])
    && (forall id :: id in a.nodes && a.nodes[id].payload.nodeType.Procedure? ==>
          id in b.nodes && b.nodes[id].payload.nodeType.Procedure?)
    && (forall id :: id in b.nodes && id !in a.nodes ==>
          b.nodes[id].payload.nodeType.Episode? || b.nodes[id].payload.nodeType.Trajectory?)
  }

  lemma KeepsRowsTransitive(a: Db, b: Db, c: Db)
    requires KeepsRows(a, b) && KeepsRows(b, c)
    ensures KeepsRows(a, c)
  {
  }

  lemma KeptRowsKeepPersona(a: Db, b: Db, agent: string)
    requires KeepsRows(a, b)
    ensures PersonaRows(a, agent) == PersonaRows(b, agent)
  {
  }

  lemma RowIdIsKey(db: Db, id: Uuid)
    requires WellKeyed(db) && id in db.nodes
    ensures db.nodes[id].payload.id == id
  {
  }

  lemma DispatchOneKeeps(db: Db, n: Node, frame: set<string>, now: int)
    requires WellKeyed(db) && Intact(db)
    requires n.id in db.nodes ==> db.nodes[n.id].payload.nodeType.Procedure?
    ensures var r := DispatchOne(db, n, frame, now).db;
            WellKeyed(r) && Intact(r) && KeepsRows(db, r) && r.nodes.Keys == db.nodes.Keys
  {
    hide PersistNode, WellKeyed, Intact;
    if n.id in db.nodes && n.nodeType.Procedure? {
      assert db.nodes[n.id].payload.id == n.id by {
        RowIdIsKey(db, n.id);
      }
      var m := WithFitness(Decoded(db.nodes[n.id].payload), FitnessAfter(n.nodeType.procedural.fitness));
      WriteTouchesOneRow(db, m, now);
      NodeWriteKeeps(db, m, now);
    }
  }

  /** A patch the dispatcher will run: versioned, not retired, all declared reads bound. */
  predicate Runnable(n: Node, frame: set<string>) {
    && n.nodeType.Procedure? && n.nodeType.procedural.patchVersion > 0 && !n.nodeType.procedural.retired
    && forall key :: key in n.nodeType.procedural.declaredReads ==> key in frame
  }

  /** The stored payload embeds an edge to a node that has no row. */
  predicate HasLostLink(db: Db, id: Uuid) {
    id in db.nodes && exists l :: l in db.nodes[id].payload.links && l.target !in db.nodes
  }

  lemma {:induction false} UnboundExactly(keys: seq<string>, frame: set<string>)
    ensures FirstUnbound(keys, frame).None? <==> forall key :: key in keys ==> key in frame
  {
    if keys != [] {
      UnboundExactly(keys[1..], frame);
      assert forall key :: key in keys <==> key == keys[0] || key in keys[1..];
    }
  }

  /** A dispatch is reported as not persisted exactly when the patch is runnable and its stored
      payload embeds an edge to a missing node; it is reported as dispatched exactly when the
      patch is runnable, stored, and embeds none. */
  lemma DispatchFailsIff(db: Db, n: Node, frame: set<string>, now: int)
    requires WellKeyed(db)
    ensures var d := DispatchOne(db, n, frame, now).result;
            && (d == Skipped(PersistFailed) <==> Runnable(n, frame) && HasLostLink(db, n.id))
            && (d.Dispatched? <==> Runnable(n, frame) && n.id in db.nodes && !HasLostLink(db, n.id))
  {
    hide PersistNode;
    if n.nodeType.Procedure? {
      UnboundExactly(n.nodeType.procedural.declaredReads, frame);
      if n.id in db.nodes {
        var m := WithFitness(Decoded(db.nodes[n.id].payload), FitnessAfter(n.nodeType.procedural.fitness));
        assert m.id == n.id && m.links == db.nodes[n.id].payload.links;
        WriteNodeSucceedsIff(db, m, now);
      }
    }
  }

  function StoredFitness(db: Db, id: Uuid): Option<real> {
    if id in db.nodes && db.nodes[id].payload.nodeType.Procedure? then db.nodes[id].payload.nodeType.procedural.fitness
    else None
  }

  /** Such a dispatch is reported as skipped with its fitness unchanged, yet the row carries the
      raised fitness and has lost its incoming edges. Read from its own row, the patch keeps the
      stored fitness only if that was already exactly one. */
  lemma FailedDispatchStillStores(db: Db, n: Node, frame: set<string>, now: int, k: EdgeKey)
    requires WellKeyed(db) && Runnable(n, frame) && HasLostLink(db, n.id)
    ensures var e := DispatchOne(db, n, frame, now);
            && e.result == Skipped(PersistFailed) && n.id in e.db.nodes
            && e.db.nodes[n.id].payload ==
               WithFitness(Decoded(db.nodes[n.id].payload), FitnessAfter(n.nodeType.procedural.fitness))
            && (k.target == n.id && k.source != n.id ==> k !in e.db.edges)
            && (n == Decoded(db.nodes[n.id].payload) ==>
                  (StoredFitness(e.db, n.id) == StoredFitness(db, n.id) <==> StoredFitness(db, n.id) == Some(1.0)))
  {
    DispatchFailsIff(db, n, frame, now);
    var m := WithFitness(Decoded(db.nodes[n.id].payload), FitnessAfter(n.nodeType.procedural.fitness));
    WriteTouchesOneRow(db, m, now);
    if k.target == n.id && k.source != n.id {
      StoredLinks(ReplaceNode(db, m, now), m.id, m.links, k);
    }
  }

  const LOST_PATCH: Node :=
    Node(1, "agent", None, Procedure(Procedural("patch", "patch", 1, false, [], None, 0, true, None)), [Link(2, "DERIVED_FROM")])

  /** It happens after one ordinary write: storing a patch that links to a missing node reports
      an error but leaves the row, and dispatching that row raises its fitness to 0.6 while
      reporting that nothing was persisted. */
  lemma FailedDispatchIsReachable()
    ensures var db := Run(EMPTY, [WriteNode(LOST_PATCH, 0)]);
            var e := DispatchOne(db, LOST_PATCH, {}, 0);
            && 1 in db.nodes && Decoded(db.nodes[1].payload) == LOST_PATCH && StoredFitness(db, 1) == None
            && e.result == Skipped(PersistFailed) && StoredFitness(e.db, 1) == Some(0.6)
  {
    var op := WriteNode(LOST_PATCH, 0);
    assert Run(EMPTY, [op]) == Run(Apply(EMPTY, op).db, [op][1..]) == Apply(EMPTY, op).db;
    var db := Run(EMPTY, [op]);
    WriteTouchesOneRow(EMPTY, LOST_PATCH, 0);
    NodeWriteKeeps(EMPTY, LOST_PATCH, 0);
    assert LOST_PATCH.links[0] in LOST_PATCH.links && LOST_PATCH.links[0].target == 2;
    hide DispatchOne, PersistNode;
    FailedDispatchStillStores(db, LOST_PATCH, {}, 0, EdgeKey(0, 0, ""));
  }

  lemma {:induction false} DispatchPatchesKeeps(db: Db, patches: seq<Node>, frame: set<string>, now: int)
    requires WellKeyed(db) && Intact(db)
    requires forall n :: n in patches ==> n.id in db.nodes && db.nodes[n.id].payload.nodeType.Procedure?
    ensures var r := DispatchPatches(db, patches, frame, now).db;
            WellKeyed(r) && Intact(r) && KeepsRows(db, r) && r.nodes.Keys == db.nodes.Keys
    decreases |patches|
  {
    if patches != [] {
      var e := DispatchOne(db, patches[0], frame, now);
      DispatchOneKeeps(db, patches[0], frame, now);
      DispatchPatchesKeeps(e.db, patches[1..], frame, now);
      KeepsRowsTransitive(db, e.db, DispatchPatches(e.db, patches[1..], frame, now).db);
    }
  }

  lemma {:induction false} ActivePatchesStored(db: Db, agent: string, order: seq<Uuid>)
    requires WellKeyed(db)
    ensures forall n :: n in ActivePatches(db, agent, order) ==>
                          n.id in db.nodes && db.nodes[n.id].payload.nodeType.Procedure?
  {
    if order != [] {
      ActivePatchesStored(db, agent, order[1..]);
    }
  }

  lemma {:induction false} EmitEdgesKeeps(db: Db, episode: Uuid, targets: seq<Uuid>)
    requires Intact(db)
    ensures var r := EmitEdges(db, episode, targets);
            Intact(r) && r.nodes == db.nodes
    decreases |targets|
  {
    if targets != [] {
      EmitEdgesKeeps(InsertEdgeChecked(db, EdgeKey(episode, targets[0], EMIT_TO)).db, episode, targets[1..]);
    }
  }

  lemma PersistTrajectoryKeeps(cfg: Config, db: Db, episode: Uuid, t: TrajectoryIds, w: World)
    requires WellKeyed(db) && Intact(db)
    ensures var r := PersistTrajectory(cfg, db, episode, t, w);
            && WellKeyed(r) && Intact(r)
            && r.nodes == db.nodes[t.nodeId := RowFor(TrajectoryNode(cfg, t, w), w.now)]
  {
    hide PersistNode;
    WriteTouchesOneRow(db, TrajectoryNode(cfg, t, w), w.now);
    NodeWriteKeeps(db, TrajectoryNode(cfg, t, w), w.now);
  }

  lemma PersistEpisodeKeeps(cfg: Config, db: Db, ep: Uuid, w: World)
    requires WellKeyed(db) && Intact(db)
    ensures var r := EmitEdges(PersistNode(db, EpisodeNode(cfg, ep, w), w.now).db, ep, w.emitTargets);
            && WellKeyed(r) && Intact(r)
            && r.nodes == db.nodes[ep := RowFor(EpisodeNode(cfg, ep, w), w.now)]
  {
    WriteTouchesOneRow(db, EpisodeNode(cfg, ep, w), w.now);
    NodeWriteKeeps(db, EpisodeNode(cfg, ep, w), w.now);
    EmitEdgesKeeps(PersistNode(db, EpisodeNode(cfg, ep, w), w.now).db, ep, w.emitTargets);
    hide PersistNode;
  }

  lemma RecordTurnKeeps(cfg: Config, db: Db, w: World)
    requires WellKeyed(db) && Intact(db) && Plausible(cfg, db, w)
    ensures var r := RecordTurn(cfg, db, w);
            WellKeyed(r) && Intact(r) && KeepsRows(db, r) && (cfg.stateId in r.nodes <==> cfg.stateId in db.nodes)
  {
    hide PersistNode, EmitEdges, WellKeyed, Intact, PersistTrajectory;
    if w.episodeId.Some? {
      var ep := w.episodeId.value;
      PersistEpisodeKeeps(cfg, db, ep, w);
      var emitted := EmitEdges(PersistNode(db, EpisodeNode(cfg, ep, w), w.now).db, ep, w.emitTargets);
      if w.trajectory.Some? {
        PersistTrajectoryKeeps(cfg, emitted, ep, w.trajectory.value, w);
      }
    }
  }

  lemma {:induction false} WriteAllKeeps(db: Db, nodes: seq<Node>, now: int, stateId: Uuid)
    requires WellKeyed(db) && Intact(db)
    requires forall n :: n in nodes ==> n.id != stateId && !n.nodeType.Runtime?
    ensures var r := WriteAll(db, nodes, now);
            && WellKeyed(r) && Intact(r)
            && (stateId in r.nodes <==> stateId in db.nodes)
            && (stateId in db.nodes ==> r.nodes[stateId] == db.nodes[stateId])
            && (forall id :: id in r.nodes && r.nodes[id].payload.nodeType.Runtime? ==>
                  id in db.nodes && r.nodes[id] == db.nodes[id])
    decreases |nodes|
  {
    if nodes != [] {
      assert nodes[0] in nodes;
      WriteTouchesOneRow(db, nodes[0], now);
      NodeWriteKeeps(db, nodes[0], now);
      WriteAllKeeps(PersistNode(db, nodes[0], now).db, nodes[1..], now, stateId);
    }
  }

  // ---- One turn ----

  /** References are intact and the agent's only state row is the one under its own id. */
  ghost predicate Sound(cfg: Config, db: Db) {
    && WellKeyed(db) && Intact(db)
    && (forall id :: id in db.nodes && IsStateRow(db, cfg.agentId, id) ==> id == cfg.stateId)
    && (cfg.stateId in db.nodes ==> IsStateRow(db, cfg.agentId, cfg.stateId))
  }

  /** The runtime state on disk. */
  ghost function Saved(cfg: Config, db: Db): Option<RuntimeState>
    requires Sound(cfg, db)
  {
    if cfg.stateId in db.nodes then Some(db.nodes[cfg.stateId].payload.nodeType.state) else None
  }

  lemma RebootReadsSaved(cfg: Config, db: Db)
    requires Sound(cfg, db) && cfg.agentId != ""
    ensures Reboot(cfg, db) ==
            match Saved(cfg, db) {
              case None => State(db, 0, 0, None, 0)
              case Some(st) => State(db, st.turnCount, st.lastExtractionAtTurn, st.personaSnapshot, 0)
            }
  {
    if cfg.stateId in db.nodes {
      assert IsNewestState(db, cfg.agentId, cfg.stateId);
    }
  }

  lemma KeptRowsKeepSaved(cfg: Config, a: Db, b: Db)
    requires Sound(cfg, a) && WellKeyed(b) && Intact(b) && KeepsRows(a, b)
    requires cfg.stateId in b.nodes ==> cfg.stateId in a.nodes
    ensures Sound(cfg, b) && Saved(cfg, a) == Saved(cfg, b)
  {
    forall id | id in b.nodes && IsStateRow(b, cfg.agentId, id) ensures id == cfg.stateId {
      if id in a.nodes {
        assert a.nodes[id].payload.nodeType.Procedure? || b.nodes[id] == a.nodes[id];
      }
    }
  }

  lemma StateWriteKeeps(cfg: Config, db: Db, n: Node, now: int)
    requires Sound(cfg, db) && n.id == cfg.stateId && n.nodeType.Runtime? && n.nodeType.state.agentId == cfg.agentId
    ensures var r := PersistNode(db, n, now).db;
            && Sound(cfg, r) && Saved(cfg, r) == Some(n.nodeType.state)
            && PersonaRows(r, cfg.agentId) == PersonaRows(db, cfg.agentId)
  {
    var r := PersistNode(db, n, now).db;
    WriteTouchesOneRow(db, n, now);
    NodeWriteKeeps(db, n, now);
    assert PersonaRows(r, cfg.agentId) == PersonaRows(db, cfg.agentId);
  }

  lemma PassKeepsSaved(cfg: Config, db: Db, nodes: seq<Node>, now: int)
    requires Sound(cfg, db)
    requires PassRows(nodes, cfg.stateId)
    ensures var r := WriteAll(db, nodes, now);
            Sound(cfg, r) && Saved(cfg, r) == Saved(cfg, db)
  {
    WriteAllKeeps(db, nodes, now, cfg.stateId);
  }

  lemma IntactPassesGate(db: Db, agent: string)
    requires Intact(db)
    ensures GatePasses(db, agent)
  {
  }

  /** The check at the start of a turn is the validation report's verdict. */
  lemma GateIsValidation(db: Db, agent: string, r: Report)
    requires Exact(db, agent, r)
    ensures r.isValid <==> GatePasses(db, agent)
  {
    if GatePasses(db, agent) {
      assert forall k :: k in Touching(db, agent) ==> EndpointsExist(db, k);
    } else {
      var k :| k in db.edges && (k.source in AgentNodes(db, agent) || k.target in AgentNodes(db, agent))
               && !EndpointsExist(db, k);
      assert k in Dangling(db, agent);
    }
  }

  /** Everything up to the step limit: patches aside, no row that matters is touched. */
  lemma DispatchPhase(cfg: Config, db: Db, w: World)
    requires Sound(cfg, db) && Plausible(cfg, db, w)
    ensures var d := DispatchPatches(db, ActivePatches(db, cfg.agentId, w.patchOrder), w.frame, w.now).db;
            && Sound(cfg, d) && Saved(cfg, d) == Saved(cfg, db)
            && PersonaRows(d, cfg.agentId) == PersonaRows(db, cfg.agentId)
            && Plausible(cfg, d, w)
  {
    ActivePatchesStored(db, cfg.agentId, w.patchOrder);
    DispatchPatchesKeeps(db, ActivePatches(db, cfg.agentId, w.patchOrder), w.frame, w.now);
    var d := DispatchPatches(db, ActivePatches(db, cfg.agentId, w.patchOrder), w.frame, w.now).db;
    KeptRowsKeepPersona(db, d, cfg.agentId);
    KeptRowsKeepSaved(cfg, db, d);
    assert forall id :: id in d.nodes <==> id in d.nodes.Keys;
  }

  lemma RecordPhase(cfg: Config, db: Db, w: World)
    requires Sound(cfg, db) && Plausible(cfg, db, w)
    ensures var r := RecordTurn(cfg, db, w);
            && Sound(cfg, r) && Saved(cfg, r) == Saved(cfg, db)
            && PersonaRows(r, cfg.agentId) == PersonaRows(db, cfg.agentId)
  {
    RecordTurnKeeps(cfg, db, w);
    KeptRowsKeepPersona(db, RecordTurn(cfg, db, w), cfg.agentId);
    KeptRowsKeepSaved(cfg, db, RecordTurn(cfg, db, w));
  }

  function DispatchedIn(cfg: Config, s: State, w: World): nat {
    DispatchPatches(s.db, ActivePatches(s.db, cfg.agentId, w.patchOrder), w.frame, w.now).dispatched
  }

  /** On these inputs the turn gets past the gates and the step limit. */
  predicate Records(cfg: Config, s: State, w: World) {
    && s.depth < cfg.maxDelegationDepth && cfg.graphMemory && cfg.agentId != ""
    && DispatchedIn(cfg, s, w) < cfg.maxSteps
  }

  /** On these inputs the turn attempts an extraction. */
  predicate Extracts(cfg: Config, s: State, w: World) {
    Records(cfg, s, w) && ExtractionDue(cfg, (s.turnCount + 1) % U64, s.lastExtraction)
  }

  /** On these inputs the turn runs the pass to its end. */
  predicate RunsPass(cfg: Config, s: State, w: World) {
    Extracts(cfg, s, w) && w.passWrites.Some?
  }

  function OverwriteOne(rows: map<Uuid, NodeRow>, agent: string, n: Node, now: int): map<Uuid, NodeRow> {
    if n.nodeType.Persona? && n.agentId == agent then rows[n.id := RowFor(n, now)] else rows - {n.id}
  }

  /** The agent's persona rows after these nodes are written, told from the rows and the nodes. */
  function Overwritten(rows: map<Uuid, NodeRow>, agent: string, nodes: seq<Node>, now: int): map<Uuid, NodeRow>
    decreases |nodes|
  {
    if nodes == [] then rows else Overwritten(OverwriteOne(rows, agent, nodes[0], now), agent, nodes[1..], now)
  }

  lemma WriteOverwrites(db: Db, agent: string, n: Node, now: int)
    ensures PersonaRows(PersistNode(db, n, now).db, agent) == OverwriteOne(PersonaRows(db, agent), agent, n, now)
  {
    hide PersistNode, RowFor;
    var r := PersistNode(db, n, now).db;
    WriteTouchesOneRow(db, n, now);
    RowHoldsNode(n, now);
    forall id ensures id in PersonaRows(r, agent) <==> id in OverwriteOne(PersonaRows(db, agent), agent, n, now) {
    }
  }

  lemma {:induction false} PassOverwrites(db: Db, agent: string, nodes: seq<Node>, now: int)
    ensures PersonaRows(WriteAll(db, nodes, now), agent) == Overwritten(PersonaRows(db, agent), agent, nodes, now)
    decreases |nodes|
  {
    hide PersistNode, PersonaRows, OverwriteOne;
    if nodes != [] {
      WriteOverwrites(db, agent, nodes[0], now);
      PassOverwrites(PersistNode(db, nodes[0], now).db, agent, nodes[1..], now);
    }
  }

  /** The persona rows a turn leaves behind. */
  function RowsAfter(cfg: Config, s: State, w: World): map<Uuid, NodeRow> {
    var rows := PersonaRows(s.db, cfg.agentId);
    if RunsPass(cfg, s, w) then Overwritten(rows, cfg.agentId, w.passWrites.value, w.now) else rows
  }

  /** What one turn does to the counters, the saved state and the persona rows. */
  ghost predicate TurnSpec(cfg: Config, s: State, w: World, r: TurnResult)
    requires Sound(cfg, s.db)
  {
    && Sound(cfg, r.state.db)
    && r.outcome != Rejected(InvalidGraph)
    && r.state.depth == s.depth
    && PersonaRows(r.state.db, cfg.agentId) == RowsAfter(cfg, s, w)
    && (r.outcome.Recorded? <==> Records(cfg, s, w))
    && (!r.outcome.Recorded? ==>
          && r.state.turnCount == s.turnCount && r.state.lastExtraction == s.lastExtraction
          && Saved(cfg, r.state.db) == Saved(cfg, s.db)
          && (r.state.cache == s.cache || r.state.cache == Contribution(cfg, s, w)))
    && (s.depth >= cfg.maxDelegationDepth ==> r.outcome == Rejected(DepthExceeded))
    && (s.depth < cfg.maxDelegationDepth && !cfg.graphMemory ==> r.outcome == MemoryDisabled)
    && (s.depth < cfg.maxDelegationDepth && cfg.graphMemory && cfg.agentId == "" ==> r.outcome == Rejected(NoAgent))
    && (r.outcome.StepLimited? ==>
          && r.outcome.limited == Contribution(cfg, s, w)
          && r.outcome.steps == DispatchedIn(cfg, s, w) && r.outcome.steps >= cfg.maxSteps)
    && (r.outcome.Recorded? ==>
          && r.outcome.persona == Contribution(cfg, s, w) && r.outcome.dispatched == DispatchedIn(cfg, s, w)
          && r.outcome.number == r.state.turnCount == (s.turnCount + 1) % U64
          && r.outcome.extracted == Extracts(cfg, s, w)
          && r.state.lastExtraction == (if r.outcome.extracted then r.state.turnCount else s.lastExtraction)
          && r.state.cache == (if RunsPass(cfg, s, w) then None else Contribution(cfg, s, w))
          && Saved(cfg, r.state.db) ==
             (if w.stateWriteOk
              then Some(RuntimeState(cfg.agentId, r.state.turnCount, r.state.lastExtraction, r.state.cache, w.now))
              else Saved(cfg, s.db)))
  }

  lemma TurnMeetsSpec(cfg: Config, s: State, w: World)
    requires Sound(cfg, s.db) && Plausible(cfg, s.db, w)
    ensures TurnSpec(cfg, s, w, Turn(cfg, s, w))
  {
    hide Turn, TurnSpec, Records, Plausible, Sound;
    if Records(cfg, s, w) {
      RecordedMeetsSpec(cfg, s, w);
    } else {
      UnrecordedMeetsSpec(cfg, s, w);
    }
  }

  lemma UnrecordedMeetsSpec(cfg: Config, s: State, w: World)
    requires Sound(cfg, s.db) && Plausible(cfg, s.db, w) && !Records(cfg, s, w)
    ensures TurnSpec(cfg, s, w, Turn(cfg, s, w))
  {
    hide Sound, Plausible, PersonaRows, CompileRows, DispatchPatches, ActivePatches, GatePasses, Finish, Overwritten,
         ExtractionDue, Contribution;
    assert GatePasses(s.db, cfg.agentId) by {
      SoundPassesGate(cfg, s.db);
    }
    DispatchPhase(cfg, s.db, w);
  }

  lemma RecordedMeetsSpec(cfg: Config, s: State, w: World)
    requires Sound(cfg, s.db) && Plausible(cfg, s.db, w) && Records(cfg, s, w)
    ensures TurnSpec(cfg, s, w, Turn(cfg, s, w))
  {
    hide Sound, Plausible, PersonaRows, CompileRows, DispatchPatches, ActivePatches, RecordTurn, PersistNode, WriteAll,
         GatePasses, Overwritten, ExtractionDue, Contribution;
    assert GatePasses(s.db, cfg.agentId) by {
      SoundPassesGate(cfg, s.db);
    }
    DispatchPhase(cfg, s.db, w);
    var d := DispatchPatches(s.db, ActivePatches(s.db, cfg.agentId, w.patchOrder), w.frame, w.now);
    RecordPhase(cfg, d.db, w);
    var recorded := RecordTurn(cfg, d.db, w);
    var turn := (s.turnCount + 1) % U64;
    var due := ExtractionDue(cfg, turn, s.lastExtraction);
    var before := State(recorded, turn, s.lastExtraction, Contribution(cfg, s, w), s.depth);
    var t := if due then Extract(cfg, before, w) else before;
    if due && w.passWrites.Some? {
      PlausiblePass(cfg, s.db, w);
      PassKeepsSaved(cfg, recorded, w.passWrites.value, w.now);
      PassOverwrites(recorded, cfg.agentId, w.passWrites.value, w.now);
    }
    StateWriteKeeps(cfg, t.db, StateNode(cfg, t.turnCount, t.lastExtraction, t.cache, w.now), w.now);
  }

  lemma PlausiblePass(cfg: Config, db: Db, w: World)
    requires Plausible(cfg, db, w) && w.passWrites.Some?
    ensures PassRows(w.passWrites.value, cfg.stateId)
  {
  }

  lemma SoundPassesGate(cfg: Config, db: Db)
    requires Sound(cfg, db)
    ensures GatePasses(db, cfg.agentId)
  {
    IntactPassesGate(db, cfg.agentId);
  }

  // ---- Whole runs ----

  lemma FreshIsSound(cfg: Config, db: Db)
    requires FreshDb(cfg, db)
    ensures Sound(cfg, db) && Saved(cfg, db) == None && Reboot(cfg, db) == State(db, 0, 0, None, 0)
  {
  }

  lemma RebootKeepsDb(cfg: Config, db: Db)
    ensures Reboot(cfg, db).db == db
  {
  }

  lemma {:induction false} RunsStaySound(cfg: Config, s: State, events: seq<Event>)
    requires Sound(cfg, s.db) && PlausibleRun(cfg, s, events)
    ensures Sound(cfg, After(cfg, s, events).db)
    decreases |events|
  {
    hide Sound, Turn, Plausible;
    if events != [] {
      match events[0]
      case Turned(w) =>
        TurnMeetsSpec(cfg, s, w);
        RunsStaySound(cfg, Turn(cfg, s, w).state, events[1..]);
      case Restarted =>
        RebootKeepsDb(cfg, s.db);
        RunsStaySound(cfg, Reboot(cfg, s.db), events[1..]);
    }
  }

  /** However turns and restarts interleave, the pre-turn validation never rejects a turn. */
  lemma GateNeverRejectsInRuns(cfg: Config, db: Db, events: seq<Event>, w: World)
    requires FreshDb(cfg, db) && PlausibleRun(cfg, Reboot(cfg, db), events)
    requires Plausible(cfg, After(cfg, Reboot(cfg, db), events).db, w)
    ensures Turn(cfg, After(cfg, Reboot(cfg, db), events), w).outcome != Rejected(InvalidGraph)
  {
    FreshIsSound(cfg, db);
    RunsStaySound(cfg, Reboot(cfg, db), events);
    TurnMeetsSpec(cfg, After(cfg, Reboot(cfg, db), events), w);
  }
}
