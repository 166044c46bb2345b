/** The runtime object: counters, cache and store change step by step through a turn. */
module TurnRuntime {
  import opened Wrappers
  import opened Collections
  import opened GraphModel
  import opened GraphStore
  import opened GraphValidation
  import opened TurnModel
  import TurnRuns

  /** What the newest-state query may return. */
  ghost predicate IsQueried(db: Db, agent: string, row: Option<Uuid>) {
    match row
    case Some(id) => agent != "" && IsNewestState(db, agent, id)
    case None => agent == "" || forall id :: id in db.nodes ==> !IsStateRow(db, agent, id)
  }

  /** `ORDER BY timestamp DESC LIMIT 1` over the agent's state rows. */
  method ReadRuntimeState(db: Db, agent: string) returns (row: Option<Uuid>)
    ensures IsQueried(db, agent, row)
  {
    row := None;
    if agent == "" {
      return;
    }
    var order := Enumerate(db.nodes.Keys);
    for i := 0 to |order|
      invariant row.Some? ==> IsStateRow(db, agent, row.value)
      invariant forall j :: 0 <= j < i && IsStateRow(db, agent, order[j]) ==>
                              row.Some? && db.nodes[order[j]].timestamp <= db.nodes[row.value].timestamp
    {
      assert order[i] in Elems(order);
      if IsStateRow(db, agent, order[i]) && (row.None? || db.nodes[order[i]].timestamp > db.nodes[row.value].timestamp) {
        row := Some(order[i]);
      }
    }
    forall id | id in db.nodes ensures id in order {
      assert id in Elems(order);
    }
  }

  class AinlRuntime {
    const config: Config
    const store: SqliteGraphStore
    var turnCount: nat
    var lastExtraction: nat
    var personaCache: Option<string>
    var depth: nat

    ghost function Now(): State
      reads this, store
    {
      State(store.State(), turnCount, lastExtraction, personaCache, depth)
    }

    /** Restore from the newest state row, or start from zero. */
    constructor (cfg: Config, store: SqliteGraphStore)
      ensures config == cfg && this.store == store
      ensures exists row :: IsQueried(store.State(), cfg.agentId, row) && Now() == Boot(cfg, store.State(), row)
    {
      var row := ReadRuntimeState(store.State(), cfg.agentId);
      config := cfg;
      this.store := store;
      depth := 0;
      if row.None? {
        turnCount, lastExtraction, personaCache := 0, 0, None;
      } else {
        var st := store.nodes[row.value].payload.nodeType.state;
        turnCount, lastExtraction, personaCache := st.turnCount, st.lastExtractionAtTurn, st.personaSnapshot;
      }
      new;
      assert IsQueried(store.State(), cfg.agentId, row) && Now() == Boot(cfg, store.State(), row);
    }

    method RunTurn(w: World) returns (r: TurnOutcome)
      modifies this, store
      ensures TurnResult(Now(), r) == Turn(config, old(Now()), w)
    {
      hide DispatchPatches, ActivePatches, RecordTurn, WriteAll, PersistNode, GatePasses, PersonaRows, CompileRows, Exact;
      var entered := depth;
      depth := depth + 1;
      if entered >= config.maxDelegationDepth {
        depth := depth - 1;
        return Rejected(DepthExceeded);
      }
      if !config.graphMemory {
        depth := depth - 1;
        return MemoryDisabled;
      }
      if config.agentId == "" {
        depth := depth - 1;
        return Rejected(NoAgent);
      }
      var report := ValidateGraph(store.State(), config.agentId);
      TurnRuns.GateIsValidation(store.State(), config.agentId, report);
      if !report.isValid {
        depth := depth - 1;
        return Rejected(InvalidGraph);
      }
      if personaCache.None? {
        personaCache := CompileRows(PersonaRows(store.State(), config.agentId), w.personaOrder);
      }
      var persona := personaCache;
      var patches := ActivePatches(store.State(), config.agentId, w.patchOrder);
      var dispatched := DispatchAllPatches(patches, w.frame, w.now);
      if dispatched >= config.maxSteps {
        depth := depth - 1;
        return StepLimited(persona, dispatched);
      }
      RecordEpisode(w);
      turnCount := (turnCount + 1) % U64;
      var due := ExtractionDue(config, turnCount, lastExtraction);
      if due {
        if w.passWrites.Some? {
          WriteNodes(w.passWrites.value, w.now);
          personaCache := None;
        }
        lastExtraction := turnCount;
      }
      if w.stateWriteOk {
        var _ := store.WriteNode(StateNode(config, turnCount, lastExtraction, personaCache, w.now), w.now);
      }
      depth := depth - 1;
      r := Recorded(persona, turnCount, due, dispatched);
    }

    method DispatchAllPatches(patches: seq<Node>, frame: set<string>, now: int) returns (dispatched: nat)
      modifies store
      ensures DispatchAll(store.State(), dispatched) == DispatchPatches(old(store.State()), patches, frame, now)
    {
      dispatched := 0;
      for i := 0 to |patches|
        invariant var rest := DispatchPatches(store.State(), patches[i..], frame, now);
                  DispatchAll(rest.db, dispatched + rest.dispatched) ==
                  DispatchPatches(old(store.State()), patches, frame, now)
      {
        var d := DispatchPatch(patches[i], frame, now);
        if d.Dispatched? {
          dispatched := dispatched + 1;
        }
        assert patches[i..][1..] == patches[i + 1..];
      }
    }

    method DispatchPatch(n: Node, frame: set<string>, now: int) returns (d: Dispatch)
      modifies store
      ensures DispatchEffect(store.State(), d) == DispatchOne(old(store.State()), n, frame, now)
    {
      if !n.nodeType.Procedure? {
        return Skipped(NotProcedural);
      }
      var p := n.nodeType.procedural;
      if p.patchVersion == 0 {
        return Skipped(ZeroVersion);
      }
      if p.retired {
        return Skipped(Retired);
      }
      for i := 0 to |p.declaredReads|
        invariant store.State() == old(store.State())
        invariant FirstUnbound(p.declaredReads, frame) == FirstUnbound(p.declaredReads[i..], frame)
      {
        if p.declaredReads[i] !in frame {
          return Skipped(MissingRead(p.declaredReads[i]));
        }
      }
      if n.id !in store.nodes {
        return Skipped(RowGone);
      }
      var after := FitnessAfter(p.fitness);
      var r := store.WriteNode(WithFitness(Decoded(store.nodes[n.id].payload), after), now);
      d := if r.Done? then Dispatched(after) else Skipped(PersistFailed);
    }

    method RecordEpisode(w: World)
      modifies store
      ensures store.State() == RecordTurn(config, old(store.State()), w)
    {
      if w.episodeId.None? {
        return;
      }
      var ep := w.episodeId.value;
      var _ := store.WriteNode(EpisodeNode(config, ep, w), w.now);
      ghost var written := store.State();
      for i := 0 to |w.emitTargets|
        invariant EmitEdges(written, ep, w.emitTargets) == EmitEdges(store.State(), ep, w.emitTargets[i..])
      {
        var _ := store.InsertGraphEdgeChecked(EdgeKey(ep, w.emitTargets[i], EMIT_TO));
        assert w.emitTargets[i..][1..] == w.emitTargets[i + 1..];
      }
      if w.trajectory.Some? {
        var t := w.trajectory.value;
        var stored := store.WriteNode(TrajectoryNode(config, t, w), w.now);
        if stored.Done? {
          var linked := store.InsertGraphEdgeChecked(EdgeKey(t.nodeId, ep, TRAJECTORY_OF));
          if linked.Done? {
            var _ := store.InsertTrajectoryDetail(t.rowId, TrajectoryRow(ep, config.agentId, w.now, t.body));
          }
        }
      }
    }

    method WriteNodes(nodes: seq<Node>, now: int)
      modifies store
      ensures store.State() == WriteAll(old(store.State()), nodes, now)
    {
      for i := 0 to |nodes|
        invariant WriteAll(store.State(), nodes[i..], now) == WriteAll(old(store.State()), nodes, now)
      {
        var _ := store.WriteNode(nodes[i], now);
        assert nodes[i..][1..] == nodes[i + 1..];
      }
    }
  }
}
