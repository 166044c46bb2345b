/** What a recorded turn leaves in the tables. */
module TurnRecords {
  import opened Wrappers
  import opened Collections
  import opened GraphModel
  import opened GraphIntegrity
  import opened TurnModel
  import opened TurnRuns

  /** Storing a node under a new id, without embedded edges, adds its row and nothing else. */
  lemma NewNodeStored(db: Db, n: Node, now: int)
    requires n.id !in db.nodes && n.links == []
    ensures var e := PersistNode(db, n, now);
            && e.outcome == Done && e.db.nodes == db.nodes[n.id := RowFor(n, now)]
            && e.db.edges == db.edges && e.db.trajectories == db.trajectories
  {
  }

  /** An edge from the episode to a listed target that has a row. */
  predicate Emitted(db: Db, ep: Uuid, targets: seq<Uuid>, k: EdgeKey) {
    k.source == ep && k.rel == "EMIT_TO" && k.target in targets && k.target in db.nodes
  }

  lemma {:induction false} EmitExactly(db: Db, ep: Uuid, targets: seq<Uuid>, k: EdgeKey)
    requires ep in db.nodes
    ensures var r := EmitEdges(db, ep, targets);
            && r == db.(edges := r.edges)
            && (k in r.edges <==> k in db.edges || Emitted(db, ep, targets, k))
            && (k in r.edges ==> r.edges[k] == if Emitted(db, ep, targets, k) then EdgeRow(1.0, None) else db.edges[k])
    decreases |targets|
  {
    if targets != [] {
      var next := InsertEdgeChecked(db, EdgeKey(ep, targets[0], EMIT_TO)).db;
      EmitExactly(next, ep, targets[1..], k);
      assert k.target in targets <==> k.target == targets[0] || k.target in targets[1..];
    }
  }

  /** The ids a turn mints are new. */
  predicate Minted(db: Db, w: World) {
    && (w.episodeId.Some? ==> w.episodeId.value !in db.nodes)
    && (w.trajectory.Some? ==> w.trajectory.value.nodeId !in db.nodes && Some(w.trajectory.value.nodeId) != w.episodeId)
  }

  /** Without an episode row nothing is recorded at all. */
  lemma NothingRecorded(cfg: Config, db: Db, w: World)
    requires w.episodeId.None?
    ensures RecordTurn(cfg, db, w) == db
  {
  }

  /** A recorded turn adds the episode row; an `EMIT_TO` edge to each listed target that has a row
      then, which may be the episode itself; and with trajectories on, the trajectory row, its
      `trajectory_of` edge to the episode and the detail row. It changes nothing else. */
  lemma RecordedTables(cfg: Config, db: Db, w: World, ep: Uuid, k: EdgeKey)
    requires Minted(db, w) && w.episodeId == Some(ep)
    ensures var r := RecordTurn(cfg, db, w);
            && ep in r.nodes
            && r.nodes[ep].payload == Node(ep, cfg.agentId, None, Episode(w.now, [], w.episodeBody), [])
            && (forall id :: id in db.nodes ==> id in r.nodes && r.nodes[id] == db.nodes[id])
            && (forall id :: id in r.nodes ==>
                  id in db.nodes || id == ep || (w.trajectory.Some? && id == w.trajectory.value.nodeId))
    ensures var r := RecordTurn(cfg, db, w);
            var emitted := k.source == ep && k.rel == "EMIT_TO" && k.target in w.emitTargets
                           && (k.target in db.nodes || k.target == ep);
            var ofTrajectory := w.trajectory.Some? && k == EdgeKey(w.trajectory.value.nodeId, ep, "trajectory_of");
            && (k in r.edges <==> k in db.edges || emitted || ofTrajectory)
            && (k in r.edges ==> r.edges[k] == if emitted || ofTrajectory then EdgeRow(1.0, None) else db.edges[k])
    ensures var r := RecordTurn(cfg, db, w);
            match w.trajectory
            case None => r.trajectories == db.trajectories
            case Some(t) =>
              && t.nodeId in r.nodes
              && r.nodes[t.nodeId].payload == Node(t.nodeId, cfg.agentId, None, Trajectory(w.now, t.body), [])
              && r.trajectories == db.trajectories[t.rowId := TrajectoryRow(ep, cfg.agentId, w.now, t.body)]
  {
    hide PersistNode, EmitEdges;
    var episode := EpisodeNode(cfg, ep, w);
    NewNodeStored(db, episode, w.now);
    var first := PersistNode(db, episode, w.now).db;
    EmitExactly(first, ep, w.emitTargets, k);
    var emitted := EmitEdges(first, ep, w.emitTargets);
    if w.trajectory.Some? {
      var t := w.trajectory.value;
      NewNodeStored(emitted, TrajectoryNode(cfg, t, w), w.now);
    }
  }

  /** Writing the state row takes the edges at it away and leaves every other row alone. */
  lemma StateWriteLeaves(db: Db, n: Node, now: int, k: EdgeKey)
    requires Intact(db) && n.links == []
    ensures var r := PersistNode(db, n, now).db;
            && r.nodes == db.nodes[n.id := RowFor(n, now)]
            && (k in r.edges <==> k in db.edges && k.source != n.id && k.target != n.id)
            && (forall t :: t in r.trajectories <==> t in db.trajectories && db.trajectories[t].episodeId != n.id)
            && (forall t :: t in r.trajectories ==> r.trajectories[t] == db.trajectories[t])
  {
  }

  /** After a turn that is recorded and runs no pass, the tables hold its record: the episode, the
      edge to each listed target with a row, except one to the state row, which the state write of
      the same turn removes, and the trajectory with its edge and its detail row. */
  lemma TurnStoresItsRecord(cfg: Config, s: State, w: World, ep: Uuid, target: Uuid)
    requires Sound(cfg, s.db) && Plausible(cfg, s.db, w) && Records(cfg, s, w) && !RunsPass(cfg, s, w)
    requires w.episodeId == Some(ep)
    ensures var r := Turn(cfg, s, w).state.db;
            && ep in r.nodes
            && r.nodes[ep].payload == Node(ep, cfg.agentId, None, Episode(w.now, [], w.episodeBody), [])
            && (EdgeKey(ep, target, "EMIT_TO") in r.edges <==>
                target in w.emitTargets && (target in s.db.nodes || target == ep)
                && !(w.stateWriteOk && target == cfg.stateId))
            && (w.trajectory.Some? ==>
                  var t := w.trajectory.value;
                  && t.nodeId in r.nodes
                  && r.nodes[t.nodeId].payload == Node(t.nodeId, cfg.agentId, None, Trajectory(w.now, t.body), [])
                  && EdgeKey(t.nodeId, ep, "trajectory_of") in r.edges
                  && t.rowId in r.trajectories
                  && r.trajectories[t.rowId] == TrajectoryRow(ep, cfg.agentId, w.now, t.body))
  {
    hide DispatchPatches, ActivePatches, RecordTurn, PersistNode, GatePasses, Contribution, ExtractionDue, PersonaRows, RowFor;
    SoundPassesGate(cfg, s.db);
    var patches := ActivePatches(s.db, cfg.agentId, w.patchOrder);
    var d := DispatchPatches(s.db, patches, w.frame, w.now).db;
    ActivePatchesStored(s.db, cfg.agentId, w.patchOrder);
    DispatchPatchesKeeps(s.db, patches, w.frame, w.now);
    assert forall id :: id in d.nodes <==> id in s.db.nodes.Keys;
    assert EdgeKey(ep, target, "EMIT_TO") !in d.edges by {
      assert !EndpointsExist(d, EdgeKey(ep, target, "EMIT_TO"));
    }
    var recorded := RecordTurn(cfg, d, w);
    RecordedTables(cfg, d, w, ep, EdgeKey(ep, target, "EMIT_TO"));
    if w.trajectory.Some? {
      RecordedTables(cfg, d, w, ep, EdgeKey(w.trajectory.value.nodeId, ep, "trajectory_of"));
    }
    PlausibleAfterDispatch(cfg, s.db, w);
    RecordTurnKeeps(cfg, d, w);
    var n := StateNode(cfg, Turn(cfg, s, w).state.turnCount, Turn(cfg, s, w).state.lastExtraction,
                       Turn(cfg, s, w).state.cache, w.now);
    StateWriteLeaves(recorded, n, w.now, EdgeKey(ep, target, "EMIT_TO"));
    if w.trajectory.Some? {
      StateWriteLeaves(recorded, n, w.now, EdgeKey(w.trajectory.value.nodeId, ep, "trajectory_of"));
    }
    RecordedState(cfg, s, w);
  }

  lemma PlausibleAfterDispatch(cfg: Config, db: Db, w: World)
    requires Sound(cfg, db) && Plausible(cfg, db, w)
    ensures Plausible(cfg, DispatchPatches(db, ActivePatches(db, cfg.agentId, w.patchOrder), w.frame, w.now).db, w)
  {
    DispatchPhase(cfg, db, w);
  }

  /** The tables after such a turn: dispatch, record, state write. */
  lemma RecordedState(cfg: Config, s: State, w: World)
    requires GatePasses(s.db, cfg.agentId) && Records(cfg, s, w) && !RunsPass(cfg, s, w)
    ensures var d := DispatchPatches(s.db, ActivePatches(s.db, cfg.agentId, w.patchOrder), w.frame, w.now).db;
            var recorded := RecordTurn(cfg, d, w);
            var r := Turn(cfg, s, w).state;
            r.db == if w.stateWriteOk
                    then PersistNode(recorded, StateNode(cfg, r.turnCount, r.lastExtraction, r.cache, w.now), w.now).db
                    else recorded
  {
    hide DispatchPatches, ActivePatches, RecordTurn, PersistNode, GatePasses, Contribution, ExtractionDue;
  }

  // ---- What dispatch leaves of the patches ----

  /** The active patches are the agent's procedural rows that are not retired. */
  lemma {:induction false} ActivePatchesExactly(db: Db, agent: string, order: seq<Uuid>, n: Node)
    ensures n in ActivePatches(db, agent, order) <==>
            exists id :: id in order && id in db.nodes
                         && db.nodes[id].payload.agentId == agent
                         && db.nodes[id].payload.nodeType.Procedure? && !db.nodes[id].payload.nodeType.procedural.retired
                         && n == Decoded(db.nodes[id].payload)
  {
    if order != [] {
      ActivePatchesExactly(db, agent, order[1..], n);
      assert forall id :: id in order <==> id == order[0] || id in order[1..];
    }
  }

  /** Patches as a scan of the rows gives them, each once. */
  ghost predicate ReadFrom(db: Db, patches: seq<Node>) {
    && Distinct(Ids(patches))
    && forall n :: n in patches ==>
                     n.id in db.nodes && n.nodeType.Procedure? && n == Decoded(db.nodes[n.id].payload)
  }

  /** What a turn dispatches is read from the rows, if its scan lists each row once. */
  lemma {:induction false} ActivePatchesAreRead(db: Db, agent: string, order: seq<Uuid>)
    requires WellKeyed(db) && Distinct(order)
    ensures ReadFrom(db, ActivePatches(db, agent, order))
    ensures forall id :: id in Ids(ActivePatches(db, agent, order)) ==> id in order
  {
    hide Distinct, Decoded;
    if order == [] {
      NothingDistinct();
    } else {
      DistinctTail(order);
      ActivePatchesAreRead(db, agent, order[1..]);
      assert order == [order[0]] + order[1..];
      var rest := ActivePatches(db, agent, order[1..]);
      if IsActivePatch(db, agent, order[0]) {
        var n := Decoded(db.nodes[order[0]].payload);
        DecodedKeepsRest(db.nodes[order[0]].payload);
        DistinctCons(n.id, Ids(rest));
        assert Ids([n] + rest) == [n.id] + Ids(rest);
      }
    }
  }

  lemma DecodedKeepsRest(n: Node)
    ensures Decoded(n).id == n.id && Decoded(n).nodeType == n.nodeType
  {
  }

  lemma NothingDistinct()
    ensures Distinct<Uuid>([])
  {
  }

  function Lucky(db: Db, frame: set<string>): Node -> bool {
    (n: Node) => Runnable(n, frame) && !HasLostLink(db, n.id)
  }

  lemma OneDispatch(db: Db, n: Node, frame: set<string>, now: int)
    requires WellKeyed(db) && n.id in db.nodes && n.nodeType.Procedure? && n == Decoded(db.nodes[n.id].payload)
    ensures var e := DispatchOne(db, n, frame, now);
            && WellKeyed(e.db) && e.db.nodes.Keys == db.nodes.Keys
            && (e.result.Dispatched? <==> Runnable(n, frame) && !HasLostLink(db, n.id))
            && (forall id :: id in db.nodes && id != n.id ==> e.db.nodes[id] == db.nodes[id])
            && StoredFitness(e.db, n.id) ==
               (if Runnable(n, frame)
                then Some(0.2 + 0.8 * (if n.nodeType.procedural.fitness.Some? then n.nodeType.procedural.fitness.value else 0.5))
                else StoredFitness(db, n.id))
  {
    hide PersistNode;
    DispatchFailsIff(db, n, frame, now);
    UnboundExactly(n.nodeType.procedural.declaredReads, frame);
    var m := WithFitness(Decoded(db.nodes[n.id].payload), FitnessAfter(n.nodeType.procedural.fitness));
    WriteTouchesOneRow(db, m, now);
    NodeWriteKeeps(db, m, now);
  }

  /** The first patch of a scan is not among the rest, and its dispatch leaves the rest as read. */
  lemma RestAsRead(db: Db, patches: seq<Node>, after: Db)
    requires ReadFrom(db, patches) && patches != [] && after.nodes.Keys == db.nodes.Keys
    requires forall id :: id in db.nodes && id != patches[0].id ==> after.nodes[id] == db.nodes[id]
    ensures ReadFrom(after, patches[1..]) && patches[0].id !in Ids(patches[1..]) && ReadFrom(db, patches[1..])
    ensures forall n :: n in patches[1..] ==> n.id in db.nodes && after.nodes[n.id] == db.nodes[n.id]
    ensures forall n :: n in patches <==> n == patches[0] || n in patches[1..]
    ensures forall id :: id in Ids(patches) <==> id == patches[0].id || id in Ids(patches[1..])
  {
    var first, rest := patches[0], patches[1..];
    assert Ids(patches)[1..] == Ids(rest);
    assert Ids(patches) == [first.id] + Ids(rest);
    DistinctTail(Ids(patches));
    forall p | p in rest ensures p.id != first.id {
      var i :| 0 <= i < |rest| && rest[i] == p;
      assert Ids(rest)[i] == p.id;
    }
  }

  /** Dispatching patches read from their rows counts those that are runnable and link to no
      missing node. */
  lemma {:induction false} DispatchCounts(db: Db, patches: seq<Node>, frame: set<string>, now: int)
    requires WellKeyed(db) && ReadFrom(db, patches)
    ensures var r := DispatchPatches(db, patches, frame, now);
            r.dispatched == |Filter(patches, Lucky(db, frame))| && r.db.nodes.Keys == db.nodes.Keys
    decreases |patches|
  {
    hide DispatchOne, Runnable, ReadFrom, HasLostLink;
    if patches != [] {
      var n := patches[0];
      ReadFirst(db, patches);
      OneDispatch(db, n, frame, now);
      var e := DispatchOne(db, n, frame, now);
      RestAsRead(db, patches, e.db);
      DispatchCounts(e.db, patches[1..], frame, now);
      SameLuck(db, e.db, patches[1..], frame);
    }
  }

  lemma ReadFirst(db: Db, patches: seq<Node>)
    requires ReadFrom(db, patches) && patches != []
    ensures var n := patches[0]; n.id in db.nodes && n.nodeType.Procedure? && n == Decoded(db.nodes[n.id].payload)
  {
  }

  /** It moves the stored fitness of every runnable patch a fifth of the way to one, counted from a
      half where there was none, whether or not it reports success, and touches no other node row. */
  lemma {:induction false} DispatchRaises(db: Db, patches: seq<Node>, frame: set<string>, now: int, id: Uuid)
    requires WellKeyed(db) && ReadFrom(db, patches) && id in db.nodes
    ensures var r := DispatchPatches(db, patches, frame, now).db;
            && id in r.nodes
            && (id !in Ids(patches) ==> r.nodes[id] == db.nodes[id])
            && (forall n :: n in patches && n.id == id ==>
                  StoredFitness(r, id) ==
                  if Runnable(n, frame)
                  then
                    var was := n.nodeType.procedural.fitness;
                    Some(0.2 + 0.8 * (if was.Some? then was.value else 0.5))
                  else StoredFitness(db, id))
    decreases |patches|
  {
    hide DispatchOne, Runnable, ReadFrom, HasLostLink, StoredFitness;
    if patches != [] {
      var n := patches[0];
      ReadFirst(db, patches);
      OneDispatch(db, n, frame, now);
      var e := DispatchOne(db, n, frame, now);
      RestAsRead(db, patches, e.db);
      assert id in e.db.nodes.Keys;
      DispatchRaises(e.db, patches[1..], frame, now, id);
      SameFitness(db, e.db, id);
      SameFitness(e.db, DispatchPatches(e.db, patches[1..], frame, now).db, id);
      IdListed(patches[1..]);
    }
  }

  lemma SameFitness(a: Db, b: Db, id: Uuid)
    requires id in a.nodes && id in b.nodes
    ensures a.nodes[id] == b.nodes[id] ==> StoredFitness(a, id) == StoredFitness(b, id)
  {
  }

  lemma IdListed(ns: seq<Node>)
    ensures forall n :: n in ns ==> n.id in Ids(ns)
  {
    forall n | n in ns ensures n.id in Ids(ns) {
      var i :| 0 <= i < |ns| && ns[i] == n;
      assert Ids(ns)[i] == n.id;
    }
  }

  lemma {:induction false} SameLuck(a: Db, b: Db, patches: seq<Node>, frame: set<string>)
    requires a.nodes.Keys == b.nodes.Keys
    requires forall n :: n in patches ==> n.id in a.nodes && b.nodes[n.id] == a.nodes[n.id]
    ensures Filter(patches, Lucky(a, frame)) == Filter(patches, Lucky(b, frame))
  {
    hide Runnable;
    if patches != [] {
      SameLuck(a, b, patches[1..], frame);
      assert forall id :: id in a.nodes.Keys <==> id in b.nodes.Keys;
      assert patches[0] in patches;
    }
  }
}
