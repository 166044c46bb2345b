/** What one pass reads, ingests and leaves behind, row by row. */
module PassOutcome {
  import opened Collections
  import opened GraphModel
  import opened GraphIntegrity
  import opened TurnModel
  import opened Evolution
  import opened NodeSignals
  import opened EpisodeTags
  import opened Recurrence
  import opened PersonaRow
  import opened ExtractorTask
  import opened ExtractionPass
  import PassInput
  import PersonaSignals
  import PassEmissions

  // ---- What is read ----

  /** Each scan adds what its last row holds: the agent's node speaks for the graph, an episode
      row is an episode, a fact row a fact. An episode counts as fully signalled once it succeeded
      or carries a tag, and then its facts speak; before, it says nothing. */
  lemma RowsAreRead(rd: Reader, db: Db, agent: string, order: seq<Uuid>, id: Uuid)
    requires id in db.nodes
    ensures var n := db.nodes[id].payload;
            && GraphSignals(rd, db, agent, order + [id]) ==
               GraphSignals(rd, db, agent, order) +
               (if n.agentId != agent then []
                else if n.nodeType.Episode? then
                  var ep := rd.facts(n.nodeType.episodeBody).(hints := n.nodeType.emitted);
                  FromEpisode(ep, rd.parse, rd.toolWalk(ToolNames(ep)))
                else rd.other(Decoded(n)))
            && EpisodesIn(rd, db, order + [id]) ==
               EpisodesIn(rd, db, order) +
               (if !n.nodeType.Episode? then []
                else
                  var d := rd.detail(n.nodeType.episodeBody);
                  var signalled := rd.facts(n.nodeType.episodeBody).outcome == "success" || n.nodeType.emitted != [];
                  [PassInput.Episode(n.id, n.agentId, n.nodeType.timestamp, d.userText, d.userTokens, d.assistantTokens,
                                     signalled, d.taggedTools)])
            && FactsIn(db, order + [id]) ==
               FactsIn(db, order) +
               (if !n.nodeType.Semantic? then []
                else [PassInput.Fact(n.agentId, n.nodeType.semantic.topic, n.nodeType.semantic.recurrence)])
    ensures GraphSignals(rd, db, agent, []) == [] && EpisodesIn(rd, db, []) == [] && FactsIn(db, []) == []
  {
    hide FromEpisode, ToolNames;
    assert (order + [id])[..|order|] == order;
    DecodedParts(db.nodes[id].payload);
    hide Decoded;
  }

  lemma DecodedParts(n: Node)
    ensures Decoded(n).nodeType == n.nodeType && Decoded(n).agentId == n.agentId && Decoded(n).id == n.id
  {
  }

  // ---- What is ingested ----

  /** A pass ingests, once each, what it reads off the nodes, what the detectors say of the
      agent's episodes in order, and one signal for each topic that fires. */
  lemma PassIngests(t: PersonaSignals.Tagger, rd: Reader, agent: string, s: PassState, w: PassWorld, x: Signal)
    ensures var r := Pass(t, rd, agent, s, w);
            var up := UpdateFrom(s.db, agent, w.facts, w.now);
            var eps := PassInput.Chronological(EpisodesIn(rd, up.db, w.episodes), agent);
            var clusters := PassInput.ClustersOf(FactsIn(up.db, w.topics), agent);
            var pass := Min(s.task.domains.pass + 1, 0xFFFF_FFFF_FFFF_FFFF);
            && r.state.task.axes == Ingest(s.task.axes, r.report.merged)
            && r.report.applied == Applied(s.task.axes, r.report.merged)
            && r.report.updated == up.updated && r.report.recurrence == up.outcome
            && multiset(r.report.merged)[x] ==
               multiset(GraphSignals(rd, up.db, agent, w.graph))[x]
               + multiset(PersonaSignals.PassSignals(t, s.task.episodes, eps))[x]
               + (if x == Signal(Persistence, 0.72, 0.6)
                  then |PassEmissions.Firing(pass, s.task.domains.lastEmit, clusters)| else 0)
  {
    hide UpdateFrom, Flush, PersistNode, Ingest, Applied, GraphSignals, EpisodesIn, FactsIn, PersonaSignals.PassSignals,
         PersonaSignals.PassTags, PassInput.Chronological, PassInput.ClustersOf, PassEmissions.Firing, EvolvedNode, PersonaRows;
    var up := UpdateFrom(s.db, agent, w.facts, w.now);
    var clusters := PassInput.ClustersOf(FactsIn(up.db, w.topics), agent);
    var now := s.task.domains.(pass := PersonaSignals.NextPass(s.task.domains));
    var fired := |PassEmissions.Firing(now.pass, now.lastEmit, clusters)|;
    PassEmissions.DomainsEmit(now, clusters);
    PassEmissions.RepeatedSignal(fired, Signal(Persistence, 0.72, 0.6), x);
    var eps := PassInput.Chronological(EpisodesIn(rd, up.db, w.episodes), agent);
    PassEmissions.CountTwo(PersonaSignals.PassSignals(t, s.task.episodes, eps), PersonaSignals.DomainSignals(now, clusters), x);
    PassEmissions.CountTwo(GraphSignals(rd, up.db, agent, w.graph),
                           PersonaSignals.PassSignals(t, s.task.episodes, eps) + PersonaSignals.DomainSignals(now, clusters), x);
    hide PersonaSignals.DomainSignals;
  }

  // ---- What is left behind ----

  lemma {:induction false} UpdateLeavesOthers(db: Db, agent: string, order: seq<Uuid>, now: int)
    requires WellKeyed(db)
    ensures var r := UpdateFrom(db, agent, order, now).db;
            && WellKeyed(r) && r.nodes.Keys == db.nodes.Keys
            && forall id :: id in db.nodes ==>
                 if db.nodes[id].payload.nodeType.Semantic? then r.nodes[id].payload.nodeType.Semantic?
                 else r.nodes[id] == db.nodes[id]
    decreases |order|
  {
    hide PersistNode, Bumped, Decoded;
    if order != [] {
      if Due(db, agent, order[0]) {
        var n := BumpedNode(Decoded(db.nodes[order[0]].payload));
        BumpKeepsRest(db.nodes[order[0]].payload);
        WriteTouchesOneRow(db, n, now);
        NodeWriteKeeps(db, n, now);
        UpdateLeavesOthers(PersistNode(db, n, now).db, agent, order[1..], now);
      } else {
        UpdateLeavesOthers(db, agent, order[1..], now);
      }
    }
  }

  lemma {:induction false} FlushLeavesOthers(db: Db, pending: PersonaSignals.Pending, now: int)
    requires WellKeyed(db)
    ensures var r := Flush(db, pending, now).db;
            && WellKeyed(r) && r.nodes.Keys == db.nodes.Keys
            && forall id :: id in db.nodes ==>
                 if db.nodes[id].payload.nodeType.Episode? then r.nodes[id].payload.nodeType.Episode?
                 else r.nodes[id] == db.nodes[id]
    decreases |pending|
  {
    hide PersistNode, NewTags;
    if pending != [] {
      var id, tags := pending[0].0, pending[0].1;
      TaggingTouchesOneRow(db, id, tags, now);
      var e := AppendTags(db, id, tags, now);
      if e.outcome.Done? {
        FlushLeavesOthers(e.db, pending[1..], now);
      }
    }
  }

  /** Neither recurrence nor tags touch a persona row. */
  lemma PersonaRowsAreKept(t: PersonaSignals.Tagger, rd: Reader, agent: string, s: PassState, w: PassWorld, id: Uuid)
    requires WellKeyed(s.db)
    ensures var up := UpdateFrom(s.db, agent, w.facts, w.now).db;
            var flushed := Flush(up, Pending(t, agent, s.task, ReadingOf(rd, up, agent, w)), w.now).db;
            && WellKeyed(flushed) && flushed.nodes.Keys == s.db.nodes.Keys
            && (id in s.db.nodes ==>
                  && (flushed.nodes[id].payload.nodeType.Persona? <==> s.db.nodes[id].payload.nodeType.Persona?)
                  && (s.db.nodes[id].payload.nodeType.Persona? ==> flushed.nodes[id] == s.db.nodes[id]))
  {
    hide UpdateFrom, Flush, Pending, ReadingOf;
    UpdateLeavesOthers(s.db, agent, w.facts, w.now);
    var up := UpdateFrom(s.db, agent, w.facts, w.now).db;
    FlushLeavesOthers(up, Pending(t, agent, s.task, ReadingOf(rd, up, agent, w)), w.now);
  }

  /** The pass writes the agent's axes iff it had signals, raised a fact, or the agent had a persona
      row before; else it leaves no trace there. */
  lemma PassWritesAxesIff(t: PersonaSignals.Tagger, rd: Reader, agent: string, s: PassState, w: PassWorld)
    requires WellKeyed(s.db)
    ensures var r := Pass(t, rd, agent, s, w);
            r.report.persona.Some? <==>
            || r.report.merged != [] || r.report.updated > 0
            || exists id ::
                 && id in s.db.nodes && s.db.nodes[id].payload.nodeType.Persona?
                 && s.db.nodes[id].payload.agentId == agent
  {
    hide UpdateFrom, Flush, PersistNode, EvolvedNode, Merged, Applied, ReadingOf, Pending, AfterPass;
    var up := UpdateFrom(s.db, agent, w.facts, w.now).db;
    var flushed := Flush(up, Pending(t, agent, s.task, ReadingOf(rd, up, agent, w)), w.now).db;
    forall id ensures id in PersonaRows(flushed, agent) <==>
                      && id in s.db.nodes && s.db.nodes[id].payload.nodeType.Persona?
                      && s.db.nodes[id].payload.agentId == agent
    {
      PersonaRowsAreKept(t, rd, agent, s, w, id);
    }
    assert PersonaRows(flushed, agent) == map[] <==> forall id :: id !in PersonaRows(flushed, agent);
    hide PersonaRows;
  }

  /** When it does, there is exactly one evolution row afterwards, and it holds the score of every
      axis of the engine under the axis' name. */
  lemma PassStoresAxes(t: PersonaSignals.Tagger, rd: Reader, agent: string, s: PassState, w: PassWorld, a: Axis)
    returns (at: Uuid)
    requires WellKeyed(s.db) && w.newId !in s.db.nodes && OneEvolutionRow(s.db, agent)
    requires forall id :: IsEvolutionRow(s.db, agent, id) ==> id in w.personas
    requires Pass(t, rd, agent, s, w).report.persona.Some?
    ensures var r := Pass(t, rd, agent, s, w).state;
            && OneEvolutionRow(r.db, agent) && IsEvolutionRow(r.db, agent, at)
            && (a in r.task.axes ==>
                  var scores := r.db.nodes[at].payload.nodeType.persona.axisScores;
                  AxisName(a) in scores && scores[AxisName(a)] == r.task.axes[a].score)
  {
    hide UpdateFrom, Flush, PersistNode, EvolvedNode, Merged, Applied, ReadingOf, Pending, AfterPass, PersonaRows, AxisName,
         ScoresByName;
    var up := UpdateFrom(s.db, agent, w.facts, w.now).db;
    var reading := ReadingOf(rd, up, agent, w);
    var flushed := Flush(up, Pending(t, agent, s.task, reading), w.now).db;
    forall id ensures WellKeyed(flushed) && (IsEvolutionRow(flushed, agent, id) <==> IsEvolutionRow(s.db, agent, id))
                      && (id in flushed.nodes <==> id in s.db.nodes)
    {
      PersonaRowsAreKept(t, rd, agent, s, w, id);
    }
    var axes := AfterPass(t, agent, s.task, reading).axes;
    EvolvedRowIsTheOne(flushed, agent, w.personas, w.newId, axes, w.now);
    at := EvolvedNode(flushed, agent, w.personas, w.newId, axes).id;
    if a in axes {
      ScoreOf(axes, a);
    }
  }
}
