/** The scheduled extraction pass on a store: recurrence, graph and detector signals, tags, ingest,
    persona row. */
module ExtractionPass {
  import opened Wrappers
  import opened GraphModel
  import opened GraphIntegrity
  import opened GraphStore
  import opened TurnModel
  import opened TurnRuns
  import opened Evolution
  import opened NodeSignals
  import opened EpisodeTags
  import opened Recurrence
  import opened PersonaRow
  import opened ExtractorTask
  import PassInput
  import PersonaSignals

  /** What the detectors read off an episode's payload. */
  datatype Detail = Detail(userText: string, userTokens: nat, assistantTokens: nat, taggedTools: nat)

  /** How payloads are read: JSON fields of an episode, the walk over a hash set of tools, the
      number format of hints, and the signals of rows that are not episodes. */
  datatype Reader = Reader(
    facts: string -> EpisodeFacts,
    detail: string -> Detail,
    toolWalk: set<string> -> seq<string>,
    parse: string -> Option<real>,
    other: Node -> seq<Signal>)

  function FactsOf(rd: Reader, n: Node): EpisodeFacts
    requires n.nodeType.Episode?
  {
    rd.facts(n.nodeType.episodeBody).(hints := n.nodeType.emitted)
  }

  /** The signals of one stored node. */
  function SignalsOf(rd: Reader, n: Node): seq<Signal> {
    if n.nodeType.Episode?
    then FromEpisode(FactsOf(rd, n), rd.parse, rd.toolWalk(ToolNames(FactsOf(rd, n))))
    else rd.other(n)
  }

  function GraphSignals(rd: Reader, db: Db, agent: string, order: seq<Uuid>): seq<Signal> {
    if order == [] then []
    else
      var id := order[|order| - 1];
      GraphSignals(rd, db, agent, order[..|order| - 1])
      + if id in db.nodes && db.nodes[id].payload.agentId == agent then SignalsOf(rd, Decoded(db.nodes[id].payload)) else []
  }

  function AsEpisode(rd: Reader, n: Node): PassInput.Episode
    requires n.nodeType.Episode?
  {
    var d := rd.detail(n.nodeType.episodeBody);
    PassInput.Episode(n.id, n.agentId, n.nodeType.timestamp, d.userText, d.userTokens, d.assistantTokens,
                      EpisodicShouldProcess(FactsOf(rd, n)), d.taggedTools)
  }

  function EpisodesIn(rd: Reader, db: Db, order: seq<Uuid>): seq<PassInput.Episode> {
    if order == [] then []
    else
      var id := order[|order| - 1];
      EpisodesIn(rd, db, order[..|order| - 1]) + if IsEpisode(db, id) then [AsEpisode(rd, db.nodes[id].payload)] else []
  }

  function FactsIn(db: Db, order: seq<Uuid>): seq<PassInput.Fact> {
    if order == [] then []
    else
      var id := order[|order| - 1];
      FactsIn(db, order[..|order| - 1])
      + if id in db.nodes && db.nodes[id].payload.nodeType.Semantic? then
          var n := db.nodes[id].payload;
          [PassInput.Fact(n.agentId, n.nodeType.semantic.topic, n.nodeType.semantic.recurrence)]
        else []
  }

  /** What the world decides in one pass: the order of every scan, a minted id, the clock. */
  datatype PassWorld = PassWorld(
    facts: seq<Uuid>, graph: seq<Uuid>, episodes: seq<Uuid>, topics: seq<Uuid>, personas: seq<Uuid>, newId: Uuid, now: int)

  function ReadingOf(rd: Reader, db: Db, agent: string, w: PassWorld): Reading {
    Reading(GraphSignals(rd, db, agent, w.graph), EpisodesIn(rd, db, w.episodes), FactsIn(db, w.topics))
  }

  datatype PassState = PassState(db: Db, task: TaskState)

  /** One slot per phase that can fail on its own; `persona` is absent when no row is due. */
  datatype Report = Report(
    merged: seq<Signal>, applied: nat, updated: nat, recurrence: Outcome, flushed: Outcome, persona: Option<Outcome>)

  datatype PassResult = PassResult(state: PassState, report: Report)

  function Pending(t: PersonaSignals.Tagger, agent: string, task: TaskState, r: Reading): PersonaSignals.Pending {
    PersonaSignals.PassTags(t, task.episodes, PassInput.Chronological(r.episodes, agent))
  }

  /** Every phase runs whatever the phases before it reported. */
  function Pass(t: PersonaSignals.Tagger, rd: Reader, agent: string, s: PassState, w: PassWorld): PassResult {
    var up := UpdateFrom(s.db, agent, w.facts, w.now);
    var reading := ReadingOf(rd, up.db, agent, w);
    var merged := Merged(t, agent, s.task, reading);
    var flushed := Flush(up.db, Pending(t, agent, s.task, reading), w.now);
    var task := AfterPass(t, agent, s.task, reading);
    var due := merged != [] || up.updated > 0 || PersonaRows(flushed.db, agent) != map[];
    var written := if due
                   then PersistNode(flushed.db, EvolvedNode(flushed.db, agent, w.personas, w.newId, task.axes), w.now)
                   else Effect(flushed.db, Done);
    PassResult(PassState(written.db, task),
               Report(merged, Applied(s.task.axes, merged), up.updated, up.outcome, flushed.outcome,
                      if due then Some(written.outcome) else None))
  }

  class GraphExtractorTask {
    const agentId: string
    const engine: EvolutionEngine
    const signals: PersonaSignals.ExtractorState

    constructor (agent: string)
      ensures agentId == agent && fresh(engine) && fresh(signals)
      ensures Task() == START
    {
      agentId := agent;
      engine := new EvolutionEngine();
      signals := new PersonaSignals.ExtractorState();
    }

    ghost function Task(): TaskState
      reads this, engine, signals
    {
      TaskState(engine.axes, signals.Episodes(), signals.Domains())
    }

    method RunPass(t: PersonaSignals.Tagger, rd: Reader, store: SqliteGraphStore, w: PassWorld) returns (report: Report)
      modifies engine, signals, store
      ensures PassResult(PassState(store.State(), Task()), report) ==
              Pass(t, rd, agentId, PassState(old(store.State()), old(Task())), w)
    {
      hide UpdateFrom, Flush, PersistNode, EvolvedNode, Ingest, Applied, ReadingOf, PersonaSignals.PassSignals,
           PersonaSignals.PassTags, PersonaSignals.DomainSignals, PassInput.Chronological, PassInput.ClustersOf, PersonaRows;
      var updated, recurrence := UpdateSemanticRecurrence(store, agentId, w.facts, w.now);
      var reading := ReadingOf(rd, store.State(), agentId, w);
      var merged := reading.graph;
      var collected, pending := signals.ExtractPassCollect(t, agentId, reading.episodes, reading.facts);
      merged := merged + collected;
      var flushed := FlushEpisodePatternTags(store, pending, w.now);
      var applied := engine.IngestSignals(merged);
      var persona := None;
      if |merged| > 0 || updated > 0 || PersonaRows(store.State(), agentId) != map[] {
        var r := WriteEvolvedPersona(store, agentId, w.personas, w.newId, engine.axes, w.now);
        persona := Some(r);
      }
      report := Report(merged, applied, updated, recurrence, flushed, persona);
    }
  }

  // ---- What a pass writes ----

  lemma {:induction false} WriteAllAppend(db: Db, p: seq<Node>, q: seq<Node>, now: int)
    ensures WriteAll(db, p + q, now) == WriteAll(WriteAll(db, p, now), q, now)
    decreases |p|
  {
    hide PersistNode;
    if p == [] {
      assert p + q == q;
    } else {
      assert (p + q)[1..] == p[1..] + q;
      WriteAllAppend(PersistNode(db, p[0], now).db, p[1..], q, now);
    }
  }

  lemma WriteOne(db: Db, n: Node, now: int)
    ensures WriteAll(db, [n], now) == PersistNode(db, n, now).db
  {
    assert [n][1..] == [];
  }

  /** A row that is none of the three kinds, or absent, and stays so. */
  ghost predicate Foreign(db: Db, keep: Uuid) {
    keep in db.nodes ==> var nt := db.nodes[keep].payload.nodeType; !nt.Semantic? && !nt.Episode? && !nt.Persona?
  }

  lemma {:induction false} UpdateWrites(db: Db, agent: string, order: seq<Uuid>, now: int, keep: Uuid) returns (nodes: seq<Node>)
    requires WellKeyed(db) && Foreign(db, keep)
    ensures UpdateFrom(db, agent, order, now).db == WriteAll(db, nodes, now) && PassRows(nodes, keep)
    ensures var r := UpdateFrom(db, agent, order, now).db; WellKeyed(r) && Foreign(r, keep) && r.nodes.Keys == db.nodes.Keys
    decreases |order|
  {
    hide PersistNode, Bumped, Decoded;
    nodes := [];
    if order != [] {
      if Due(db, agent, order[0]) {
        var n := BumpedNode(Decoded(db.nodes[order[0]].payload));
        BumpKeepsRest(db.nodes[order[0]].payload);
        WriteTouchesOneRow(db, n, now);
        NodeWriteKeeps(db, n, now);
        WriteOne(db, n, now);
        var e := PersistNode(db, n, now);
        if e.outcome.Failed? {
          nodes := [n];
        } else {
          var rest := UpdateWrites(e.db, agent, order[1..], now, keep);
          WriteAllAppend(db, [n], rest, now);
          nodes := [n] + rest;
        }
      } else {
        nodes := UpdateWrites(db, agent, order[1..], now, keep);
      }
    }
  }

  lemma {:induction false} FlushWrites(db: Db, pending: PersonaSignals.Pending, now: int, keep: Uuid) returns (nodes: seq<Node>)
    requires WellKeyed(db) && Foreign(db, keep)
    ensures Flush(db, pending, now).db == WriteAll(db, nodes, now) && PassRows(nodes, keep)
    ensures var r := Flush(db, pending, now).db; WellKeyed(r) && Foreign(r, keep) && r.nodes.Keys == db.nodes.Keys
    decreases |pending|
  {
    hide PersistNode, NewTags;
    nodes := [];
    if pending != [] {
      var id, tags := pending[0].0, pending[0].1;
      var e := AppendTags(db, id, tags, now);
      TaggingTouchesOneRow(db, id, tags, now);
      if IsEpisode(db, id) && NewTags(TagsOf(db, id), tags) != [] {
        var n := Tagged(Decoded(db.nodes[id].payload), NewTags(TagsOf(db, id), tags));
        WriteOne(db, n, now);
        nodes := [n];
      }
      assert e.db == WriteAll(db, nodes, now);
      if e.outcome.Done? {
        var rest := FlushWrites(e.db, pending[1..], now, keep);
        WriteAllAppend(db, nodes, rest, now);
        nodes := nodes + rest;
      }
    }
  }

  /** Whatever a pass does to the store is a list of writes of facts, episodes and persona rows, none
      under the id of a row of another kind. */
  lemma PassWritesItsKinds(t: PersonaSignals.Tagger, rd: Reader, agent: string, s: PassState, w: PassWorld, keep: Uuid)
    returns (nodes: seq<Node>)
    requires WellKeyed(s.db) && Foreign(s.db, keep) && w.newId != keep
    ensures Pass(t, rd, agent, s, w).state.db == WriteAll(s.db, nodes, w.now) && PassRows(nodes, keep)
  {
    hide UpdateFrom, Flush, PersistNode, Merged, Evolved, ReadingOf, Pending, PersonaRows;
    var up := UpdateFrom(s.db, agent, w.facts, w.now).db;
    nodes := UpdateWrites(s.db, agent, w.facts, w.now, keep);
    var pending := Pending(t, agent, s.task, ReadingOf(rd, up, agent, w));
    var more := FlushWrites(up, pending, w.now, keep);
    WriteAllAppend(s.db, nodes, more, w.now);
    nodes := nodes + more;
    if Pass(t, rd, agent, s, w).report.persona.Some? {
      var flushed := Flush(up, pending, w.now).db;
      var n := EvolvedNode(flushed, agent, w.personas, w.newId, AfterPass(t, agent, s.task, ReadingOf(rd, up, agent, w)).axes);
      WriteAllAppend(s.db, nodes, [n], w.now);
      WriteOne(flushed, n, w.now);
      nodes := nodes + [n];
    }
  }

  /** So a turn's pass is one of the passes that the theorems about turns allow: it writes such rows
      only, and never the state row. */
  lemma PassIsPlausible(t: PersonaSignals.Tagger, rd: Reader, cfg: Config, s: PassState, w: PassWorld) returns (nodes: seq<Node>)
    requires Sound(cfg, s.db) && w.newId != cfg.stateId
    ensures Pass(t, rd, cfg.agentId, s, w).state.db == WriteAll(s.db, nodes, w.now) && PassRows(nodes, cfg.stateId)
  {
    hide Pass;
    nodes := PassWritesItsKinds(t, rd, cfg.agentId, s, w, cfg.stateId);
  }
}
