/** The persona row that holds an agent's evolved axes: read, patched, written back. */
module PersonaRow {
  import opened Wrappers
  import opened Bounds
  import opened Collections
  import opened Text
  import opened GraphModel
  import opened GraphIntegrity
  import opened GraphStore
  import opened Evolution
  import opened NodeSignals

  const EVOLUTION_TRAIT: string := "axis_evolution_snapshot"

  const AXES: seq<Axis> := [Instrumentality, Verbosity, Persistence, Systematicity, Curiosity]

  predicate IsEvolutionRow(db: Db, agent: string, id: Uuid) {
    && id in db.nodes && db.nodes[id].payload.nodeType.Persona? && db.nodes[id].payload.agentId == agent
    && db.nodes[id].payload.nodeType.persona.traitName == EVOLUTION_TRAIT
  }

  /** The row with the highest cycle; of equals, the last one scanned. */
  function LatestRow(db: Db, agent: string, order: seq<Uuid>): (r: Option<Uuid>)
    ensures r.Some? ==> r.value in order && IsEvolutionRow(db, agent, r.value)
    ensures forall id :: id in order && IsEvolutionRow(db, agent, id) ==>
                           r.Some? && db.nodes[id].payload.nodeType.persona.cycle
                                      <= db.nodes[r.value].payload.nodeType.persona.cycle
  {
    if order == [] then None
    else
      var best, id := LatestRow(db, agent, order[..|order| - 1]), order[|order| - 1];
      if !IsEvolutionRow(db, agent, id) then best
      else if best.None? then Some(id)
      else if db.nodes[id].payload.nodeType.persona.cycle >= db.nodes[best.value].payload.nodeType.persona.cycle then Some(id)
      else best
  }

  /** Of rows with one cycle the scan ends with the last. */
  lemma LatestIsLast(db: Db, agent: string, order: seq<Uuid>, id: Uuid)
    requires IsEvolutionRow(db, agent, id)
    requires forall other :: other in order && IsEvolutionRow(db, agent, other) ==>
               db.nodes[other].payload.nodeType.persona.cycle <= db.nodes[id].payload.nodeType.persona.cycle
    ensures LatestRow(db, agent, order + [id]) == Some(id)
  {
    assert (order + [id])[..|order|] == order;
  }

  method FindEvolutionRow(db: Db, agent: string, order: seq<Uuid>) returns (best: Option<Uuid>)
    ensures best == LatestRow(db, agent, order)
  {
    best := None;
    for i := 0 to |order|
      invariant best == LatestRow(db, agent, order[..i])
    {
      assert order[..i + 1][..i] == order[..i];
      var id := order[i];
      if IsEvolutionRow(db, agent, id)
        && (best.None? || db.nodes[id].payload.nodeType.persona.cycle >= db.nodes[best.value].payload.nodeType.persona.cycle) {
        best := Some(id);
      }
    }
    assert order[..|order|] == order;
  }

  function AxisName(a: Axis): string {
    match a
    case Instrumentality => "Instrumentality"
    case Verbosity => "Verbosity"
    case Persistence => "Persistence"
    case Systematicity => "Systematicity"
    case Curiosity => "Curiosity"
  }

  /** Writing an axis name and reading it back gives the axis. */
  lemma AxisNameRoundTrip(a: Axis)
    ensures ParseAxis(AxisName(a)) == Some(a)
  {
    hide Trim;
    TrimSolid(AxisName(a));
  }

  function ScoresByName(axes: Axes): map<string, real> {
    map a | a in axes :: AxisName(a) := axes[a].score
  }

  function ScoreAt(axes: Axes): nat -> real {
    (i: nat) => if i < |AXES| && AXES[i] in axes then axes[AXES[i]].score else 0.0
  }

  function Strong(axes: Axes): nat -> bool {
    (i: nat) => ScoreAt(axes)(i) > 0.65
  }

  function Ranked(axes: Axes): seq<nat> {
    SortDesc(Filter([0, 1, 2, 3, 4], Strong(axes)), ScoreAt(axes))
  }

  /** The axes above the threshold, strongest first. */
  function DominantAxes(axes: Axes): seq<string> {
    var ranked := Ranked(axes);
    seq(|ranked|, k requires 0 <= k < |ranked| => if ranked[k] < |AXES| then AxisName(AXES[ranked[k]]) else "")
  }

  lemma RankedExactly(axes: Axes, i: nat)
    ensures i in Ranked(axes) <==> i < |AXES| && AXES[i] in axes && axes[AXES[i]].score > 0.65
  {
    hide SortDesc, Filter;
    var strong: seq<nat> := Filter([0, 1, 2, 3, 4], Strong(axes));
    SortDescPermutes(strong, ScoreAt(axes));
    assert i in multiset(Ranked(axes)) <==> i in multiset(strong);
    assert i in [0, 1, 2, 3, 4] <==> i < |AXES|;
  }

  /** Exactly the axes above the threshold are named, strongest first. */
  lemma DominantAxesAreExact(axes: Axes, a: Axis)
    ensures AxisName(a) in DominantAxes(axes) <==> a in axes && axes[a].score > 0.65
    ensures Descending(Ranked(axes), ScoreAt(axes))
  {
    hide Ranked, AxisName;
    RankedDescends(axes);
    var ranked := Ranked(axes);
    var i := AxisIndex(a);
    RankedExactly(axes, i);
    if i in ranked {
      var k :| 0 <= k < |ranked| && ranked[k] == i;
      assert DominantAxes(axes)[k] == AxisName(a);
    }
    if AxisName(a) in DominantAxes(axes) {
      var k :| 0 <= k < |ranked| && DominantAxes(axes)[k] == AxisName(a);
      RankedExactly(axes, ranked[k]);
      assert ranked[k] in ranked;
      NamesDiffer(AXES[ranked[k]], a);
    }
  }

  lemma RankedDescends(axes: Axes)
    ensures Descending(Ranked(axes), ScoreAt(axes))
  {
    SortDescOrders(Filter([0, 1, 2, 3, 4], Strong(axes)), ScoreAt(axes));
  }

  lemma DominantAxesDescend(axes: Axes, j: nat, k: nat, a: Axis, b: Axis)
    requires j < k < |DominantAxes(axes)| && DominantAxes(axes)[j] == AxisName(a) && DominantAxes(axes)[k] == AxisName(b)
    ensures a in axes && b in axes && axes[a].score >= axes[b].score > 0.65
  {
    hide Ranked, AxisName;
    var ranked := Ranked(axes);
    assert ranked[j] in ranked && ranked[k] in ranked;
    RankedExactly(axes, ranked[j]);
    RankedExactly(axes, ranked[k]);
    NamesDiffer(AXES[ranked[j]], a);
    NamesDiffer(AXES[ranked[k]], b);
    RankedDescends(axes);
  }

  lemma NamesDiffer(a: Axis, b: Axis)
    requires AxisName(a) == AxisName(b)
    ensures a == b
  {
    AxisNameRoundTrip(a);
    AxisNameRoundTrip(b);
  }

  function AxisIndex(a: Axis): (i: nat)
    ensures i < |AXES| && AXES[i] == a
  {
    match a
    case Instrumentality => 0
    case Verbosity => 1
    case Persistence => 2
    case Systematicity => 3
    case Curiosity => 4
  }

  function Evolved(p: PersonaFields, axes: Axes): PersonaFields {
    p.(axisScores := ScoresByName(axes), cycle := Min(p.cycle + 1, U32_MAX), source := "Evolved",
       dominantAxes := DominantAxes(axes))
  }

  /** The row holds each axis under its name, is marked as evolved, and counts one cycle more. */
  lemma EvolvedExactly(p: PersonaFields, axes: Axes)
    ensures var e := Evolved(p, axes);
            && e.traitName == p.traitName && e.source == "Evolved" && e.cycle == Min(p.cycle + 1, 0xFFFF_FFFF)
            && e.dominantAxes == DominantAxes(axes)
            && (Instrumentality in axes ==>
                  "Instrumentality" in e.axisScores && e.axisScores["Instrumentality"] == axes[Instrumentality].score)
            && (Verbosity in axes ==> "Verbosity" in e.axisScores && e.axisScores["Verbosity"] == axes[Verbosity].score)
            && (Persistence in axes ==> "Persistence" in e.axisScores && e.axisScores["Persistence"] == axes[Persistence].score)
            && (Systematicity in axes ==>
                  "Systematicity" in e.axisScores && e.axisScores["Systematicity"] == axes[Systematicity].score)
            && (Curiosity in axes ==> "Curiosity" in e.axisScores && e.axisScores["Curiosity"] == axes[Curiosity].score)
            && |e.axisScores.Keys| == |axes.Keys|
  {
    hide DominantAxes;
    forall a | a in axes ensures AxisName(a) in ScoresByName(axes) && ScoresByName(axes)[AxisName(a)] == axes[a].score {
      ScoreOf(axes, a);
    }
    assert AxisName(Instrumentality) == "Instrumentality" && AxisName(Verbosity) == "Verbosity"
           && AxisName(Persistence) == "Persistence" && AxisName(Systematicity) == "Systematicity"
           && AxisName(Curiosity) == "Curiosity";
    hide AxisName, ScoresByName;
    AsManyNames(axes.Keys);
    NamesOfAxes(axes);
  }

  lemma ScoreOf(axes: Axes, a: Axis)
    requires a in axes
    ensures AxisName(a) in ScoresByName(axes) && ScoresByName(axes)[AxisName(a)] == axes[a].score
  {
    var b :| b in axes && AxisName(b) == AxisName(a) && ScoresByName(axes)[AxisName(a)] == axes[b].score;
    NamesDiffer(a, b);
  }

  lemma NamesOfAxes(axes: Axes)
    ensures ScoresByName(axes).Keys == set a | a in axes.Keys :: AxisName(a)
  {
    hide AxisName;
  }

  lemma {:induction false} AsManyNames(axes: set<Axis>)
    ensures |set a | a in axes :: AxisName(a)| == |axes|
  {
    hide AxisName;
    if axes == {} {
      assert (set a | a in axes :: AxisName(a)) == {};
    } else {
      var x :| x in axes;
      var rest := axes - {x};
      AsManyNames(rest);
      var names := set a | a in rest :: AxisName(a);
      if AxisName(x) in names {
        var y :| y in rest && AxisName(y) == AxisName(x);
        NamesDiffer(x, y);
      }
      assert (set a | a in axes :: AxisName(a)) == names + {AxisName(x)};
    }
  }

  const FRESH_ROW: PersonaFields := PersonaFields(EVOLUTION_TRAIT, "0.50", "Base", "UserConfigured", 0, map[], [])

  /** What is written: the latest evolution row with the axes in it, or a new one. */
  function EvolvedNode(db: Db, agent: string, order: seq<Uuid>, newId: Uuid, axes: Axes): Node {
    match LatestRow(db, agent, order)
    case Some(id) =>
      var n := Decoded(db.nodes[id].payload);
      n.(nodeType := Persona(Evolved(n.nodeType.persona, axes)))
    case None => Node(newId, agent, None, Persona(Evolved(FRESH_ROW, axes)), [])
  }

  /** Without an evolution row of the agent a new one is made, in its first cycle. */
  lemma FirstEvolvedRow(db: Db, agent: string, order: seq<Uuid>, newId: Uuid, axes: Axes)
    requires forall id :: id in order ==> !IsEvolutionRow(db, agent, id)
    ensures var n := EvolvedNode(db, agent, order, newId, axes);
            && n.id == newId && n.agentId == agent && n.projectId.None? && n.links == [] && n.nodeType.Persona?
            && n.nodeType.persona.traitName == "axis_evolution_snapshot" && n.nodeType.persona.cycle == 1
            && n.nodeType.persona.source == "Evolved"
  {
    hide ScoresByName, DominantAxes;
  }

  method WriteEvolvedPersona(store: SqliteGraphStore, agent: string, order: seq<Uuid>, newId: Uuid, axes: Axes, now: int)
    returns (r: Outcome)
    modifies store
    ensures Effect(store.State(), r) ==
            PersistNode(old(store.State()), EvolvedNode(old(store.State()), agent, order, newId, axes), now)
  {
    hide PersistNode, Evolved;
    var best := FindEvolutionRow(store.State(), agent, order);
    var n := Node(newId, agent, None, Persona(Evolved(FRESH_ROW, axes)), []);
    if best.Some? {
      n := Decoded(store.nodes[best.value].payload);
      n := n.(nodeType := Persona(Evolved(n.nodeType.persona, axes)));
    }
    r := store.WriteNode(n, now);
  }

  /** An agent has at most one evolution row. */
  ghost predicate OneEvolutionRow(db: Db, agent: string) {
    forall m, n :: IsEvolutionRow(db, agent, m) && IsEvolutionRow(db, agent, n) ==> m == n
  }

  /** The write leaves exactly one evolution row, holding the axes and one cycle further, if there
      was at most one before; and it touches no other row. */
  lemma EvolvedRowIsTheOne(db: Db, agent: string, order: seq<Uuid>, newId: Uuid, axes: Axes, now: int)
    requires WellKeyed(db) && newId !in db.nodes && OneEvolutionRow(db, agent)
    requires forall id :: IsEvolutionRow(db, agent, id) ==> id in order
    ensures var r := PersistNode(db, EvolvedNode(db, agent, order, newId, axes), now).db;
            var at := EvolvedNode(db, agent, order, newId, axes).id;
            && OneEvolutionRow(r, agent) && IsEvolutionRow(r, agent, at)
            && r.nodes[at].payload.nodeType.persona.traitName == "axis_evolution_snapshot"
            && r.nodes[at].payload.nodeType.persona.axisScores == ScoresByName(axes)
            && (forall id :: id in db.nodes && id != at ==> id in r.nodes && r.nodes[id] == db.nodes[id])
            && (IsEvolutionRow(db, agent, at) ==>
                  r.nodes[at].payload.nodeType.persona.cycle == Min(db.nodes[at].payload.nodeType.persona.cycle + 1, U32_MAX))
  {
    hide PersistNode, ScoresByName, DominantAxes, EvolvedNode;
    var n := EvolvedNode(db, agent, order, newId, axes);
    EvolvedNodeParts(db, agent, order, newId, axes);
    WriteTouchesOneRow(db, n, now);
    var r := PersistNode(db, n, now).db;
    assert r.nodes[n.id].payload == n;
    forall m | IsEvolutionRow(r, agent, m) ensures m == n.id {
      assert m != n.id ==> IsEvolutionRow(db, agent, m);
    }
  }

  /** The node that is written is an evolution row, the only one there is if there is one. */
  lemma EvolvedNodeParts(db: Db, agent: string, order: seq<Uuid>, newId: Uuid, axes: Axes)
    requires WellKeyed(db) && newId !in db.nodes && OneEvolutionRow(db, agent)
    requires forall id :: IsEvolutionRow(db, agent, id) ==> id in order
    ensures var n := EvolvedNode(db, agent, order, newId, axes);
            && n.agentId == agent && n.nodeType.Persona? && n.nodeType.persona.traitName == EVOLUTION_TRAIT
            && n.nodeType.persona.axisScores == ScoresByName(axes)
            && (forall id: Uuid :: IsEvolutionRow(db, agent, id) ==> id == n.id)
            && (IsEvolutionRow(db, agent, n.id) ==>
                  n.nodeType.persona.cycle == Min(db.nodes[n.id].payload.nodeType.persona.cycle + 1, U32_MAX))
  {
    hide ScoresByName, DominantAxes, LatestRow;
    var best := LatestRow(db, agent, order);
    assert EvolvedNode(db, agent, order, newId, axes).id == (if best.Some? then best.value else newId);
  }

  // ---- The row as a prior of the next pass ----

  /** `entries` come from a walk over the hash map. */
  ghost predicate Walks(entries: seq<Entry>, scores: map<string, real>) {
    forall e :: e in entries ==> e.0 in scores && scores[e.0] == e.1
  }

  /** No two names in a row that the task wrote mean one axis, so its priors do not depend on the
      order in which the hash map is walked. */
  lemma EvolvedPriorsAreOrderFree(axes: Axes, entries: seq<Entry>, engine: Axes)
    requires Walks(entries, ScoresByName(axes)) && AllInRange(engine) && engine.Keys == ALL
    ensures WalkOrderIrrelevant(engine, entries)
  {
    hide ParseAxis, WalkOrderIrrelevant;
    forall i, j | 0 <= i < j < |entries| && ParseAxis(entries[i].0) == ParseAxis(entries[j].0)
      ensures Clamp(entries[i].1) == Clamp(entries[j].1)
    {
      assert entries[i] in entries && entries[j] in entries;
      var a :| a in axes && AxisName(a) == entries[i].0;
      var b :| b in axes && AxisName(b) == entries[j].0;
      AxisNameRoundTrip(a);
      AxisNameRoundTrip(b);
    }
    PriorOrderIrrelevantIff(engine, entries);
  }
}
