/** Procedure artifacts kept in procedural node rows: upsert, search and reuse records.

    The bytes of a row are modelled by what they decode to, so writing an artifact and
    reading it back gives the same artifact. */
module ProcedureStore {
  import opened Wrappers
  import opened Bounds
  import opened Collections
  import opened Contracts
  import opened GraphModel
  import opened GraphIntegrity
  import opened GraphStore

  predicate Usable(l: Lifecycle) {
    l.Validated? || l.Promoted?
  }

  // ---- Rows ----

  predicate IsProcedureOf(n: Node, agent: string) {
    n.nodeType.Procedure? && n.agentId == agent
  }

  predicate Names(p: Procedural, id: string) {
    p.labelName == id || (p.artifact.Some? && p.artifact.value.id == id)
  }

  /** The rows an upsert of artifact `id` may pick. */
  function Candidates(db: Db, agent: string, id: string): set<Uuid> {
    set n | n in db.nodes && IsProcedureOf(db.nodes[n].payload, agent)
            && Names(db.nodes[n].payload.nodeType.procedural, id)
  }

  function Stored(p: Procedural, a: Artifact): Procedural {
    p.(labelName := a.id, fitness := Some(Clamp(a.fitness)), observationCount := a.observationCount,
       promptEligible := Usable(a.lifecycle), artifact := Some(a))
  }

  function FreshProcedural(id: string): Procedural {
    Procedural("", id, 1, false, [], None, 0, true, None)
  }

  /** What is written at row `at`: the old payload with the artifact's fields, or a new node. */
  function UpsertedNode(db: Db, agent: string, a: Artifact, at: Uuid): Node {
    if at in Candidates(db, agent, a.id) then
      var n := Decoded(db.nodes[at].payload);
      n.(nodeType := Procedure(Stored(n.nodeType.procedural, a)))
    else
      Node(at, agent, None, Procedure(Stored(FreshProcedural(a.id), a)), [])
  }

  predicate PicksRow(db: Db, agent: string, id: string, at: Uuid) {
    if Candidates(db, agent, id) == {} then at !in db.nodes else at in Candidates(db, agent, id)
  }

  function Upsert(db: Db, agent: string, a: Artifact, at: Uuid, now: int): Effect {
    PersistNode(db, UpsertedNode(db, agent, a, at), now)
  }

  /** An upsert writes the artifact and the columns copied from it over the picked row, whose
      other content stays, or over a new row of the agent. */
  lemma UpsertedExactly(db: Db, agent: string, a: Artifact, at: Uuid)
    ensures var n := UpsertedNode(db, agent, a, at);
            && n.id == (if at in Candidates(db, agent, a.id) then db.nodes[at].payload.id else at)
            && n.agentId == agent && n.nodeType.Procedure?
            && var p := n.nodeType.procedural;
               && p.artifact == Some(a) && p.labelName == a.id && p.observationCount == a.observationCount
               && p.fitness == Some(if a.fitness < 0.0 then 0.0 else if a.fitness > 1.0 then 1.0 else a.fitness)
               && (p.promptEligible <==> a.lifecycle.Validated? || a.lifecycle.Promoted?)
               && if at in Candidates(db, agent, a.id)
                  then
                    var was := db.nodes[at].payload;
                    && n.links == was.links
                    && p == was.nodeType.procedural.(labelName := p.labelName, fitness := p.fitness,
                                                     observationCount := p.observationCount,
                                                     promptEligible := p.promptEligible, artifact := p.artifact)
                  else
                    && n.projectId.None? && n.links == []
                    && p.patternName == a.id && p.patchVersion == 1 && !p.retired && p.declaredReads == []
    ensures at in Candidates(db, agent, a.id) <==>
            && at in db.nodes && db.nodes[at].payload.nodeType.Procedure? && db.nodes[at].payload.agentId == agent
            && var p := db.nodes[at].payload.nodeType.procedural;
               p.labelName == a.id || (p.artifact.Some? && p.artifact.value.id == a.id)
  {
  }

  // ---- The table as a map ----

  predicate HoldsArtifact(n: Node) {
    n.nodeType.Procedure? && n.nodeType.procedural.artifact.Some?
  }

  /** A row that holds an artifact is labelled with its id and eligible as its lifecycle says. */
  predicate ShelvedRow(n: Node) {
    && HoldsArtifact(n)
    && var p := n.nodeType.procedural;
       p.labelName == p.artifact.value.id && (p.promptEligible <==> Usable(p.artifact.value.lifecycle))
  }

  predicate SameShelf(m: Node, n: Node) {
    m.nodeType.Procedure? && n.nodeType.Procedure? && m.agentId == n.agentId
    && m.nodeType.procedural.labelName == n.nodeType.procedural.labelName
  }

  /** Every artifact row is well formed, its embedded edges resolve, and no other procedural row
      of the agent has its label. Patterns and patches without an artifact may share labels
      among themselves. */
  ghost predicate Shelved(db: Db) {
    && WellKeyed(db)
    && (forall n :: n in db.nodes && HoldsArtifact(db.nodes[n].payload) ==>
          ShelvedRow(db.nodes[n].payload) && LinksResolve(db, db.nodes[n].payload))
    && (forall m, n :: m in db.nodes && n in db.nodes && m != n && HoldsArtifact(db.nodes[m].payload) ==>
          !SameShelf(db.nodes[m].payload, db.nodes[n].payload))
  }

  /** At most one row answers to the id, and that row can be written back. */
  ghost predicate Upsertable(db: Db, agent: string, id: string) {
    && (forall m, n :: m in Candidates(db, agent, id) && n in Candidates(db, agent, id) ==> m == n)
    && (forall n :: n in Candidates(db, agent, id) ==> LinksResolve(db, db.nodes[n].payload))
  }

  type Shelf = (string, string)

  ghost predicate Holds(db: Db, shelf: Shelf, a: Artifact) {
    exists n :: n in db.nodes && IsProcedureOf(db.nodes[n].payload, shelf.0)
                && db.nodes[n].payload.nodeType.procedural.artifact == Some(a) && a.id == shelf.1
  }

  /** `db` stores exactly the map `m` from agent and artifact id to artifact. */
  ghost predicate Refines(db: Db, m: map<Shelf, Artifact>) {
    forall shelf, a :: Holds(db, shelf, a) <==> shelf in m && m[shelf] == a
  }

  lemma DecodedKeeps(n: Node)
    ensures Decoded(n).(projectId := n.projectId) == n
  {
  }

  /** The effect of an upsert on the node table alone. */
  lemma UpsertTouchesOneRow(db: Db, agent: string, a: Artifact, at: Uuid, now: int)
    requires Shelved(db) && PicksRow(db, agent, a.id, at)
    ensures var e, n := Upsert(db, agent, a, at, now), UpsertedNode(db, agent, a, at);
            && e.db.nodes == db.nodes[at := RowFor(n, now)]
            && n.id == at && n.agentId == agent && ShelvedRow(n) && n.nodeType.procedural.artifact == Some(a)
            && n.links == (if at in Candidates(db, agent, a.id) then db.nodes[at].payload.links else [])
            && (e.outcome.Done? <==> forall l :: l in n.links ==> l.target in db.nodes || l.target == at)
  {
    hide SameShelf, PersistNode;
    var n := UpsertedNode(db, agent, a, at);
    WriteTouchesOneRow(db, n, now);
    WriteNodeSucceedsIff(db, n, now);
  }

  /** Under `Shelved` a candidate row is a row with that label. */
  lemma CandidateIsShelf(db: Db, agent: string, id: string, n: Uuid)
    requires Shelved(db) && n in db.nodes
    ensures n in Candidates(db, agent, id) <==>
            IsProcedureOf(db.nodes[n].payload, agent) && db.nodes[n].payload.nodeType.procedural.labelName == id
  {
  }

  lemma UpsertKeepsShelved(db: Db, agent: string, a: Artifact, at: Uuid, now: int)
    requires Shelved(db) && PicksRow(db, agent, a.id, at) && Upsertable(db, agent, a.id)
    ensures Upsert(db, agent, a, at, now).outcome.Done? && Shelved(Upsert(db, agent, a, at, now).db)
  {
    hide Upsert, UpsertedNode, Names;
    UpsertTouchesOneRow(db, agent, a, at, now);
    var after := Upsert(db, agent, a, at, now).db;
    var n := UpsertedNode(db, agent, a, at);
    forall m | m in db.nodes && m != at ensures !SameShelf(db.nodes[m].payload, n) && !SameShelf(n, db.nodes[m].payload) {
      CandidateIsShelf(db, agent, a.id, m);
    }
    assert forall id :: id in db.nodes ==> id in after.nodes;
  }

  /** An upsert succeeds and keeps the shelves exactly when at most one row answers to the id and
      that row's embedded edges resolve. */
  lemma UpsertKeepsShelvedIff(db: Db, agent: string, a: Artifact, at: Uuid, now: int)
    requires Shelved(db) && PicksRow(db, agent, a.id, at)
    ensures var e := Upsert(db, agent, a, at, now);
            e.outcome.Done? && Shelved(e.db) <==> Upsertable(db, agent, a.id)
  {
    hide Upsert, UpsertedNode, Names;
    var e := Upsert(db, agent, a, at, now);
    if Upsertable(db, agent, a.id) {
      UpsertKeepsShelved(db, agent, a, at, now);
    }
    if e.outcome.Done? && Shelved(e.db) {
      UpsertTouchesOneRow(db, agent, a, at, now);
      forall m | m in Candidates(db, agent, a.id) ensures m == at {
        CandidateIsShelf(db, agent, a.id, m);
        assert m in e.db.nodes && SameShelf(e.db.nodes[at].payload, e.db.nodes[m].payload);
      }
    }
  }

  /** An artifact that is stored can always be upserted again. */
  lemma KnownIsUpsertable(db: Db, agent: string, a: Artifact)
    requires Shelved(db) && Holds(db, (agent, a.id), a)
    ensures Upsertable(db, agent, a.id)
  {
    var r :| r in db.nodes && IsProcedureOf(db.nodes[r].payload, agent)
             && db.nodes[r].payload.nodeType.procedural.artifact == Some(a);
    assert ShelvedRow(db.nodes[r].payload);
    forall n | n in Candidates(db, agent, a.id) ensures n == r {
      CandidateIsShelf(db, agent, a.id, n);
      assert SameShelf(db.nodes[r].payload, db.nodes[n].payload);
    }
  }

  /** Upserting one artifact spoils no other. */
  lemma UpsertableStays(db: Db, agent: string, a: Artifact, at: Uuid, now: int, other: string, otherId: string)
    requires Shelved(db) && PicksRow(db, agent, a.id, at) && Upsertable(db, agent, a.id) && Upsertable(db, other, otherId)
    ensures Upsertable(Upsert(db, agent, a, at, now).db, other, otherId)
  {
    hide Upsert, UpsertedNode, Shelved, Holds, PicksRow;
    var after := Upsert(db, agent, a, at, now).db;
    UpsertTouchesOneRow(db, agent, a, at, now);
    UpsertKeepsShelved(db, agent, a, at, now);
    if other == agent && otherId == a.id {
      OwnShelf(db, agent, a, at, now, a);
      KnownIsUpsertable(after, agent, a);
    } else {
      forall n | n in Candidates(after, other, otherId)
        ensures n in Candidates(db, other, otherId) && after.nodes[n] == db.nodes[n]
      {
        assert n != at;
      }
      assert forall id :: id in db.nodes ==> id in after.nodes;
    }
  }

  /** One upsert is one map update, whatever row it lands in. */
  lemma UpsertIsMapUpdate(db: Db, m: map<Shelf, Artifact>, agent: string, a: Artifact, at: Uuid, now: int)
    requires Shelved(db) && Refines(db, m) && PicksRow(db, agent, a.id, at) && Upsertable(db, agent, a.id)
    ensures var e := Upsert(db, agent, a, at, now);
            e.outcome == Done && Shelved(e.db) && Refines(e.db, m[(agent, a.id) := a])
  {
    hide Upsert, UpsertedNode, Candidates, Shelved, Holds, ShelvedRow, Upsertable;
    var after := Upsert(db, agent, a, at, now).db;
    UpsertTouchesOneRow(db, agent, a, at, now);
    UpsertKeepsShelved(db, agent, a, at, now);
    forall shelf: Shelf, b
      ensures Holds(after, shelf, b) <==> if shelf == (agent, a.id) then b == a else Holds(db, shelf, b)
    {
      if shelf == (agent, a.id) {
        OwnShelf(db, agent, a, at, now, b);
      } else {
        OtherShelf(db, agent, a, at, now, shelf, b);
      }
    }
  }

  lemma OwnShelf(db: Db, agent: string, a: Artifact, at: Uuid, now: int, b: Artifact)
    requires Shelved(db) && PicksRow(db, agent, a.id, at) && Upsertable(db, agent, a.id)
    ensures Holds(Upsert(db, agent, a, at, now).db, (agent, a.id), b) <==> b == a
  {
    hide Upsert, UpsertedNode, Candidates, PicksRow;
    var after := Upsert(db, agent, a, at, now).db;
    UpsertTouchesOneRow(db, agent, a, at, now);
    UpsertKeepsShelved(db, agent, a, at, now);
    assert at in after.nodes && after.nodes[at].payload == UpsertedNode(db, agent, a, at);
    if Holds(after, (agent, a.id), b) {
      var n :| n in after.nodes && IsProcedureOf(after.nodes[n].payload, agent)
               && after.nodes[n].payload.nodeType.procedural.artifact == Some(b) && b.id == a.id;
      assert ShelvedRow(after.nodes[n].payload);
      assert SameShelf(after.nodes[n].payload, after.nodes[at].payload);
    }
  }

  lemma OtherShelf(db: Db, agent: string, a: Artifact, at: Uuid, now: int, shelf: Shelf, b: Artifact)
    requires Shelved(db) && PicksRow(db, agent, a.id, at) && shelf != (agent, a.id)
    ensures Holds(Upsert(db, agent, a, at, now).db, shelf, b) <==> Holds(db, shelf, b)
  {
    hide Upsert, UpsertedNode, Candidates;
    var after := Upsert(db, agent, a, at, now).db;
    UpsertTouchesOneRow(db, agent, a, at, now);
    if Holds(db, shelf, b) {
      var n :| n in db.nodes && IsProcedureOf(db.nodes[n].payload, shelf.0)
               && db.nodes[n].payload.nodeType.procedural.artifact == Some(b) && b.id == shelf.1;
      assert ShelvedRow(db.nodes[n].payload);
      if at in db.nodes {
        CandidateIsShelf(db, agent, a.id, at);
      }
      assert n != at;
      assert after.nodes[n] == db.nodes[n];
    }
    if Holds(after, shelf, b) {
      var n :| n in after.nodes && IsProcedureOf(after.nodes[n].payload, shelf.0)
               && after.nodes[n].payload.nodeType.procedural.artifact == Some(b) && b.id == shelf.1;
      assert n != at;
    }
  }

  // ---- Runs of upserts ----

  datatype Write = Write(agent: string, artifact: Artifact, at: Uuid, now: int)

  ghost predicate UpsertRun(states: seq<Db>, writes: seq<Write>) {
    && |states| == |writes| + 1
    && forall i :: 0 <= i < |writes| ==> UpsertStep(states[i], writes[i], states[i + 1])
  }

  predicate UpsertStep(db: Db, w: Write, after: Db) {
    PicksRow(db, w.agent, w.artifact.id, w.at) && after == Upsert(db, w.agent, w.artifact, w.at, w.now).db
  }

  function LastWritten(m: map<Shelf, Artifact>, writes: seq<Write>): map<Shelf, Artifact> {
    if writes == [] then m
    else
      var last := writes[|writes| - 1];
      LastWritten(m, writes[..|writes| - 1])[(last.agent, last.artifact.id) := last.artifact]
  }

  /** No artifact of the run collides with a shared label. */
  ghost predicate AllUpsertable(db: Db, writes: seq<Write>) {
    forall w :: w in writes ==> Upsertable(db, w.agent, w.artifact.id)
  }

  lemma {:induction false} UpsertsKeepShelved(states: seq<Db>, writes: seq<Write>, agent: string, id: string)
    requires UpsertRun(states, writes) && Shelved(states[0]) && AllUpsertable(states[0], writes)
    ensures Shelved(states[|writes|])
    ensures Upsertable(states[0], agent, id) ==> Upsertable(states[|writes|], agent, id)
    decreases |writes|
  {
    hide Shelved, Upsertable, Upsert, PicksRow;
    if writes != [] {
      var k := |writes| - 1;
      var w := writes[k];
      assert UpsertStep(states[k], w, states[k + 1]);
      UpsertsKeepShelved(states[..k + 1], writes[..k], w.agent, w.artifact.id);
      UpsertsKeepShelved(states[..k + 1], writes[..k], agent, id);
      UpsertKeepsShelved(states[k], w.agent, w.artifact, w.at, w.now);
      if Upsertable(states[0], agent, id) {
        UpsertableStays(states[k], w.agent, w.artifact, w.at, w.now, agent, id);
      }
    }
  }

  /** In every run of upserts, whatever rows the scans pick, the table is the map of last writes. */
  lemma {:induction false} UpsertsRefineMap(states: seq<Db>, writes: seq<Write>, m: map<Shelf, Artifact>)
    requires UpsertRun(states, writes) && Shelved(states[0]) && AllUpsertable(states[0], writes) && Refines(states[0], m)
    ensures Shelved(states[|writes|]) && Refines(states[|writes|], LastWritten(m, writes))
    decreases |writes|
  {
    hide Shelved, Refines, Upsert, PicksRow, Upsertable;
    if writes != [] {
      var k := |writes| - 1;
      var w := writes[k];
      UpsertsRefineMap(states[..k + 1], writes[..k], m);
      UpsertsKeepShelved(states[..k + 1], writes[..k], w.agent, w.artifact.id);
      assert UpsertStep(states[k], w, states[k + 1]);
      UpsertIsMapUpdate(states[k], LastWritten(m, writes[..k]), w.agent, w.artifact, w.at, w.now);
    }
  }

  /** From any store without artifacts, patterns and patches or not, the table after a run of
      upserts holds the last value of every artifact and nothing else. */
  lemma UpsertsFromPlainStore(states: seq<Db>, writes: seq<Write>)
    requires UpsertRun(states, writes) && AllUpsertable(states[0], writes) && WellKeyed(states[0])
    requires forall n :: n in states[0].nodes ==> !HoldsArtifact(states[0].nodes[n].payload)
    ensures Refines(states[|writes|], LastWritten(map[], writes))
  {
    hide LastWritten, AllUpsertable;
    assert Shelved(states[0]) && Refines(states[0], map[]);
    UpsertsRefineMap(states, writes, map[]);
  }

  // ---- Search ----

  function Held(tools: seq<string>, available: seq<string>): nat {
    if tools == [] then 0 else Held(tools[1..], available) + if tools[0] in available then 1 else 0
  }

  function ToolScore(a: Artifact, available: seq<string>): real {
    if a.requiredTools == [] then 0.2
    else Held(a.requiredTools, available) as real / |a.requiredTools| as real
  }

  /** What a search asks for; `overlap` is the share of intent words found in an artifact. */
  datatype Query = Query(agent: string, overlap: Artifact -> real, available: seq<string>)

  function Score(q: Query, a: Artifact): real {
    Clamp(q.overlap(a) * 0.55 + ToolScore(a, q.available) * 0.30 + Clamp(a.fitness) * 0.15)
  }

  /** A score weighs the words found, the tools at hand and the fitness 55 to 30 to 15; an
      artifact that needs no tools counts as having a fifth of them. */
  lemma ScoreExactly(q: Query, a: Artifact)
    ensures var fitness := if a.fitness < 0.0 then 0.0 else if a.fitness > 1.0 then 1.0 else a.fitness;
            var held := Held(a.requiredTools, q.available);
            var tools := if a.requiredTools == [] then 0.2 else held as real / |a.requiredTools| as real;
            var raw := 0.55 * q.overlap(a) + 0.30 * tools + 0.15 * fitness;
            Score(q, a) == if raw < 0.0 then 0.0 else if raw > 1.0 then 1.0 else raw
  {
    hide Held;
  }

  lemma {:induction false} HeldExactly(tools: seq<string>, last: string, available: seq<string>)
    ensures Held([], available) == 0
    ensures Held(tools + [last], available) == Held(tools, available) + if last in available then 1 else 0
  {
    if tools != [] {
      assert (tools + [last])[1..] == tools[1..] + [last];
      HeldExactly(tools[1..], last, available);
    }
  }

  predicate IsHit(db: Db, q: Query, n: Uuid) {
    && n in db.nodes && IsProcedureOf(db.nodes[n].payload, q.agent)
    && var p := db.nodes[n].payload.nodeType.procedural;
       p.promptEligible && p.artifact.Some? && !p.artifact.value.lifecycle.Deprecated? && Score(q, p.artifact.value) > 0.0
  }

  function Hits(db: Db, q: Query): set<Uuid> {
    set n | n in db.nodes && IsHit(db, q, n)
  }

  function ArtifactAt(db: Db, n: Uuid): Option<Artifact> {
    if n in db.nodes && db.nodes[n].payload.nodeType.Procedure? then db.nodes[n].payload.nodeType.procedural.artifact
    else None
  }

  function Key(db: Db, q: Query): nat -> real {
    (n: nat) => var a := ArtifactAt(db, n); if a.Some? then Score(q, a.value) else 0.0
  }

  function Artifacts(db: Db, ids: seq<Uuid>): seq<Artifact> {
    if ids == [] then []
    else
      var a := ArtifactAt(db, ids[|ids| - 1]);
      Artifacts(db, ids[..|ids| - 1]) + if a.Some? then [a.value] else []
  }

  /** Every hit once, best score first. */
  ghost predicate RanksHits(db: Db, q: Query, ids: seq<Uuid>) {
    Distinct(ids) && Elems(ids) == Hits(db, q) && Descending(ids, Key(db, q))
  }

  method Search(db: Db, q: Query, limit: nat) returns (r: seq<Artifact>)
    ensures exists ids: seq<Uuid> :: RanksHits(db, q, ids) && r == Artifacts(db, ids[..Min(limit, |ids|)])
  {
    hide Score, SortDesc, Descending, IsHit, Artifacts;
    var order := Enumerate(db.nodes.Keys);
    var found: seq<Uuid> := [];
    for i := 0 to |order|
      invariant found == Filter(order[..i], (n: Uuid) => IsHit(db, q, n))
    {
      FilterStep(order, i, (n: Uuid) => IsHit(db, q, n));
      if IsHit(db, q, order[i]) {
        found := found + [order[i]];
      }
    }
    FoundAreHits(db, q, order, found);
    var sorted := SortDesc(found, Key(db, q));
    SortDescPermutes(found, Key(db, q));
    SortDescOrders(found, Key(db, q));
    PermutationIsDistinct<nat>(found, sorted);
    r := Take(db, sorted[..Min(limit, |sorted|)]);
    assert RanksHits(db, q, sorted);
  }

  lemma FoundAreHits(db: Db, q: Query, order: seq<Uuid>, found: seq<Uuid>)
    requires Distinct(order) && Elems(order) == db.nodes.Keys
    requires found == Filter(order[..|order|], (n: Uuid) => IsHit(db, q, n))
    ensures Distinct(found) && Elems(found) == Hits(db, q)
  {
    hide IsHit;
    assert order[..|order|] == order;
    FilterDistinct(order, (n: Uuid) => IsHit(db, q, n));
    assert forall n :: n in order <==> n in Elems(order);
  }

  method Take(db: Db, ids: seq<Uuid>) returns (r: seq<Artifact>)
    ensures r == Artifacts(db, ids)
  {
    r := [];
    for i := 0 to |ids|
      invariant r == Artifacts(db, ids[..i])
    {
      assert ids[..i + 1][..i] == ids[..i];
      var a := ArtifactAt(db, ids[i]);
      if a.Some? {
        r := r + [a.value];
      }
    }
    assert ids[..|ids|] == ids;
  }

  /** On a shelved store a search returns only validated or promoted artifacts of the map. */
  lemma {:induction false} SearchStaysInMap(db: Db, m: map<Shelf, Artifact>, q: Query, ids: seq<Uuid>)
    requires Shelved(db) && Refines(db, m) && Elems(ids) <= Hits(db, q)
    ensures |Artifacts(db, ids)| == |ids|
    ensures forall i :: 0 <= i < |ids| ==> ArtifactAt(db, ids[i]) == Some(Artifacts(db, ids)[i])
    ensures forall a :: a in Artifacts(db, ids) ==>
                          && (q.agent, a.id) in m && m[(q.agent, a.id)] == a
                          && (a.lifecycle.Validated? || a.lifecycle.Promoted?)
    ensures Descending(ids, Key(db, q)) ==>
              forall i, j :: 0 <= i < j < |ids| ==> Score(q, Artifacts(db, ids)[i]) >= Score(q, Artifacts(db, ids)[j])
  {
    hide Shelved, Refines, Score;
    if ids != [] {
      var front, last := ids[..|ids| - 1], ids[|ids| - 1];
      assert ids == front + [last];
      assert last in Elems(ids);
      assert Elems(front) <= Elems(ids);
      SearchStaysInMap(db, m, q, front);
      HitIsInMap(db, m, q, last);
    }
  }

  lemma HitIsInMap(db: Db, m: map<Shelf, Artifact>, q: Query, n: Uuid)
    requires Shelved(db) && Refines(db, m) && n in Hits(db, q)
    ensures var a := ArtifactAt(db, n);
            a.Some? && (q.agent, a.value.id) in m && m[(q.agent, a.value.id)] == a.value && Usable(a.value.lifecycle)
  {
    hide Score;
    assert HoldsArtifact(db.nodes[n].payload) && ShelvedRow(db.nodes[n].payload);
    assert Holds(db, (q.agent, ArtifactAt(db, n).value.id), ArtifactAt(db, n).value);
  }

  /** And every such artifact that scores is a hit: search filters the map and nothing else. */
  lemma MapEntryIsHit(db: Db, m: map<Shelf, Artifact>, q: Query, id: string) returns (n: Uuid)
    requires Shelved(db) && Refines(db, m) && (q.agent, id) in m
    requires m[(q.agent, id)].lifecycle.Validated? || m[(q.agent, id)].lifecycle.Promoted?
    requires Score(q, m[(q.agent, id)]) > 0.0
    ensures n in Hits(db, q) && ArtifactAt(db, n) == Some(m[(q.agent, id)]) && m[(q.agent, id)].id == id
  {
    hide Score;
    var a := m[(q.agent, id)];
    assert Holds(db, (q.agent, id), a);
    n :| n in db.nodes && IsProcedureOf(db.nodes[n].payload, q.agent)
         && db.nodes[n].payload.nodeType.procedural.artifact == Some(a) && a.id == id;
    assert ShelvedRow(db.nodes[n].payload);
  }

  // ---- Reuse records ----

  datatype Reuse = Reuse(procedureId: string, result: TrajectoryOutcome, failureId: Option<string>)

  function Delta(r: TrajectoryOutcome): real {
    match r
    case Success => 0.04
    case PartialSuccess => 0.01
    case Failure => -0.08
    case Aborted => -0.12
  }

  function WithFailure(ids: seq<string>, failure: Option<string>): seq<string> {
    if failure.None? || failure.value in ids then ids else ids + [failure.value]
  }

  function Reused(a: Artifact, reuse: Reuse): Artifact {
    a.(observationCount := Min(a.observationCount + 1, U32_MAX),
       fitness := Clamp(a.fitness + Delta(reuse.result)),
       sourceFailureIds := WithFailure(a.sourceFailureIds, reuse.failureId))
  }

  /** A record looks its artifact up by a search for nothing, with no tools at hand. */
  function Everything(agent: string): Query {
    Query(agent, (_: Artifact) => 0.0, [])
  }

  /** Whether that search sees an artifact. */
  predicate Recordable(a: Artifact) {
    Usable(a.lifecycle) && (a.requiredTools == [] || a.fitness > 0.0)
  }

  lemma NoneHeld(tools: seq<string>)
    ensures Held(tools, []) == 0
  {
  }

  lemma EmptyQueryScore(agent: string, a: Artifact)
    ensures Score(Everything(agent), a) > 0.0 <==> a.requiredTools == [] || a.fitness > 0.0
  {
    NoneHeld(a.requiredTools);
    assert Everything(agent).overlap(a) == 0.0;
    if a.requiredTools != [] {
      assert ToolScore(a, []) == 0.0;
    }
  }

  class GraphMemory {
    const store: SqliteGraphStore

    constructor (s: SqliteGraphStore)
      ensures store == s
    {
      store := s;
    }

    /** The first matching row of the scan is rewritten; with none, a row with a new id is written. */
    method UpsertProcedureArtifact(agent: string, a: Artifact, newId: Uuid, now: int)
      returns (at: Uuid, r: Outcome)
      requires newId !in store.nodes
      modifies store
      ensures PicksRow(old(store.State()), agent, a.id, at)
      ensures Effect(store.State(), r) == Upsert(old(store.State()), agent, a, at, now)
    {
      hide PersistNode, Decoded, Stored, Names;
      var order := Enumerate(store.nodes.Keys);
      ghost var db := store.State();
      for i := 0 to |order|
        invariant store.State() == db
        invariant forall j :: 0 <= j < i ==> order[j] !in Candidates(db, agent, a.id)
      {
        var id := order[i];
        assert id in Elems(order);
        var n := Decoded(store.nodes[id].payload);
        DecodedKeeps(store.nodes[id].payload);
        if IsProcedureOf(n, agent) && Names(n.nodeType.procedural, a.id) {
          r := store.WriteNode(n.(nodeType := Procedure(Stored(n.nodeType.procedural, a))), now);
          return id, r;
        }
      }
      assert Candidates(db, agent, a.id) == {} by {
        assert forall n :: n in db.nodes ==> n in Elems(order) && n in order;
      }
      at := newId;
      r := store.WriteNode(Node(newId, agent, None, Procedure(Stored(FreshProcedural(a.id), a)), []), now);
    }

    /** Find by an empty search, change, write back. */
    method RecordReuse(agent: string, reuse: Reuse, newId: Uuid, now: int)
      returns (found: Option<Artifact>, at: Uuid, r: Outcome)
      requires newId !in store.nodes
      modifies store
      ensures found.None? ==> store.State() == old(store.State())
      ensures FoundBy(old(store.State()), agent, reuse.procedureId, found)
      ensures found.Some? ==>
                && PicksRow(old(store.State()), agent, reuse.procedureId, at)
                && Effect(store.State(), r) == Upsert(old(store.State()), agent, Reused(found.value, reuse), at, now)
    {
      hide Upsert, PicksRow, FoundBy;
      at, r := newId, Done;
      found := FindArtifact(store.State(), agent, reuse.procedureId);
      if found.Some? {
        at, r := UpsertProcedureArtifact(agent, Reused(found.value, reuse), newId, now);
      }
    }
  }

  /** `found` is an artifact with that id which the empty search returns, if there is one. */
  ghost predicate FoundBy(db: Db, agent: string, id: string, found: Option<Artifact>) {
    match found
    case Some(a) => a.id == id && exists n :: n in Hits(db, Everything(agent)) && ArtifactAt(db, n) == Some(a)
    case None => forall n :: n in Hits(db, Everything(agent)) ==> ArtifactAt(db, n).Some? && ArtifactAt(db, n).value.id != id
  }

  method FindArtifact(db: Db, agent: string, id: string) returns (found: Option<Artifact>)
    ensures FoundBy(db, agent, id, found)
    ensures found.Some? ==> found.value.id == id
  {
    hide Hits, ArtifactAt, Artifacts;
    var artifacts := Search(db, Everything(agent), |db.nodes|);
    ghost var ids: seq<Uuid> :|
      RanksHits(db, Everything(agent), ids) && artifacts == Artifacts(db, ids[..Min(|db.nodes|, |ids|)]);
    AllAreReturned(db, Everything(agent), ids);
    assert artifacts == Artifacts(db, ids);
    for i := 0 to |artifacts|
      invariant forall j :: 0 <= j < i ==> artifacts[j].id != id
    {
      if artifacts[i].id == id {
        assert ids[i] in Elems(ids);
        return Some(artifacts[i]);
      }
    }
    forall n | n in Hits(db, Everything(agent)) ensures ArtifactAt(db, n).Some? && ArtifactAt(db, n).value.id != id {
      assert n in Elems(ids);
      var i :| 0 <= i < |ids| && ids[i] == n;
      assert artifacts[i].id != id;
    }
    found := None;
  }

  /** A limit of the table size cuts nothing off, and each hit yields its own artifact. */
  lemma AllAreReturned(db: Db, q: Query, ids: seq<Uuid>)
    requires Distinct(ids) && Elems(ids) == Hits(db, q)
    ensures Min(|db.nodes|, |ids|) == |ids| && ids[..|ids|] == ids
    ensures forall n :: n in Hits(db, q) ==> ArtifactAt(db, n).Some?
    ensures |Artifacts(db, ids)| == |ids|
    ensures forall i :: 0 <= i < |ids| ==> ArtifactAt(db, ids[i]) == Some(Artifacts(db, ids)[i])
  {
    hide Score;
    DistinctBound(ids, db.nodes.Keys);
    assert |db.nodes.Keys| == |db.nodes|;
    assert Elems(ids) <= Hits(db, q);
    ArtifactsOfHits(db, q, ids);
  }

  lemma {:induction false} ArtifactsOfHits(db: Db, q: Query, ids: seq<Uuid>)
    requires Elems(ids) <= Hits(db, q)
    ensures |Artifacts(db, ids)| == |ids|
    ensures forall i :: 0 <= i < |ids| ==> ArtifactAt(db, ids[i]) == Some(Artifacts(db, ids)[i])
  {
    hide Score;
    if ids != [] {
      var front, last := ids[..|ids| - 1], ids[|ids| - 1];
      assert last in Elems(ids);
      assert Elems(front) <= Elems(ids);
      ArtifactsOfHits(db, q, front);
    }
  }

  /** A reuse is recorded exactly when the artifact is in the map, validated or promoted, and
      either needs no tools or still has positive fitness. */
  lemma RecordSucceedsIff(db: Db, m: map<Shelf, Artifact>, agent: string, id: string, found: Option<Artifact>)
    requires Shelved(db) && Refines(db, m) && FoundBy(db, agent, id, found)
    ensures found.Some? <==>
            && (agent, id) in m
            && var a := m[(agent, id)];
               (a.lifecycle.Validated? || a.lifecycle.Promoted?) && (a.requiredTools == [] || a.fitness > 0.0)
    ensures found.Some? ==> found.value == m[(agent, id)]
  {
    hide Score, Shelved, Refines, Everything;
    var q := Everything(agent);
    assert q.agent == agent by {
      EverythingOf(agent);
    }
    if found.Some? {
      var n :| n in Hits(db, q) && ArtifactAt(db, n) == found;
      HitIsInMap(db, m, q, n);
      EmptyQueryScore(agent, m[(agent, id)]);
    }
    if (agent, id) in m && Recordable(m[(agent, id)]) {
      EmptyQueryScore(agent, m[(agent, id)]);
      var n := MapEntryIsHit(db, m, q, id);
    }
  }

  lemma EverythingOf(agent: string)
    ensures Everything(agent).agent == agent
  {
  }

  lemma MapEntryIsUpsertable(db: Db, m: map<Shelf, Artifact>, agent: string, id: string)
    requires Shelved(db) && Refines(db, m) && (agent, id) in m
    ensures Upsertable(db, agent, id)
  {
    hide Shelved, Upsertable;
    assert Holds(db, (agent, id), m[(agent, id)]);
    KnownIsUpsertable(db, agent, m[(agent, id)]);
  }

  /** A reuse counts once more, moves the fitness by its outcome within [0, 1], and adds its
      failure id if that is new. */
  lemma ReusedExactly(a: Artifact, reuse: Reuse)
    ensures var moved := a.fitness + match reuse.result
                                     case Success => 0.04
                                     case PartialSuccess => 0.01
                                     case Failure => -0.08
                                     case Aborted => -0.12;
            Reused(a, reuse) ==
            a.(observationCount := Min(a.observationCount + 1, 0xFFFF_FFFF),
               fitness := if moved < 0.0 then 0.0 else if moved > 1.0 then 1.0 else moved,
               sourceFailureIds := match reuse.failureId
                                   case None => a.sourceFailureIds
                                   case Some(f) => a.sourceFailureIds + if f in a.sourceFailureIds then [] else [f])
  {
    assert a.sourceFailureIds + [] == a.sourceFailureIds;
  }

  /** A recorded reuse changes its own map entry and no other: one more observation, fitness
      still in [0, 1], and each failure id listed once. */
  lemma RecordChangesOneEntry(
    db: Db, m: map<Shelf, Artifact>, agent: string, reuse: Reuse, a: Artifact, at: Uuid, now: int)
    requires Shelved(db) && Refines(db, m) && FoundBy(db, agent, reuse.procedureId, Some(a))
    requires PicksRow(db, agent, reuse.procedureId, at)
    ensures var e, b := Upsert(db, agent, Reused(a, reuse), at, now), Reused(a, reuse);
            && (agent, a.id) in m && m[(agent, a.id)] == a
            && e.outcome == Done && Shelved(e.db) && Refines(e.db, m[(agent, a.id) := b])
            && b.id == a.id && 0.0 <= b.fitness <= 1.0
            && (Distinct(a.sourceFailureIds) ==> Distinct(b.sourceFailureIds))
            && b.observationCount == Min(a.observationCount + 1, U32_MAX)
  {
    hide Upsert, PicksRow, Shelved, Refines, Hits;
    EverythingOf(agent);
    var n :| n in Hits(db, Everything(agent)) && ArtifactAt(db, n) == Some(a);
    HitIsInMap(db, m, Everything(agent), n);
    MapEntryIsUpsertable(db, m, agent, a.id);
    UpsertIsMapUpdate(db, m, agent, Reused(a, reuse), at, now);
  }

  // ---- Runs of reuse records ----

  /** One call of `RecordReuse`: what it found and the row it wrote. */
  datatype Recording = Recording(agent: string, reuse: Reuse, found: Option<Artifact>, at: Uuid, now: int)

  ghost predicate RecordStep(db: Db, r: Recording, after: Db) {
    && FoundBy(db, r.agent, r.reuse.procedureId, r.found)
    && match r.found
       case None => after == db
       case Some(a) =>
         && PicksRow(db, r.agent, r.reuse.procedureId, r.at)
         && after == Upsert(db, r.agent, Reused(a, r.reuse), r.at, r.now).db
  }

  ghost predicate RecordRun(states: seq<Db>, recs: seq<Recording>) {
    && |states| == |recs| + 1
    && forall i :: 0 <= i < |recs| ==> RecordStep(states[i], recs[i], states[i + 1])
  }

  function ShelfOf(r: Recording): Shelf {
    (r.agent, r.reuse.procedureId)
  }

  function RecordOne(m: map<Shelf, Artifact>, r: Recording): map<Shelf, Artifact> {
    if ShelfOf(r) in m && Recordable(m[ShelfOf(r)]) then m[ShelfOf(r) := Reused(m[ShelfOf(r)], r.reuse)] else m
  }

  function RecordAll(m: map<Shelf, Artifact>, recs: seq<Recording>): map<Shelf, Artifact> {
    if recs == [] then m else RecordOne(RecordAll(m, recs[..|recs| - 1]), recs[|recs| - 1])
  }

  lemma RecordIsMapStep(db: Db, m: map<Shelf, Artifact>, r: Recording, after: Db)
    requires Shelved(db) && Refines(db, m) && RecordStep(db, r, after)
    ensures Shelved(after) && Refines(after, RecordOne(m, r))
    ensures r.found.Some? <==> ShelfOf(r) in m && Recordable(m[ShelfOf(r)])
  {
    hide Shelved, Refines, FoundBy, PicksRow, Upsert, Reused;
    RecordSucceedsIff(db, m, r.agent, r.reuse.procedureId, r.found);
    if r.found.Some? {
      RecordChangesOneEntry(db, m, r.agent, r.reuse, r.found.value, r.at, r.now);
      assert r.found.value.id == r.reuse.procedureId by {
        FoundHasId(db, r.agent, r.reuse.procedureId, r.found.value);
      }
    }
  }

  lemma FoundHasId(db: Db, agent: string, id: string, a: Artifact)
    requires FoundBy(db, agent, id, Some(a))
    ensures a.id == id
  {
  }

  /** In every run of reuse records the table is the map of recorded reuses. */
  lemma {:induction false} RecordsRefineMap(states: seq<Db>, recs: seq<Recording>, m: map<Shelf, Artifact>)
    requires RecordRun(states, recs) && Shelved(states[0]) && Refines(states[0], m)
    ensures Shelved(states[|recs|]) && Refines(states[|recs|], RecordAll(m, recs))
    decreases |recs|
  {
    hide Shelved, Refines, RecordStep, RecordOne;
    if recs != [] {
      var k := |recs| - 1;
      RecordsRefineMap(states[..k + 1], recs[..k], m);
      RecordIsMapStep(states[k], RecordAll(m, recs[..k]), recs[k], states[k + 1]);
    }
  }

  /** An artifact through a history of reuses: those that cannot be recorded change nothing. */
  function Through(a: Artifact, history: seq<Reuse>): Artifact {
    if history == [] then a
    else
      var b := Through(a, history[..|history| - 1]);
      if Recordable(b) then Reused(b, history[|history| - 1]) else b
  }

  /** The reuses of one artifact among the recordings. */
  function ReusesOf(recs: seq<Recording>, shelf: Shelf): seq<Reuse> {
    if recs == [] then []
    else
      var last := recs[|recs| - 1];
      ReusesOf(recs[..|recs| - 1], shelf) + if ShelfOf(last) == shelf then [last.reuse] else []
  }

  /** Every entry goes through its own reuses only. */
  lemma {:induction false} EntriesAreIndependent(m: map<Shelf, Artifact>, recs: seq<Recording>, shelf: Shelf)
    requires shelf in m
    ensures shelf in RecordAll(m, recs) && RecordAll(m, recs)[shelf] == Through(m[shelf], ReusesOf(recs, shelf))
  {
    hide Recordable, Reused, Through;
    if recs == [] {
      ThroughNothing(m[shelf]);
    }
    if recs != [] {
      var front := recs[..|recs| - 1];
      EntriesAreIndependent(m, front, shelf);
      ThroughSnoc(m[shelf], ReusesOf(front, shelf), recs[|recs| - 1].reuse);
      assert ReusesOf(front, shelf) + [] == ReusesOf(front, shelf);
    }
  }

  lemma ThroughNothing(a: Artifact)
    ensures Through(a, []) == a
  {
  }

  lemma ThroughSnoc(a: Artifact, history: seq<Reuse>, last: Reuse)
    ensures var b := Through(a, history);
            Through(a, history + [last]) == if Recordable(b) then Reused(b, last) else b
  {
    hide Recordable, Reused;
    assert (history + [last])[..|history|] == history;
  }

  lemma {:induction false} SpentStaysSpent(a: Artifact, history: seq<Reuse>, later: seq<Reuse>)
    requires !Recordable(Through(a, history))
    ensures Through(a, history + later) == Through(a, history)
    decreases |later|
  {
    if later == [] {
      assert history + later == history;
    } else {
      SpentStaysSpent(a, history, later[..|later| - 1]);
      assert (history + later)[..|history + later| - 1] == history + later[..|later| - 1];
    }
  }

  lemma {:induction false} FailuresLower(a: Artifact, failures: seq<Reuse>)
    requires a.requiredTools != [] && forall r :: r in failures ==> r.result == TrajectoryOutcome.Failure
    ensures var b := Through(a, failures);
            && b.requiredTools == a.requiredTools
            && (Recordable(b) ==> b.fitness <= a.fitness - 0.08 * |failures| as real)
  {
    if failures != [] {
      FailuresLower(a, failures[..|failures| - 1]);
      assert failures[|failures| - 1] in failures;
    }
  }

  lemma {:induction false} ReusesAppend(p: seq<Recording>, q: seq<Recording>, shelf: Shelf)
    ensures ReusesOf(p + q, shelf) == ReusesOf(p, shelf) + ReusesOf(q, shelf)
  {
    hide ShelfOf;
    if q == [] {
      assert p + q == p;
    } else {
      ReusesAppend(p, q[..|q| - 1], shelf);
      assert (p + q)[..|p + q| - 1] == p + q[..|q| - 1];
    }
  }

  /** Fitness that has run out can never be earned back. In any run of records on a store: once an
      artifact that needs tools has seen nothing but failures, and enough of them to use up its
      fitness, no later record of it finds it, not even a success. */
  lemma FailuresSpend(states: seq<Db>, recs: seq<Recording>, m: map<Shelf, Artifact>, shelf: Shelf, k: nat, j: nat)
    requires RecordRun(states, recs) && Shelved(states[0]) && Refines(states[0], m)
    requires shelf in m && m[shelf].requiredTools != [] && k <= j < |recs| && ShelfOf(recs[j]) == shelf
    requires forall r :: r in ReusesOf(recs[..k], shelf) ==> r.result == TrajectoryOutcome.Failure
    requires m[shelf].fitness <= 0.08 * |ReusesOf(recs[..k], shelf)| as real
    ensures recs[j].found.None? && states[j + 1] == states[j]
  {
    hide Shelved, Refines, FoundBy, PicksRow, Upsert, Through, ReusesOf, RecordAll, ShelfOf;
    var failures, later := ReusesOf(recs[..k], shelf), ReusesOf(recs[k..j], shelf);
    FailuresLower(m[shelf], failures);
    SpentStaysSpent(m[shelf], failures, later);
    assert recs[..j] == recs[..k] + recs[k..j];
    ReusesAppend(recs[..k], recs[k..j], shelf);
    EntriesAreIndependent(m, recs[..j], shelf);
    RecordsRefineMap(states[..j + 1], recs[..j], m);
    RecordIsMapStep(states[j], RecordAll(m, recs[..j]), recs[j], states[j + 1]);
  }

  const SPENT: Artifact := Artifact("p", "", ["tool"], [], [], [], [], [], [], 0.0, 1, Validated)

  const SPENT_ROW: Node := Node(1, "a", None, Procedure(Stored(FreshProcedural("p"), SPENT)), [])

  lemma SpentIsShelved(db: Db)
    requires db.nodes == map[1 := RowFor(SPENT_ROW, 0)]
    ensures Shelved(db) && Refines(db, map[("a", "p") := SPENT])
  {
    hide RowFor;
    assert RowFor(SPENT_ROW, 0).payload == SPENT_ROW by {
      RowHoldsNode(SPENT_ROW, 0);
    }
    assert IsProcedureOf(db.nodes[1].payload, "a");
    assert Holds(db, ("a", "p"), SPENT);
  }

  /** Such an artifact exists after one write: it is stored, validated and in the map, and no
      record finds it. */
  lemma SpentArtifactIsNotFound()
    ensures var db := Run(EMPTY, [WriteNode(SPENT_ROW, 0)]);
            Shelved(db) && Refines(db, map[("a", "p") := SPENT]) && FoundBy(db, "a", "p", None)
  {
    var op := WriteNode(SPENT_ROW, 0);
    assert Run(EMPTY, [op]) == Run(Apply(EMPTY, op).db, [op][1..]) == Apply(EMPTY, op).db;
    var db := Run(EMPTY, [op]);
    WriteTouchesOneRow(EMPTY, SPENT_ROW, 0);
    SpentIsShelved(db);
    hide Shelved, Refines, Score;
    forall n | n in Hits(db, Everything("a")) ensures false {
      EverythingOf("a");
      EmptyQueryScore("a", SPENT);
    }
  }
}
