/** How often a fact came back: at most one step per pass, and only after new references. */
module Recurrence {
  import opened Bounds
  import opened Collections
  import opened GraphModel
  import opened GraphIntegrity
  import opened GraphStore

  predicate IsFactOf(db: Db, agent: string, id: Uuid) {
    id in db.nodes && db.nodes[id].payload.nodeType.Semantic? && db.nodes[id].payload.agentId == agent
  }

  /** Referenced since the last pass. */
  predicate Due(db: Db, agent: string, id: Uuid) {
    && IsFactOf(db, agent, id)
    && db.nodes[id].payload.nodeType.semantic.referenceCount > db.nodes[id].payload.nodeType.semantic.lastRefSnapshot
  }

  function Bumped(f: SemanticFields): SemanticFields {
    f.(recurrence := Min(f.recurrence + 1, U32_MAX), lastRefSnapshot := f.referenceCount)
  }

  function BumpedNode(n: Node): Node {
    if n.nodeType.Semantic? then n.(nodeType := Semantic(Bumped(n.nodeType.semantic))) else n
  }

  /** `updated` is what the caller is told: nothing after an error. */
  datatype Update = Update(db: Db, updated: nat, outcome: Outcome)

  /** The facts in scan order; the first write that fails stops the phase. */
  function UpdateFrom(db: Db, agent: string, order: seq<Uuid>, now: int): (r: Update)
    ensures r.outcome.Failed? ==> r.updated == 0
    decreases |order|
  {
    if order == [] then Update(db, 0, Done)
    else if !Due(db, agent, order[0]) then UpdateFrom(db, agent, order[1..], now)
    else
      var e := PersistNode(db, BumpedNode(Decoded(db.nodes[order[0]].payload)), now);
      if e.outcome.Failed? then Update(e.db, 0, e.outcome)
      else
        var rest := UpdateFrom(e.db, agent, order[1..], now);
        rest.(updated := if rest.outcome.Failed? then 0 else rest.updated + 1)
  }

  method UpdateSemanticRecurrence(store: SqliteGraphStore, agent: string, order: seq<Uuid>, now: int)
    returns (updated: nat, r: Outcome)
    modifies store
    ensures Update(store.State(), updated, r) == UpdateFrom(old(store.State()), agent, order, now)
  {
    hide PersistNode;
    updated, r := 0, Done;
    for i := 0 to |order|
      invariant r == Done
      invariant var rest := UpdateFrom(store.State(), agent, order[i..], now);
                UpdateFrom(old(store.State()), agent, order, now) ==
                rest.(updated := if rest.outcome.Failed? then 0 else updated + rest.updated)
    {
      var id := order[i];
      assert order[i..][0] == id && order[i..][1..] == order[i + 1..];
      if Due(store.State(), agent, id) {
        r := store.WriteNode(BumpedNode(Decoded(store.nodes[id].payload)), now);
        if r.Failed? {
          return 0, r;
        }
        updated := updated + 1;
      }
    }
  }

  function DueIn(db: Db, agent: string, order: seq<Uuid>): seq<Uuid> {
    Filter(order, (id: Uuid) => Due(db, agent, id))
  }

  lemma {:induction false} DueFrame(a: Db, b: Db, agent: string, order: seq<Uuid>)
    requires forall id :: id in order ==> (Due(a, agent, id) <==> Due(b, agent, id))
    ensures DueIn(a, agent, order) == DueIn(b, agent, order)
  {
    hide Due;
    if order != [] {
      DueFrame(a, b, agent, order[1..]);
    }
  }

  /** A phase that succeeds raises exactly the facts it listed that were due, each by one step
      and up to its current references, counts them, and touches no other row. */
  lemma {:induction false} UpdateIsExact(db: Db, agent: string, order: seq<Uuid>, now: int)
    requires WellKeyed(db) && Distinct(order) && UpdateFrom(db, agent, order, now).outcome.Done?
    ensures var r := UpdateFrom(db, agent, order, now);
            && WellKeyed(r.db) && r.db.nodes.Keys == db.nodes.Keys && r.updated == |DueIn(db, agent, order)|
            && forall id :: id in db.nodes ==>
                 if id in order && Due(db, agent, id)
                 then r.db.nodes[id].payload == BumpedNode(Decoded(db.nodes[id].payload))
                 else r.db.nodes[id] == db.nodes[id]
    decreases |order|
  {
    hide PersistNode, Bumped, Decoded;
    if order != [] {
      var id, rest := order[0], order[1..];
      DistinctTail(order);
      assert order == [id] + rest;
      if Due(db, agent, id) {
        var n := BumpedNode(Decoded(db.nodes[id].payload));
        BumpKeepsRest(db.nodes[id].payload);
        var e := PersistNode(db, n, now);
        WriteTouchesOneRow(db, n, now);
        NodeWriteKeeps(db, n, now);
        UpdateIsExact(e.db, agent, rest, now);
        DueFrame(db, e.db, agent, rest);
      } else {
        UpdateIsExact(db, agent, rest, now);
      }
    }
  }

  /** In terms of the rows: a listed fact of the agent with references since its last snapshot comes
      back once more and takes the snapshot; every other row is as it was. */
  lemma UpdateRaises(db: Db, agent: string, order: seq<Uuid>, now: int, id: Uuid)
    requires WellKeyed(db) && Distinct(order) && UpdateFrom(db, agent, order, now).outcome.Done?
    requires id in db.nodes
    ensures var r := UpdateFrom(db, agent, order, now).db;
            && id in r.nodes
            && var m, n := db.nodes[id].payload, r.nodes[id].payload;
               if id in order && m.nodeType.Semantic? && m.agentId == agent
                  && m.nodeType.semantic.referenceCount > m.nodeType.semantic.lastRefSnapshot
               then
                 var f := m.nodeType.semantic;
                 && n.id == m.id && n.agentId == m.agentId && n.links == m.links
                 && n.nodeType == Semantic(f.(recurrence := Min(f.recurrence + 1, 0xFFFF_FFFF),
                                              lastRefSnapshot := f.referenceCount))
               else r.nodes[id] == db.nodes[id]
  {
    hide UpdateFrom;
    UpdateIsExact(db, agent, order, now);
  }

  /** What a bump leaves alone, and that a bumped fact is not due. */
  lemma BumpKeepsRest(n: Node)
    ensures var b := BumpedNode(Decoded(n));
            && b.id == n.id && b.agentId == n.agentId && b.links == n.links
            && (b.nodeType.Semantic? <==> n.nodeType.Semantic?)
            && (n.nodeType.Semantic? ==> b.nodeType.semantic.lastRefSnapshot == b.nodeType.semantic.referenceCount)
  {
  }

  /** Without new references a second pass updates nothing, whatever order either scan takes. */
  lemma SecondUpdateIsIdle(db: Db, agent: string, order: seq<Uuid>, again: seq<Uuid>, now: int, later: int)
    requires WellKeyed(db) && Distinct(order) && UpdateFrom(db, agent, order, now).outcome.Done?
    requires forall id :: Due(db, agent, id) ==> id in order
    ensures var r := UpdateFrom(db, agent, order, now).db; UpdateFrom(r, agent, again, later) == Update(r, 0, Done)
  {
    hide UpdateFrom;
    UpdateIsExact(db, agent, order, now);
    var r := UpdateFrom(db, agent, order, now).db;
    forall id | id in r.nodes ensures !Due(r, agent, id) {
      BumpKeepsRest(db.nodes[id].payload);
    }
    NothingDue(r, agent, again, later);
  }

  lemma {:induction false} NothingDue(db: Db, agent: string, order: seq<Uuid>, now: int)
    requires forall id :: id in db.nodes ==> !Due(db, agent, id)
    ensures UpdateFrom(db, agent, order, now) == Update(db, 0, Done)
  {
    if order != [] {
      NothingDue(db, agent, order[1..], now);
    }
  }
}
