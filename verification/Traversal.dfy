/** The two breadth-first searches over the edge table, against shortest paths. */
module Traversal {
  import opened Wrappers
  import opened Collections
  import opened GraphModel

  const LINEAGE_RELS := {"DERIVED_FROM", "CAUSED_PATCH"}

  const LINEAGE_DEPTH := 20

  function Successors(db: Db, rels: set<string>, s: Uuid): set<Uuid> {
    set k | k in db.edges && k.source == s && k.rel in rels :: k.target
  }

  /** A walk along `rels` on which every node after the first has a row. */
  ghost predicate IsPath(db: Db, rels: set<string>, p: seq<Uuid>) {
    && |p| > 0
    && forall i :: 0 < i < |p| ==> p[i] in db.nodes && p[i] in Successors(db, rels, p[i - 1])
  }

  ghost predicate HasPath(db: Db, rels: set<string>, start: Uuid, t: Uuid, n: int) {
    exists p :: IsPath(db, rels, p) && p[0] == start && p[|p| - 1] == t && |p| - 1 <= n
  }

  /** `a` is no farther from `start` than `b`. */
  ghost predicate NoFarther(db: Db, rels: set<string>, start: Uuid, a: Uuid, b: Uuid) {
    forall n: nat :: HasPath(db, rels, start, b, n) ==> HasPath(db, rels, start, a, n)
  }

  // ---- Balls: the nodes within n steps, and their agreement with paths ----

  ghost function Step(db: Db, rels: set<string>, w: set<Uuid>): set<Uuid> {
    set t | t in db.nodes && exists s :: s in w && t in Successors(db, rels, s)
  }

  ghost function Ball(db: Db, rels: set<string>, start: Uuid, n: nat): set<Uuid> {
    if n == 0 then {start}
    else var w := Ball(db, rels, start, n - 1); w + Step(db, rels, w)
  }

  lemma {:induction false} BallGrows(db: Db, rels: set<string>, start: Uuid, m: nat, n: nat)
    requires m <= n
    ensures Ball(db, rels, start, m) <= Ball(db, rels, start, n)
    decreases n
  {
    if m < n {
      BallGrows(db, rels, start, m, n - 1);
    }
  }

  lemma {:induction false} PathInBall(db: Db, rels: set<string>, p: seq<Uuid>)
    requires IsPath(db, rels, p)
    ensures p[|p| - 1] in Ball(db, rels, p[0], |p| - 1)
    decreases |p|
  {
    if |p| > 1 {
      var q := p[..|p| - 1];
      PathInBall(db, rels, q);
      assert p[|p| - 1] in Successors(db, rels, q[|q| - 1]);
    }
  }

  lemma {:induction false} BallHasPath(db: Db, rels: set<string>, start: Uuid, t: Uuid, n: nat)
    requires t in Ball(db, rels, start, n)
    ensures HasPath(db, rels, start, t, n)
    decreases n
  {
    if n == 0 {
      assert IsPath(db, rels, [start]);
    } else if t in Ball(db, rels, start, n - 1) {
      BallHasPath(db, rels, start, t, n - 1);
    } else {
      var s :| s in Ball(db, rels, start, n - 1) && t in Successors(db, rels, s);
      BallHasPath(db, rels, start, s, n - 1);
      ExtendPath(db, rels, start, s, t, n - 1);
    }
  }

  lemma ExtendPath(db: Db, rels: set<string>, start: Uuid, s: Uuid, t: Uuid, n: nat)
    requires HasPath(db, rels, start, s, n) && t in db.nodes && t in Successors(db, rels, s)
    ensures HasPath(db, rels, start, t, n + 1)
  {
    var p :| IsPath(db, rels, p) && p[0] == start && p[|p| - 1] == s && |p| - 1 <= n;
    assert IsPath(db, rels, p + [t]);
  }

  /** A node is in the ball of radius `n` exactly when a path of at most `n` steps reaches it. */
  lemma BallIsPaths(db: Db, rels: set<string>, start: Uuid, t: Uuid, n: nat)
    ensures t in Ball(db, rels, start, n) <==> HasPath(db, rels, start, t, n)
  {
    if t in Ball(db, rels, start, n) {
      BallHasPath(db, rels, start, t, n);
    }
    if HasPath(db, rels, start, t, n) {
      var p :| IsPath(db, rels, p) && p[0] == start && p[|p| - 1] == t && |p| - 1 <= n;
      PathInBall(db, rels, p);
      BallGrows(db, rels, start, |p| - 1, n);
    }
  }

  lemma {:induction false} BallStable(db: Db, rels: set<string>, start: Uuid, m: nat, n: nat)
    requires m <= n && Step(db, rels, Ball(db, rels, start, m)) <= Ball(db, rels, start, m)
    ensures Ball(db, rels, start, n) == Ball(db, rels, start, m)
    decreases n
  {
    if m < n {
      BallStable(db, rels, start, m, n - 1);
    }
  }

  // ---- Row access ----

  function ReadNode(db: Db, id: Uuid): Option<Node> {
    if id in db.nodes then Some(Decoded(db.nodes[id].payload)) else None
  }

  /** `SELECT to_id` for one source: rows in any order, a target once per matching row. */
  method SelectTargets(db: Db, rels: set<string>, source: Uuid) returns (ts: seq<Uuid>)
    ensures Elems(ts) == Successors(db, rels, source)
  {
    var keys := Enumerate(set k | k in db.edges && k.source == source && k.rel in rels);
    ts := seq(|keys|, i requires 0 <= i < |keys| => keys[i].target);
    forall t ensures t in ts <==> t in Successors(db, rels, source) {
      if t in Successors(db, rels, source) {
        var k :| k in db.edges && k.source == source && k.rel in rels && k.target == t;
        assert k in Elems(keys);
        var i :| 0 <= i < |keys| && keys[i] == k;
        assert ts[i] == t;
      }
      if t in ts {
        var i :| 0 <= i < |ts| && ts[i] == t;
        assert keys[i] in Elems(keys);
      }
    }
  }

  /** What both searches promise of their output: decoded rows, each once, nearest first. */
  ghost predicate Listing(db: Db, rels: set<string>, start: Uuid, out: seq<Node>) {
    && Distinct(Ids(out))
    && (forall i :: 0 <= i < |out| ==>
          out[i].id in db.nodes && out[i] == Decoded(db.nodes[out[i].id].payload))
    && (forall i, j :: 0 <= i < j < |out| ==> NoFarther(db, rels, start, out[i].id, out[j].id))
  }

  // ---- lineage ----

  /** A queue entry of the search. */
  datatype Visit = Visit(id: Uuid, depth: nat)

  ghost predicate AtDistance(db: Db, rels: set<string>, start: Uuid, v: Visit) {
    forall n: nat :: v.id in Ball(db, rels, start, n) <==> v.depth <= n
  }

  ghost function Seen(order: seq<Visit>): set<Uuid> {
    set v | v in order :: v.id
  }

  /** Nearest first, and no node twice. */
  ghost predicate Ordered(order: seq<Visit>) {
    forall i, j :: 0 <= i < j < |order| ==> order[i].depth <= order[j].depth && order[i].id != order[j].id
  }

  lemma OrderedGrows(order: seq<Visit>, entry: Visit)
    requires Ordered(order) && entry.id !in Seen(order)
    requires forall u :: u in order ==> u.depth <= entry.depth
    ensures Ordered(order + [entry])
  {
    forall i | 0 <= i < |order| ensures order[i].depth <= entry.depth && order[i].id != entry.id {
      assert order[i] in order && order[i].id in Seen(order);
    }
  }

  /** Every visit ever queued, in order: the start, then rows at their exact distance,
      nearest first, no node twice. */
  ghost predicate Frontier(db: Db, rels: set<string>, start: Uuid, order: seq<Visit>) {
    && order != [] && order[0] == Visit(start, 0)
    && (forall i :: 0 < i < |order| ==> order[i].id in db.nodes)
    && Ordered(order)
    && (forall v :: v in order ==> AtDistance(db, rels, start, v))
  }

  /** The visits shallower than `limit` among `done` have all their successors listed. */
  ghost predicate Expanded(db: Db, rels: set<string>, done: seq<Visit>, seen: set<Uuid>, limit: nat) {
    forall v :: v in done && v.depth < limit ==> Successors(db, rels, v.id) * db.nodes.Keys <= seen
  }

  lemma {:induction false} BallListed(db: Db, rels: set<string>, start: Uuid, order: seq<Visit>,
                                      h: nat, limit: nat, n: nat)
    requires h <= |order| && Frontier(db, rels, start, order)
    requires Expanded(db, rels, order[..h], Seen(order), limit)
    requires forall i :: h <= i < |order| ==> n <= order[i].depth
    requires n <= limit
    ensures Ball(db, rels, start, n) <= Seen(order)
  {
    if n > 0 {
      BallListed(db, rels, start, order, h, limit, n - 1);
      forall t | t in Step(db, rels, Ball(db, rels, start, n - 1)) ensures t in Seen(order) {
        var s :| s in Ball(db, rels, start, n - 1) && t in Successors(db, rels, s);
        var v :| v in order && v.id == s;
        assert AtDistance(db, rels, start, v);
        assert v in order[..h];
      }
    }
  }

  lemma DistanceOfNew(db: Db, rels: set<string>, start: Uuid, s: Uuid, d: nat, t: Uuid)
    requires s in Ball(db, rels, start, d) && t !in Ball(db, rels, start, d)
    requires t in db.nodes && t in Successors(db, rels, s)
    ensures AtDistance(db, rels, start, Visit(t, d + 1))
  {
    forall n: nat ensures t in Ball(db, rels, start, n) <==> d + 1 <= n {
      if d + 1 <= n {
        assert t in Step(db, rels, Ball(db, rels, start, d));
        assert t in Ball(db, rels, start, d + 1);
        BallGrows(db, rels, start, d + 1, n);
      } else {
        BallGrows(db, rels, start, n, d);
      }
    }
  }

  /** Queueing an unlisted successor of the visit being expanded keeps depths exact. */
  lemma FrontierGrows(db: Db, rels: set<string>, start: Uuid, order: seq<Visit>, v: Visit, t: Uuid)
    requires Frontier(db, rels, start, order) && v in order
    requires forall u :: u in order ==> u.depth <= v.depth + 1
    requires Ball(db, rels, start, v.depth) <= Seen(order)
    requires t !in Seen(order) && t in db.nodes && t in Successors(db, rels, v.id)
    ensures Frontier(db, rels, start, order + [Visit(t, v.depth + 1)])
    ensures Seen(order + [Visit(t, v.depth + 1)]) == Seen(order) + {t}
  {
    hide Ball, Successors;
    var entry := Visit(t, v.depth + 1);
    assert AtDistance(db, rels, start, entry) by {
      assert AtDistance(db, rels, start, v);
      DistanceOfNew(db, rels, start, v.id, v.depth, t);
    }
    hide AtDistance, Ordered, Seen;
    SeenGrows(order, entry);
    OrderedGrows(order, entry);
  }

  lemma SeenGrows(order: seq<Visit>, entry: Visit)
    ensures Seen(order + [entry]) == Seen(order) + {entry.id}
    ensures forall u :: u in order + [entry] <==> u in order || u == entry
  {
  }

  ghost predicate Decodes(db: Db, out: seq<Node>, order: seq<Visit>) {
    && |order| == |out|
    && forall i :: 0 <= i < |out| ==>
                     order[i].id in db.nodes && out[i] == Decoded(db.nodes[order[i].id].payload)
  }

  lemma NearerIsNoFarther(db: Db, rels: set<string>, start: Uuid, a: Visit, b: Visit)
    requires AtDistance(db, rels, start, a) && AtDistance(db, rels, start, b) && a.depth <= b.depth
    ensures NoFarther(db, rels, start, a.id, b.id)
  {
    forall n: nat | HasPath(db, rels, start, b.id, n) ensures HasPath(db, rels, start, a.id, n) {
      BallIsPaths(db, rels, start, a.id, n);
      BallIsPaths(db, rels, start, b.id, n);
    }
  }

  /** A decoded list of visits at exact, nondecreasing distances is a listing of their ids. */
  lemma ListingFromVisits(db: Db, rels: set<string>, start: Uuid, order: seq<Visit>, out: seq<Node>)
    requires WellKeyed(db) && Decodes(db, out, order)
    requires Ordered(order)
    requires forall v :: v in order ==> AtDistance(db, rels, start, v)
    ensures Listing(db, rels, start, out)
    ensures Elems(Ids(out)) == Seen(order)
  {
    forall i, j | 0 <= i < j < |out| ensures NoFarther(db, rels, start, out[i].id, out[j].id) {
      NearerIsNoFarther(db, rels, start, order[i], order[j]);
    }
    forall i | 0 <= i < |out| ensures Ids(out)[i] == order[i].id && order[i].id in Seen(order) {
      assert order[i] in order;
    }
    forall t | t in Seen(order) ensures t in Ids(out) {
      var v :| v in order && v.id == t;
      var i :| 0 <= i < |order| && order[i] == v;
      assert Ids(out)[i] == t;
    }
  }

  /** Everything reachable over DERIVED_FROM and CAUSED_PATCH in at most 20 steps: the
      start itself is never listed, and it need not have a row. */
  method Lineage(db: Db, start: Uuid) returns (out: seq<Node>)
    requires WellKeyed(db)
    ensures Listing(db, {"DERIVED_FROM", "CAUSED_PATCH"}, start, out)
    ensures forall t :: t in Ids(out) <==>
                          t != start && HasPath(db, {"DERIVED_FROM", "CAUSED_PATCH"}, start, t, 20)
  {
    out := BreadthFirst(db, LINEAGE_RELS, start, LINEAGE_DEPTH);
  }

  /** What holds of the search between two dequeues. */
  ghost predicate Searching(db: Db, rels: set<string>, start: Uuid, done: seq<Visit>, queue: seq<Visit>,
                            visited: set<Uuid>, out: seq<Node>, limit: nat)
  {
    && Frontier(db, rels, start, done + queue)
    && Decodes(db, out, (done + queue)[1..])
    && Seen(done + queue) <= visited && visited - Seen(done + queue) !! db.nodes.Keys
    && Expanded(db, rels, done, Seen(done + queue), limit)
    && (forall v :: v in done + queue ==> v.depth <= limit && (queue != [] ==> v.depth <= queue[0].depth + 1))
  }

  method BreadthFirst(db: Db, rels: set<string>, start: Uuid, limit: nat) returns (out: seq<Node>)
    requires WellKeyed(db)
    ensures Listing(db, rels, start, out)
    ensures forall t :: t in Ids(out) <==> t != start && HasPath(db, rels, start, t, limit)
  {
    hide Searching, Frontier, Expanded, Decodes, Ball, HasPath, Listing;
    var visited := {start};
    out := [];
    var queue := [Visit(start, 0)];
    ghost var done: seq<Visit> := [];
    SearchStarts(db, rels, start, limit);
    while queue != []
      invariant Searching(db, rels, start, done, queue, visited, out, limit)
      decreases |db.nodes.Keys + {start}| - |done|
    {
      var v := queue[0];
      ghost var prev := done;
      Dequeue(db, rels, start, done, queue, visited, out, limit);
      Rejoin(done, queue);
      queue := queue[1..];
      done := done + [v];
      ghost var waiting := queue;
      if v.depth < limit {
        queue, visited, out := Expand(db, rels, start, v, queue, visited, out, done);
      }
      Dequeued(db, rels, start, prev, v, waiting, queue, visited, out, limit);
    }
    SearchEnds(db, rels, start, done, visited, out, limit);
  }

  lemma SearchStarts(db: Db, rels: set<string>, start: Uuid, limit: nat)
    ensures Searching(db, rels, start, [], [Visit(start, 0)], {start}, [], limit)
  {
    forall n: nat ensures start in Ball(db, rels, start, n) {
      BallGrows(db, rels, start, 0, n);
    }
    assert [] + [Visit(start, 0)] == [Visit(start, 0)];
  }

  lemma Rejoin(done: seq<Visit>, queue: seq<Visit>)
    requires queue != []
    ensures done + [queue[0]] + queue[1..] == done + queue
  {
  }

  lemma QueueIsDeeper(db: Db, rels: set<string>, start: Uuid, done: seq<Visit>, queue: seq<Visit>)
    requires queue != [] && Frontier(db, rels, start, done + queue)
    ensures forall i :: |done| <= i < |done + queue| ==> queue[0].depth <= (done + queue)[i].depth
  {
    assert (done + queue)[|done|] == queue[0];
  }

  lemma Dequeue(db: Db, rels: set<string>, start: Uuid, done: seq<Visit>, queue: seq<Visit>,
                visited: set<Uuid>, out: seq<Node>, limit: nat)
    requires queue != [] && Searching(db, rels, start, done, queue, visited, out, limit)
    ensures |done| < |db.nodes.Keys + {start}|
    ensures var order := done + queue;
            && Frontier(db, rels, start, order)
            && Decodes(db, out, order[1..])
            && Seen(order) <= visited && visited - Seen(order) !! db.nodes.Keys
            && Ball(db, rels, start, queue[0].depth) <= Seen(order)
            && Expanded(db, rels, done, Seen(order), limit)
            && (forall u :: u in order ==> u.depth <= limit && u.depth <= queue[0].depth + 1)
  {
    hide Decodes, Seen, Ball, Expanded, Frontier;
    QueueIsDeeper(db, rels, start, done, queue);
    assert queue[0] in done + queue;
    VisitBound(db, rels, start, done + queue);
    assert (done + queue)[..|done|] == done;
    BallListed(db, rels, start, done + queue, |done|, limit, queue[0].depth);
  }

  lemma Dequeued(db: Db, rels: set<string>, start: Uuid, prev: seq<Visit>, v: Visit, waiting: seq<Visit>,
                 queue: seq<Visit>, visited: set<Uuid>, out: seq<Node>, limit: nat)
    requires v.depth < limit ==> Successors(db, rels, v.id) * db.nodes.Keys <= Seen(prev + [v] + queue)
    requires v.depth < limit || waiting == queue
    requires waiting <= queue && Expanded(db, rels, prev, Seen(prev + [v] + waiting), limit)
    requires forall u :: u in prev + [v] + waiting ==> u.depth <= limit
    requires forall u :: u in prev + [v] + queue ==> u.depth <= v.depth + 1
    requires Frontier(db, rels, start, prev + [v] + queue) && Decodes(db, out, (prev + [v] + queue)[1..])
    requires Seen(prev + [v] + queue) <= visited && visited - Seen(prev + [v] + queue) !! db.nodes.Keys
    ensures Searching(db, rels, start, prev + [v], queue, visited, out, limit)
  {
    assert v in prev + [v] + waiting;
    assert Seen(prev + [v] + waiting) <= Seen(prev + [v] + queue);
    if queue != [] {
      var order := prev + [v] + queue;
      assert order[|prev|] == v && order[|prev| + 1] == queue[0];
    }
  }

  lemma SearchEnds(db: Db, rels: set<string>, start: Uuid, done: seq<Visit>, visited: set<Uuid>, out: seq<Node>,
                   limit: nat)
    requires WellKeyed(db) && Searching(db, rels, start, done, [], visited, out, limit)
    ensures Listing(db, rels, start, out)
    ensures forall t :: t in Ids(out) <==> t != start && HasPath(db, rels, start, t, limit)
  {
    hide HasPath, Ball, Listing, AtDistance;
    assert done + [] == done && done[..|done|] == done;
    BallListed(db, rels, start, done, |done|, limit, limit);
    SeenInBall(db, rels, start, done, limit);
    ListingFromVisits(db, rels, start, done[1..], out);
    SeenAfterStart(done);
    forall t ensures t in Ids(out) <==> t != start && HasPath(db, rels, start, t, limit) {
      BallIsPaths(db, rels, start, t, limit);
      assert t in Ids(out) <==> t in Elems(Ids(out));
    }
  }

  lemma SeenInBall(db: Db, rels: set<string>, start: Uuid, done: seq<Visit>, limit: nat)
    requires forall v :: v in done ==> AtDistance(db, rels, start, v) && v.depth <= limit
    ensures Seen(done) <= Ball(db, rels, start, limit)
  {
    forall t | t in Seen(done) ensures t in Ball(db, rels, start, limit) {
      var v :| v in done && v.id == t;
      assert AtDistance(db, rels, start, v);
    }
  }

  lemma SeenAfterStart(done: seq<Visit>)
    requires done != [] && forall j :: 0 < j < |done| ==> done[0].id != done[j].id
    ensures Seen(done[1..]) == Seen(done) - {done[0].id}
  {
    assert done == [done[0]] + done[1..];
    assert forall v :: v in done <==> v == done[0] || v in done[1..];
    forall v | v in done[1..] ensures v.id != done[0].id {
      var j :| 0 <= j < |done[1..]| && done[1..][j] == v;
      assert done[j + 1] == v;
    }
  }

  lemma VisitBound(db: Db, rels: set<string>, start: Uuid, order: seq<Visit>)
    requires Frontier(db, rels, start, order)
    ensures |order| <= |db.nodes.Keys + {start}|
  {
    var ids := seq(|order|, i requires 0 <= i < |order| => order[i].id);
    DistinctBound(ids, db.nodes.Keys + {start});
  }

  /** One dequeued node: mark every target visited, put out and queue the ones with a row. */
  method Expand(db: Db, rels: set<string>, start: Uuid, v: Visit, queue: seq<Visit>, visited: set<Uuid>,
                out: seq<Node>, ghost done: seq<Visit>)
    returns (queue': seq<Visit>, visited': set<Uuid>, out': seq<Node>)
    requires WellKeyed(db)
    requires v in done && Frontier(db, rels, start, done + queue)
    requires Decodes(db, out, (done + queue)[1..])
    requires Seen(done + queue) <= visited && visited - Seen(done + queue) !! db.nodes.Keys
    requires Ball(db, rels, start, v.depth) <= Seen(done + queue)
    requires forall u :: u in done + queue ==> u.depth <= v.depth + 1
    ensures queue <= queue' && Frontier(db, rels, start, done + queue')
    ensures Decodes(db, out', (done + queue')[1..])
    ensures Seen(done + queue) <= Seen(done + queue') <= visited' && visited' - Seen(done + queue') !! db.nodes.Keys
    ensures forall u :: u in done + queue' ==> u.depth <= v.depth + 1
    ensures Successors(db, rels, v.id) * db.nodes.Keys <= Seen(done + queue')
  {
    hide Frontier, Ball, Seen;
    queue', visited', out' := queue, visited, out;
    var targets := SelectTargets(db, rels, v.id);
    for j := 0 to |targets|
      invariant queue <= queue' && Frontier(db, rels, start, done + queue')
      invariant Decodes(db, out', (done + queue')[1..])
      invariant Seen(done + queue) <= Seen(done + queue') <= visited'
      invariant visited' - Seen(done + queue') !! db.nodes.Keys
      invariant forall u :: u in done + queue' ==> u.depth <= v.depth + 1
      invariant Elems(targets[..j]) * db.nodes.Keys <= Seen(done + queue')
    {
      var tid := targets[j];
      assert tid in Elems(targets);
      assert Elems(targets[..j + 1]) == Elems(targets[..j]) + {tid};
      if tid !in visited' {
        match ReadNode(db, tid) {
          case None =>
          case Some(n) =>
            var entry := Visit(tid, v.depth + 1);
            FrontierGrows(db, rels, start, done + queue', v, tid);
            assert done + (queue' + [entry]) == done + queue' + [entry];
            assert (done + queue' + [entry])[1..] == (done + queue')[1..] + [entry];
            queue' := queue' + [entry];
            out' := out' + [n];
        }
        visited' := visited' + {tid};
      }
    }
    assert targets[..|targets|] == targets;
  }

  // ---- walk_from ----

  /** `visited` is the ball below the current level and `level` (repeats allowed) names
      exactly the nodes that the next radius adds. */
  ghost predicate Levels(db: Db, rels: set<string>, start: Uuid, d: nat, visited: set<Uuid>, level: seq<Uuid>) {
    if d == 0 then visited == {} && level == [start]
    else visited == Ball(db, rels, start, d - 1) && Elems(level) - visited == Ball(db, rels, start, d) - visited
  }

  /** The nodes put out so far with their distances, none beyond `d`. */
  ghost predicate Layered(db: Db, rels: set<string>, start: Uuid, out: seq<Node>, order: seq<Visit>, d: nat) {
    && Decodes(db, out, order)
    && Ordered(order)
    && (forall v :: v in order ==> AtDistance(db, rels, start, v) && v.depth <= d)
  }

  lemma NewInLevel(db: Db, rels: set<string>, start: Uuid, d: nat, v: Uuid)
    requires v in Ball(db, rels, start, d) && (d > 0 ==> v !in Ball(db, rels, start, d - 1))
    ensures AtDistance(db, rels, start, Visit(v, d))
  {
    forall n: nat ensures v in Ball(db, rels, start, n) <==> d <= n {
      if d <= n {
        BallGrows(db, rels, start, d, n);
      } else {
        BallGrows(db, rels, start, n, d - 1);
      }
    }
  }

  lemma {:induction false} BallInNodes(db: Db, rels: set<string>, start: Uuid, n: nat)
    requires start in db.nodes
    ensures Ball(db, rels, start, n) <= db.nodes.Keys
  {
    if n > 0 {
      BallInNodes(db, rels, start, n - 1);
    }
  }

  /** Nodes along `rel` at distance below `maxDepth`, the start included; an unknown start
      yields nothing. */
  method WalkFrom(db: Db, start: Uuid, rel: string, maxDepth: nat) returns (out: seq<Node>)
    requires WellKeyed(db)
    ensures Listing(db, {rel}, start, out)
    ensures forall t :: t in Ids(out) <==>
                          start in db.nodes && HasPath(db, {rel}, start, t, maxDepth - 1)
  {
    hide Ball, Layered, HasPath, Listing, Levels;
    var rels := {rel};
    out := [];
    var visited: set<Uuid> := {};
    assert Layered(db, rels, start, [], [], 0) && Levels(db, rels, start, 0, {}, [start]) by {
      WalkStarts(db, rels, start);
    }
    var level := [start];
    ghost var order: seq<Visit> := [];
    var d := 0;
    while d < maxDepth && level != []
      invariant d <= maxDepth
      invariant start in db.nodes ==> Levels(db, rels, start, d, visited, level) && Seen(order) == visited
      invariant start !in db.nodes ==> order == [] && level == if d == 0 then [start] else []
      invariant Layered(db, rels, start, out, order, d)
    {
      out, order, visited, level := WalkLevel(db, rels, start, d, visited, level, out, order);
      d := d + 1;
    }
    WalkEnds(db, rels, start, maxDepth, d, visited, level, out, order);
  }

  lemma WalkStarts(db: Db, rels: set<string>, start: Uuid)
    ensures Layered(db, rels, start, [], [], 0)
    ensures Levels(db, rels, start, 0, {}, [start])
  {
  }

  lemma WalkEnds(db: Db, rels: set<string>, start: Uuid, maxDepth: nat, d: nat, visited: set<Uuid>,
                 level: seq<Uuid>, out: seq<Node>, order: seq<Visit>)
    requires WellKeyed(db) && Layered(db, rels, start, out, order, d)
    requires d == maxDepth || (d < maxDepth && level == [])
    requires start in db.nodes ==> Levels(db, rels, start, d, visited, level) && Seen(order) == visited
    requires start !in db.nodes ==> order == []
    ensures Listing(db, rels, start, out)
    ensures forall t :: t in Ids(out) <==> start in db.nodes && HasPath(db, rels, start, t, maxDepth - 1)
  {
    hide Layered, Levels, Ball;
    assert Listing(db, rels, start, out) && Elems(Ids(out)) == Seen(order) by {
      LayersListed(db, rels, start, out, order, d);
    }
    if start in db.nodes {
      FinalLevel(db, rels, start, maxDepth, d, visited, level);
    }
    forall t ensures t in Ids(out) <==> start in db.nodes && HasPath(db, rels, start, t, maxDepth - 1) {
      assert t in Ids(out) <==> t in Seen(order);
      if maxDepth > 0 {
        BallIsPaths(db, rels, start, t, maxDepth - 1);
      }
    }
  }

  lemma LayersListed(db: Db, rels: set<string>, start: Uuid, out: seq<Node>, order: seq<Visit>, d: nat)
    requires WellKeyed(db) && Layered(db, rels, start, out, order, d)
    ensures Listing(db, rels, start, out)
    ensures Elems(Ids(out)) == Seen(order)
  {
    ListingFromVisits(db, rels, start, order, out);
  }

  lemma FinalLevel(db: Db, rels: set<string>, start: Uuid, maxDepth: nat, d: nat, visited: set<Uuid>, level: seq<Uuid>)
    requires Levels(db, rels, start, d, visited, level)
    requires d == maxDepth || (d < maxDepth && level == [])
    ensures visited == if maxDepth == 0 then {} else Ball(db, rels, start, maxDepth - 1)
  {
    if d < maxDepth {
      assert Ball(db, rels, start, d) - visited == {};
      forall t | t in Step(db, rels, visited) ensures t in visited {
        assert t in Ball(db, rels, start, d);
        assert t !in Ball(db, rels, start, d) - visited;
      }
      BallStable(db, rels, start, d - 1, maxDepth - 1);
    }
  }

  /** One level: skip repeats, read each new node, and collect its unvisited successors. */
  method WalkLevel(db: Db, rels: set<string>, start: Uuid, d: nat, visited: set<Uuid>, level: seq<Uuid>,
                   out: seq<Node>, ghost order: seq<Visit>)
    returns (out': seq<Node>, ghost order': seq<Visit>, visited': set<Uuid>, next: seq<Uuid>)
    requires WellKeyed(db)
    requires Layered(db, rels, start, out, order, d)
    requires start in db.nodes ==> Levels(db, rels, start, d, visited, level) && Seen(order) == visited
    requires start !in db.nodes ==> order == [] && d == 0 && level == [start]
    ensures Layered(db, rels, start, out', order', d + 1)
    ensures start in db.nodes ==> Levels(db, rels, start, d + 1, visited', next) && Seen(order') == visited'
    ensures start !in db.nodes ==> order' == [] && next == []
  {
    hide Ball, Layered, Levels, Seen, Step;
    out', order', visited', next := out, order, visited, [];
    LevelEntered(db, rels, start, d, visited, level);
    for k := 0 to |level|
      invariant Layered(db, rels, start, out', order', d)
      invariant start !in db.nodes ==> order' == [] && next == []
      invariant start in db.nodes ==> Seen(order') == visited' == visited + Elems(level[..k])
      invariant start in db.nodes ==>
                  Elems(next) <= Step(db, rels, visited') <= Elems(next) + visited' + Step(db, rels, visited)
    {
      var id := level[k];
      assert Elems(level[..k + 1]) == Elems(level[..k]) + {id};
      if id !in visited' {
        match ReadNode(db, id) {
          case None =>
          case Some(n) =>
            LevelVisited(db, rels, start, out', order', d, id, n);
            StepUnion(db, rels, visited', {id});
            next := CollectNext(db, rels, id, visited' + {id}, next);
            out', order' := out' + [n], order' + [Visit(id, d)];
        }
        visited' := visited' + {id};
      }
    }
    assert level[..|level|] == level;
    LevelLeft(db, rels, start, d, visited, level, out', order', visited', next);
  }

  lemma LevelEntered(db: Db, rels: set<string>, start: Uuid, d: nat, visited: set<Uuid>, level: seq<Uuid>)
    requires start in db.nodes ==> Levels(db, rels, start, d, visited, level)
    requires start !in db.nodes ==> level == [start]
    ensures start in db.nodes ==> forall v :: v in level ==> v in db.nodes
    ensures start in db.nodes ==>
              forall v :: v in level && v !in visited ==> AtDistance(db, rels, start, Visit(v, d))
    ensures Step(db, rels, {}) == {}
  {
    if start in db.nodes {
      BallInNodes(db, rels, start, d);
      forall v | v in level ensures v in db.nodes && (v !in visited ==> AtDistance(db, rels, start, Visit(v, d))) {
        if v !in visited {
          assert v in Elems(level) - visited;
          NewInLevel(db, rels, start, d, v);
        }
      }
    }
  }

  lemma LevelVisited(db: Db, rels: set<string>, start: Uuid, out: seq<Node>, order: seq<Visit>, d: nat,
                     id: Uuid, n: Node)
    requires Layered(db, rels, start, out, order, d) && id !in Seen(order)
    requires ReadNode(db, id) == Some(n) && AtDistance(db, rels, start, Visit(id, d))
    ensures Layered(db, rels, start, out + [n], order + [Visit(id, d)], d)
    ensures Seen(order + [Visit(id, d)]) == Seen(order) + {id}
  {
    hide AtDistance, Ordered, Seen;
    SeenGrows(order, Visit(id, d));
    OrderedGrows(order, Visit(id, d));
  }

  lemma StepUnion(db: Db, rels: set<string>, a: set<Uuid>, b: set<Uuid>)
    ensures Step(db, rels, a + b) == Step(db, rels, a) + Step(db, rels, b)
  {
  }

  lemma LevelLeft(db: Db, rels: set<string>, start: Uuid, d: nat, visited: set<Uuid>, level: seq<Uuid>,
                  out: seq<Node>, order: seq<Visit>, visited': set<Uuid>, next: seq<Uuid>)
    requires Layered(db, rels, start, out, order, d)
    requires start in db.nodes ==>
               && Levels(db, rels, start, d, visited, level)
               && visited' == visited + Elems(level)
               && Elems(next) <= Step(db, rels, visited') <= Elems(next) + visited' + Step(db, rels, visited)
    ensures Layered(db, rels, start, out, order, d + 1)
    ensures start in db.nodes ==> Levels(db, rels, start, d + 1, visited', next)
  {
    if start in db.nodes {
      assert visited' == visited + (Elems(level) - visited);
      assert Elems(level) - visited == Ball(db, rels, start, d) - visited;
      assert visited' == Ball(db, rels, start, d);
    }
  }

  method CollectNext(db: Db, rels: set<string>, id: Uuid, visited: set<Uuid>, next: seq<Uuid>)
    returns (next': seq<Uuid>)
    requires id in visited
    ensures Elems(next') == Elems(next) + (Step(db, rels, {id}) - visited)
  {
    next' := next;
    var targets := SelectTargets(db, rels, id);
    for j := 0 to |targets|
      invariant Elems(next') == Elems(next) + (Elems(targets[..j]) * db.nodes.Keys - visited)
    {
      assert Elems(targets[..j + 1]) == Elems(targets[..j]) + {targets[j]};
      if targets[j] in db.nodes && targets[j] !in visited {
        assert Elems(next' + [targets[j]]) == Elems(next') + {targets[j]};
        next' := next' + [targets[j]];
      }
    }
    assert targets[..|targets|] == targets;
    assert Step(db, rels, {id}) == Successors(db, rels, id) * db.nodes.Keys;
  }
}
