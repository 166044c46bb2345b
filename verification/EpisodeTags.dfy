/** Tags that a pass writes back into the episode rows. */
module EpisodeTags {
  import opened Wrappers
  import opened Collections
  import opened GraphModel
  import opened GraphIntegrity
  import opened GraphStore

  /** The tags of `tags` that `have` lacks, first occurrences only. */
  function NewTags(have: seq<string>, tags: seq<string>): seq<string> {
    if tags == [] then []
    else
      var front := NewTags(have, tags[..|tags| - 1]);
      var last := tags[|tags| - 1];
      if last in have || last in front then front else front + [last]
  }

  method DedupeTags(have: seq<string>, tags: seq<string>) returns (newTags: seq<string>)
    ensures newTags == NewTags(have, tags)
  {
    newTags := [];
    for i := 0 to |tags|
      invariant newTags == NewTags(have, tags[..i])
    {
      assert tags[..i + 1][..i] == tags[..i];
      if tags[i] !in have && tags[i] !in newTags {
        newTags := newTags + [tags[i]];
      }
    }
    assert tags[..|tags|] == tags;
  }

  lemma {:induction false} NewTagsExact(have: seq<string>, tags: seq<string>)
    ensures Distinct(NewTags(have, tags))
    ensures forall x :: x in NewTags(have, tags) <==> x in tags && x !in have
  {
    if tags != [] {
      NewTagsExact(have, tags[..|tags| - 1]);
      assert tags == tags[..|tags| - 1] + [tags[|tags| - 1]];
    }
  }

  /** New tags come in the order in which they first occur. */
  lemma NewTagsInOrder(have: seq<string>, tags: seq<string>, last: string)
    ensures NewTags(have, []) == []
    ensures NewTags(have, tags + [last]) == NewTags(have, tags) + if last in have || last in tags then [] else [last]
  {
    assert (tags + [last])[..|tags|] == tags;
    NewTagsExact(have, tags);
  }

  lemma NoTagIsNewTwice(have: seq<string>, tags: seq<string>)
    ensures NewTags(have + NewTags(have, tags), tags) == []
  {
    hide NewTags;
    NewTagsExact(have, tags);
    NewTagsExact(have + NewTags(have, tags), tags);
    SomethingIn(NewTags(have + NewTags(have, tags), tags));
  }

  /** Tagging keeps the old tags in place, adds every tag once, and doing it again adds none. */
  lemma TaggingIsIdempotent(have: seq<string>, tags: seq<string>)
    requires Distinct(have)
    ensures var r := have + NewTags(have, tags);
            Distinct(r) && Elems(r) == Elems(have) + Elems(tags) && NewTags(r, tags) == []
  {
    hide NewTags, Distinct;
    var r := have + NewTags(have, tags);
    NewTagsExact(have, tags);
    NewTagsExact(r, tags);
    DistinctConcat(have, NewTags(have, tags));
    assert forall x :: x in r <==> x in have || x in tags;
    SomethingIn(NewTags(r, tags));
  }

  // ---- On the store ----

  predicate IsEpisode(db: Db, id: Uuid) {
    id in db.nodes && db.nodes[id].payload.nodeType.Episode?
  }

  function TagsOf(db: Db, id: Uuid): seq<string> {
    if IsEpisode(db, id) then db.nodes[id].payload.nodeType.emitted else []
  }

  function Tagged(n: Node, newTags: seq<string>): Node {
    if n.nodeType.Episode?
    then n.(nodeType := Episode(n.nodeType.timestamp, n.nodeType.emitted + newTags, n.nodeType.episodeBody))
    else n
  }

  /** The row is read, extended and written back, if it is an episode that lacks one of the tags. */
  function AppendTags(db: Db, id: Uuid, tags: seq<string>, now: int): Effect {
    if !IsEpisode(db, id) || NewTags(TagsOf(db, id), tags) == [] then Effect(db, Done)
    else PersistNode(db, Tagged(Decoded(db.nodes[id].payload), NewTags(TagsOf(db, id), tags)), now)
  }

  method AppendEpisodeTags(store: SqliteGraphStore, id: Uuid, tags: seq<string>, now: int) returns (r: Outcome)
    modifies store
    ensures Effect(store.State(), r) == AppendTags(old(store.State()), id, tags, now)
  {
    hide PersistNode;
    if tags == [] || id !in store.nodes {
      return Done;
    }
    var n := Decoded(store.nodes[id].payload);
    if !n.nodeType.Episode? {
      return Done;
    }
    var newTags := DedupeTags(n.nodeType.emitted, tags);
    if newTags == [] {
      return Done;
    }
    var tagged := Episode(n.nodeType.timestamp, n.nodeType.emitted + newTags, n.nodeType.episodeBody);
    r := store.WriteNode(n.(nodeType := tagged), now);
  }

  /** The pending tags of a pass, in order, stopping at the first error. */
  function Flush(db: Db, pending: seq<(Uuid, seq<string>)>, now: int): Effect
    decreases |pending|
  {
    if pending == [] then Effect(db, Done)
    else
      var e := AppendTags(db, pending[0].0, pending[0].1, now);
      if e.outcome.Failed? then e else Flush(e.db, pending[1..], now)
  }

  ghost predicate WritesEntry(before: Db, entry: (Uuid, seq<string>), now: int, after: Db, ok: bool) {
    var e := AppendTags(before, entry.0, entry.1, now);
    e.db == after && (e.outcome.Done? <==> ok)
  }

  /** The entries are written one after the other, each from the state the one before left, up to
      and with the first that fails; if none does, all are. */
  lemma {:induction false} FlushExactly(db: Db, pending: seq<(Uuid, seq<string>)>, now: int) returns (states: seq<Db>)
    ensures var r, n := Flush(db, pending, now), |states| - 1;
            && 0 <= n <= |pending| && states[0] == db && states[n] == r.db
            && (if r.outcome.Done? then n == |pending| else n > 0)
            && forall i :: 0 <= i < n ==> WritesEntry(states[i], pending[i], now, states[i + 1], i < n - 1 || r.outcome.Done?)
    decreases |pending|
  {
    hide AppendTags;
    if pending == [] {
      states := [db];
    } else {
      var e := AppendTags(db, pending[0].0, pending[0].1, now);
      if e.outcome.Failed? {
        states := [db, e.db];
      } else {
        var later := FlushExactly(e.db, pending[1..], now);
        states := [db] + later;
        var r, n := Flush(db, pending, now), |states| - 1;
        forall i | 0 < i < n ensures WritesEntry(states[i], pending[i], now, states[i + 1], i < n - 1 || r.outcome.Done?) {
          assert WritesEntry(later[i - 1], pending[1..][i - 1], now, later[i], i - 1 < n - 2 || r.outcome.Done?);
        }
      }
    }
  }

  method FlushEpisodePatternTags(store: SqliteGraphStore, pending: seq<(Uuid, seq<string>)>, now: int) returns (r: Outcome)
    modifies store
    ensures Effect(store.State(), r) == Flush(old(store.State()), pending, now)
  {
    hide AppendTags;
    r := Done;
    for i := 0 to |pending|
      invariant r == Done
      invariant Flush(store.State(), pending[i..], now) == Flush(old(store.State()), pending, now)
    {
      r := AppendEpisodeTags(store, pending[i].0, pending[i].1, now);
      if r.Failed? {
        return;
      }
      assert pending[i..][1..] == pending[i + 1..];
    }
  }

  /** What tagging does to the node table: one row, and of it only the tags. */
  lemma TaggingTouchesOneRow(db: Db, id: Uuid, tags: seq<string>, now: int)
    requires WellKeyed(db)
    ensures var r := AppendTags(db, id, tags, now).db;
            && WellKeyed(r) && (Intact(db) ==> Intact(r)) && r.nodes.Keys == db.nodes.Keys
            && (forall n :: n in db.nodes && n != id ==> r.nodes[n] == db.nodes[n])
            && TagsOf(r, id) == TagsOf(db, id) + (if IsEpisode(db, id) then NewTags(TagsOf(db, id), tags) else [])
            && (IsEpisode(r, id) <==> IsEpisode(db, id))
  {
    hide PersistNode, Intact;
    if IsEpisode(db, id) && NewTags(TagsOf(db, id), tags) != [] {
      var n := Tagged(Decoded(db.nodes[id].payload), NewTags(TagsOf(db, id), tags));
      WriteTouchesOneRow(db, n, now);
      NodeWriteKeeps(db, n, now);
    }
  }

  /** Tagging again with the same tags writes nothing, whatever the first write reported. */
  lemma TaggingTwiceIsOnce(db: Db, id: Uuid, tags: seq<string>, now: int, later: int)
    requires WellKeyed(db)
    ensures var r := AppendTags(db, id, tags, now).db; AppendTags(r, id, tags, later) == Effect(r, Done)
  {
    hide PersistNode, AppendTags, NewTags;
    TaggingTouchesOneRow(db, id, tags, now);
    NoTagIsNewTwice(TagsOf(db, id), tags);
    AgainNothing(AppendTags(db, id, tags, now).db, id, tags, later);
  }

  lemma AgainNothing(db: Db, id: Uuid, tags: seq<string>, now: int)
    requires !IsEpisode(db, id) || NewTags(TagsOf(db, id), tags) == []
    ensures AppendTags(db, id, tags, now) == Effect(db, Done)
  {
  }

  /** Tagging rewrites the episode's row, so what hangs on the row goes with it. The trajectory
      detail rows of the episode survive exactly when there are none or no tag is new. */
  lemma TaggingKeepsDetailsIff(db: Db, id: Uuid, tags: seq<string>, now: int)
    requires WellKeyed(db) && IsEpisode(db, id)
    ensures AppendTags(db, id, tags, now).db.trajectories == db.trajectories <==>
            || NewTags(TagsOf(db, id), tags) == []
            || forall t :: t in db.trajectories ==> db.trajectories[t].episodeId != id
  {
    hide NewTags;
    if NewTags(TagsOf(db, id), tags) != [] {
      RewriteLoses(db, Tagged(Decoded(db.nodes[id].payload), NewTags(TagsOf(db, id), tags)), now, EdgeKey(id, id, ""));
    }
  }

  /** An edge that the payload itself embeds, before any that does not resolve. */
  predicate Embedded(db: Db, id: Uuid, k: EdgeKey)
    requires id in db.nodes
  {
    k.source == id && Link(k.target, k.rel) in Resolved(db, db.nodes[id].payload.links)
  }

  /** The edges of the table survive exactly when no tag is new or every edge at the episode, in
      or out, is one its payload embeds; and they survive with their weight and metadata exactly
      when those edges also have the default ones. */
  lemma TaggingKeepsEdgesIff(db: Db, id: Uuid, tags: seq<string>, now: int)
    requires WellKeyed(db) && IsEpisode(db, id)
    ensures var r := AppendTags(db, id, tags, now).db;
            && ((forall k :: k in db.edges ==> k in r.edges) <==>
                || NewTags(TagsOf(db, id), tags) == []
                || forall k :: k in db.edges && (k.source == id || k.target == id) ==> Embedded(db, id, k))
            && ((forall k :: k in db.edges ==> k in r.edges && r.edges[k] == db.edges[k]) <==>
                || NewTags(TagsOf(db, id), tags) == []
                || forall k :: k in db.edges && (k.source == id || k.target == id) ==>
                                 Embedded(db, id, k) && db.edges[k] == EdgeRow(1.0, None))
  {
    hide NewTags, PersistNode, Resolved;
    if NewTags(TagsOf(db, id), tags) != [] {
      var n := Tagged(Decoded(db.nodes[id].payload), NewTags(TagsOf(db, id), tags));
      forall k | k in db.edges
        ensures var r := AppendTags(db, id, tags, now).db;
                if k.source == id || k.target == id
                then (k in r.edges <==> Embedded(db, id, k)) && (k in r.edges ==> r.edges[k] == EdgeRow(1.0, None))
                else k in r.edges && r.edges[k] == db.edges[k]
      {
        RewriteLoses(db, n, now, k);
      }
    }
  }

  /** A rewrite keeps of a node's trajectory rows none and of its edges the embedded ones. */
  lemma RewriteLoses(db: Db, n: Node, now: int, k: EdgeKey)
    requires n.id in db.nodes
    ensures var r := PersistNode(db, n, now).db;
            && (forall t :: t in r.trajectories <==> t in db.trajectories && db.trajectories[t].episodeId != n.id)
            && (forall t :: t in r.trajectories ==> r.trajectories[t] == db.trajectories[t])
            && var linked := k.source == n.id && Link(k.target, k.rel) in Resolved(db, n.links);
               (k in r.edges <==> linked || (k in db.edges && k.source != n.id && k.target != n.id))
               && (k in r.edges ==> r.edges[k] == if linked then EdgeRow(1.0, None) else db.edges[k])
  {
    hide Resolved;
    var base := ReplaceNode(db, n, now);
    PersistLinksFrame(base, n.id, n.links);
    StoredLinks(base, n.id, n.links, k);
    SameTargets(db, base, n.links);
  }

  /** With no lost link, the embedded edges are all the links of the payload. */
  lemma EmbeddedWhenResolved(db: Db, id: Uuid, k: EdgeKey)
    requires id in db.nodes && LinksResolve(db, db.nodes[id].payload)
    ensures Embedded(db, id, k) <==> k.source == id && Link(k.target, k.rel) in db.nodes[id].payload.links
  {
    ResolvedIsAll(db, db.nodes[id].payload.links);
  }

  /** It happens to a turn's own trajectory: an episode with a detail row, then one new tag. */
  lemma TaggingLosesDetails()
    ensures var ep := Node(1, "a", None, Episode(0, [], ""), []);
            var db := Run(EMPTY, [WriteNode(ep, 0), InsertDetail(7, TrajectoryRow(1, "a", 0, ""))]);
            var e := AppendTags(db, 1, ["det:brevity:explicit"], 0);
            7 in db.trajectories && e.outcome.Done? && e.db.trajectories == map[]
  {
    var ep := Node(1, "a", None, Episode(0, [], ""), []);
    var write, detail := WriteNode(ep, 0), InsertDetail(7, TrajectoryRow(1, "a", 0, ""));
    assert [write, detail][1..] == [detail] && [detail][1..] == [];
    var first := Apply(EMPTY, write).db;
    WriteTouchesOneRow(EMPTY, ep, 0);
    NodeWriteKeeps(EMPTY, ep, 0);
    assert first.trajectories == map[];
    var db := Apply(first, detail).db;
    assert Run(EMPTY, [write, detail]) == Run(first, [detail]) == Run(db, []) == db;
    var tags := ["det:brevity:explicit"];
    OneNewTag(db, 1);
    hide PersistNode;
    var n := Tagged(Decoded(ep), tags);
    RewriteLoses(db, n, 0, EdgeKey(1, 1, ""));
    WriteNodeSucceedsIff(db, n, 0);
  }

  /** And it happens to the edge a turn emits: an episode, a target, the `EMIT_TO` row between them,
      then one new tag. */
  lemma TaggingLosesEmittedEdge()
    ensures var ep, other := Node(1, "a", None, Episode(0, [], ""), []), Node(2, "a", None, Episode(0, [], ""), []);
            var k := EdgeKey(1, 2, "EMIT_TO");
            var db := Run(EMPTY, [WriteNode(ep, 0), WriteNode(other, 0), InsertEdgeStrict(k)]);
            var e := AppendTags(db, 1, ["det:brevity:explicit"], 0);
            k in db.edges && e.outcome.Done? && k !in e.db.edges
  {
    var ep, other := Node(1, "a", None, Episode(0, [], ""), []), Node(2, "a", None, Episode(0, [], ""), []);
    var k := EdgeKey(1, 2, "EMIT_TO");
    var a, b, c := WriteNode(ep, 0), WriteNode(other, 0), InsertEdgeStrict(k);
    assert [a, b, c][1..] == [b, c] && [b, c][1..] == [c] && [c][1..] == [];
    var first := Apply(EMPTY, a).db;
    var second := Apply(first, b).db;
    var db := Apply(second, c).db;
    assert Run(EMPTY, [a, b, c]) == Run(first, [b, c]) == Run(second, [c]) == Run(db, []) == db;
    WriteTouchesOneRow(EMPTY, ep, 0);
    WriteTouchesOneRow(first, other, 0);
    OneNewTag(db, 1);
    hide PersistNode;
    var n := Tagged(Decoded(ep), ["det:brevity:explicit"]);
    RewriteLoses(db, n, 0, k);
    WriteNodeSucceedsIff(db, n, 0);
  }

  lemma OneNewTag(db: Db, id: Uuid)
    requires TagsOf(db, id) == []
    ensures NewTags(TagsOf(db, id), ["det:brevity:explicit"]) == ["det:brevity:explicit"]
  {
    assert ["det:brevity:explicit"][..0] == [];
    assert NewTags([], []) == [];
  }
}
