/** Runs of passes on one store: every pass reads every stored episode again. */
module PassRuns {
  import opened Collections
  import opened GraphModel
  import opened GraphIntegrity
  import opened TurnModel
  import opened Evolution
  import opened NodeSignals
  import opened EpisodeTags
  import opened Recurrence
  import opened PersonaRow
  import opened ExtractorTask
  import opened ExtractionPass
  import PassInput
  import PersonaSignals

  // ---- What a pass leaves of the episodes ----

  /** The same episodes with the same content; tags are only appended. */
  ghost predicate KeepsEpisodes(a: Db, b: Db) {
    && (forall id :: IsEpisode(a, id) <==> IsEpisode(b, id))
    && (forall id :: IsEpisode(a, id) ==> SameButTags(a.nodes[id].payload, b.nodes[id].payload))
  }

  predicate SameButTags(m: Node, n: Node) {
    && m.nodeType.Episode? && n.nodeType.Episode?
    && m.id == n.id && m.agentId == n.agentId && m.nodeType.timestamp == n.nodeType.timestamp
    && m.nodeType.episodeBody == n.nodeType.episodeBody && m.nodeType.emitted <= n.nodeType.emitted
  }

  lemma KeepsTransitive(a: Db, b: Db, c: Db)
    requires KeepsEpisodes(a, b) && KeepsEpisodes(b, c)
    ensures KeepsEpisodes(a, c)
  {
    forall id | IsEpisode(a, id) ensures SameButTags(a.nodes[id].payload, c.nodes[id].payload) {
      assert IsEpisode(b, id);
    }
  }

  /** Writing a row that is not an episode over one that is not. */
  lemma OtherRowKeeps(db: Db, n: Node, now: int)
    requires WellKeyed(db) && !IsEpisode(db, n.id) && !n.nodeType.Episode?
    ensures var r := PersistNode(db, n, now).db; KeepsEpisodes(db, r) && WellKeyed(r)
  {
    hide PersistNode;
    WriteTouchesOneRow(db, n, now);
    NodeWriteKeeps(db, n, now);
  }

  lemma {:induction false} UpdateKeeps(db: Db, agent: string, order: seq<Uuid>, now: int)
    requires WellKeyed(db)
    ensures var r := UpdateFrom(db, agent, order, now).db; KeepsEpisodes(db, r) && WellKeyed(r) && r.nodes.Keys == db.nodes.Keys
    decreases |order|
  {
    hide PersistNode, KeepsEpisodes, Bumped, Decoded;
    if order == [] {
      KeepsSelf(db);
    } else if Due(db, agent, order[0]) {
      var n := BumpedNode(Decoded(db.nodes[order[0]].payload));
      BumpKeepsRest(db.nodes[order[0]].payload);
      OtherRowKeeps(db, n, now);
      WriteTouchesOneRow(db, n, now);
      var e := PersistNode(db, n, now).db;
      UpdateKeeps(e, agent, order[1..], now);
      KeepsTransitive(db, e, UpdateFrom(e, agent, order[1..], now).db);
    } else {
      UpdateKeeps(db, agent, order[1..], now);
    }
  }

  lemma KeepsSelf(db: Db)
    requires WellKeyed(db)
    ensures KeepsEpisodes(db, db)
  {
  }

  lemma TagKeeps(db: Db, id: Uuid, tags: seq<string>, now: int)
    requires WellKeyed(db)
    ensures var r := AppendTags(db, id, tags, now).db; KeepsEpisodes(db, r) && WellKeyed(r) && r.nodes.Keys == db.nodes.Keys
  {
    hide NewTags, PersistNode;
    if IsEpisode(db, id) && NewTags(TagsOf(db, id), tags) != [] {
      var n := Tagged(Decoded(db.nodes[id].payload), NewTags(TagsOf(db, id), tags));
      WriteTouchesOneRow(db, n, now);
      NodeWriteKeeps(db, n, now);
    }
  }

  lemma {:induction false} FlushKeeps(db: Db, pending: PersonaSignals.Pending, now: int)
    requires WellKeyed(db)
    ensures var r := Flush(db, pending, now).db; KeepsEpisodes(db, r) && WellKeyed(r) && r.nodes.Keys == db.nodes.Keys
    decreases |pending|
  {
    hide AppendTags, KeepsEpisodes;
    if pending == [] {
      KeepsSelf(db);
    } else {
      TagKeeps(db, pending[0].0, pending[0].1, now);
      var e := AppendTags(db, pending[0].0, pending[0].1, now);
      if e.outcome.Done? {
        FlushKeeps(e.db, pending[1..], now);
        KeepsTransitive(db, e.db, Flush(e.db, pending[1..], now).db);
      }
    }
  }

  lemma PassKeeps(t: PersonaSignals.Tagger, rd: Reader, agent: string, s: PassState, w: PassWorld)
    requires WellKeyed(s.db) && w.newId !in s.db.nodes
    ensures var r := Pass(t, rd, agent, s, w).state.db; KeepsEpisodes(s.db, r) && WellKeyed(r)
  {
    hide UpdateFrom, Flush, PersistNode, KeepsEpisodes, ReadingOf, Pending, Merged, Evolved, PersonaRows;
    var up := UpdateFrom(s.db, agent, w.facts, w.now).db;
    UpdateKeeps(s.db, agent, w.facts, w.now);
    var reading := ReadingOf(rd, up, agent, w);
    var pending := Pending(t, agent, s.task, reading);
    FlushKeeps(up, pending, w.now);
    var flushed := Flush(up, pending, w.now).db;
    KeepsTransitive(s.db, up, flushed);
    if Pass(t, rd, agent, s, w).report.persona.Some? {
      var n := EvolvedNode(flushed, agent, w.personas, w.newId, AfterPass(t, agent, s.task, reading).axes);
      assert w.newId !in flushed.nodes.Keys;
      OtherRowKeeps(flushed, n, w.now);
      KeepsTransitive(s.db, flushed, PersistNode(flushed, n, w.now).db);
    }
  }

  // ---- Corrections: once per pass ----

  /** A scan of the episodes: every one, once. */
  ghost predicate ScansEpisodes(db: Db, order: seq<Uuid>) {
    Distinct(order) && forall id: Uuid :: id in order <==> IsEpisode(db, id)
  }

  /** The agent's stored episodes whose text corrects. */
  function CorrectingIds(t: PersonaSignals.Tagger, rd: Reader, db: Db, agent: string): set<Uuid> {
    set id | id in db.nodes && CorrectsAt(t, rd, db, agent, id)
  }

  predicate CorrectsAt(t: PersonaSignals.Tagger, rd: Reader, db: Db, agent: string, id: Uuid) {
    && IsEpisode(db, id) && db.nodes[id].payload.agentId == agent
    && t.correction(rd.detail(db.nodes[id].payload.nodeType.episodeBody).userText).Some?
  }

  lemma CorrectingIsKept(t: PersonaSignals.Tagger, rd: Reader, a: Db, b: Db, agent: string)
    requires KeepsEpisodes(a, b)
    ensures CorrectingIds(t, rd, a, agent) == CorrectingIds(t, rd, b, agent)
  {
    forall id ensures CorrectsAt(t, rd, a, agent, id) <==> CorrectsAt(t, rd, b, agent, id) {
      assert IsEpisode(a, id) <==> IsEpisode(b, id);
    }
  }

  function OwnCorrector(t: PersonaSignals.Tagger, agent: string): PassInput.Episode -> bool {
    (e: PassInput.Episode) => e.agentId == agent && PersonaSignals.Corrects(t, e)
  }

  function CorrectorId(t: PersonaSignals.Tagger, rd: Reader, db: Db, agent: string): Uuid -> bool {
    (id: Uuid) => CorrectsAt(t, rd, db, agent, id)
  }

  lemma {:induction false} EpisodesInCount(t: PersonaSignals.Tagger, rd: Reader, db: Db, agent: string, order: seq<Uuid>)
    ensures |Filter(EpisodesIn(rd, db, order), OwnCorrector(t, agent))| == |Filter(order, CorrectorId(t, rd, db, agent))|
  {
    hide Filter;
    if order == [] {
      FilterNone<Uuid>([], CorrectorId(t, rd, db, agent));
      FilterNone<PassInput.Episode>([], OwnCorrector(t, agent));
    } else {
      var front, id := order[..|order| - 1], order[|order| - 1];
      EpisodesInCount(t, rd, db, agent, front);
      FilterStep(order, |order| - 1, CorrectorId(t, rd, db, agent));
      assert order[..|order| - 1 + 1] == order;
      if IsEpisode(db, id) {
        var rows, e := EpisodesIn(rd, db, front), AsEpisode(rd, db.nodes[id].payload);
        FilterStep(rows + [e], |rows|, OwnCorrector(t, agent));
        assert (rows + [e])[..|rows|] == rows && (rows + [e])[..|rows| + 1] == rows + [e];
      } else {
        assert EpisodesIn(rd, db, order) == EpisodesIn(rd, db, front);
      }
    }
  }

  lemma {:induction false} FilterTwice<T(!new)>(s: seq<T>, p: T -> bool, q: T -> bool, both: T -> bool)
    requires forall x :: both(x) == (p(x) && q(x))
    ensures Filter(Filter(s, p), q) == Filter(s, both)
  {
    if s != [] {
      FilterTwice(s[1..], p, q, both);
      if p(s[0]) {
        assert ([s[0]] + Filter(s[1..], p))[1..] == Filter(s[1..], p);
      }
    }
  }

  /** A pass that scans every episode signals one correction for each of the agent's that corrects. */
  lemma PassCorrections(t: PersonaSignals.Tagger, rd: Reader, db: Db, agent: string, order: seq<Uuid>,
                        s: PersonaSignals.EpisodeState)
    requires ScansEpisodes(db, order)
    ensures var eps := PassInput.Chronological(EpisodesIn(rd, db, order), agent);
            PersonaSignals.Corrections(PersonaSignals.PassSignals(t, s, eps)) == |CorrectingIds(t, rd, db, agent)|
  {
    hide CorrectsAt, EpisodesIn, PersonaSignals.Corrections, PersonaSignals.Corrects, PassInput.Chronological, Filter;
    var rows := EpisodesIn(rd, db, order);
    var eps := PassInput.Chronological(rows, agent);
    var own := PassInput.OwnedBy(agent);
    var corrects := PersonaSignals.Corrector(t);
    PersonaSignals.CorrectionsInPass(t, s, eps);
    PassInput.ChronologicalIsExact(rows, agent, 0);
    FilterPermutes(eps, Filter(rows, own), corrects);
    FilterTwice(rows, own, corrects, OwnCorrector(t, agent));
    EpisodesInCount(t, rd, db, agent, order);
    CountedIds(t, rd, db, agent, order);
  }

  lemma CountedIds(t: PersonaSignals.Tagger, rd: Reader, db: Db, agent: string, order: seq<Uuid>)
    requires ScansEpisodes(db, order)
    ensures |Filter(order, CorrectorId(t, rd, db, agent))| == |CorrectingIds(t, rd, db, agent)|
  {
    var found := Filter(order, CorrectorId(t, rd, db, agent));
    FilterDistinct(order, CorrectorId(t, rd, db, agent));
    DistinctCardinality(found);
    assert Elems(found) == CorrectingIds(t, rd, db, agent);
  }

  // ---- Runs ----

  function RunPasses(t: PersonaSignals.Tagger, rd: Reader, agent: string, s: PassState, ws: seq<PassWorld>): PassState {
    if ws == [] then s else Pass(t, rd, agent, RunPasses(t, rd, agent, s, ws[..|ws| - 1]), ws[|ws| - 1]).state
  }

  /** Every pass scans the stored episodes and mints a new id. */
  ghost predicate Scanning(t: PersonaSignals.Tagger, rd: Reader, agent: string, s: PassState, ws: seq<PassWorld>) {
    forall i :: 0 <= i < |ws| ==>
                  var now := RunPasses(t, rd, agent, s, ws[..i]);
                  ScansEpisodes(now.db, ws[i].episodes) && ws[i].newId !in now.db.nodes
  }

  lemma {:induction false} RunKeeps(t: PersonaSignals.Tagger, rd: Reader, agent: string, s: PassState, ws: seq<PassWorld>)
    requires WellKeyed(s.db) && Scanning(t, rd, agent, s, ws)
    ensures var r := RunPasses(t, rd, agent, s, ws).db; KeepsEpisodes(s.db, r) && WellKeyed(r)
  {
    hide Pass, KeepsEpisodes, ScansEpisodes;
    if ws == [] {
      KeepsSelf(s.db);
    } else {
      var front := ws[..|ws| - 1];
      ScanningFront(t, rd, agent, s, ws, |ws| - 1);
      RunKeeps(t, rd, agent, s, front);
      var before := RunPasses(t, rd, agent, s, front);
      PassKeeps(t, rd, agent, before, ws[|ws| - 1]);
      KeepsTransitive(s.db, before.db, RunPasses(t, rd, agent, s, ws).db);
    }
  }

  lemma ScanningFront(t: PersonaSignals.Tagger, rd: Reader, agent: string, s: PassState, ws: seq<PassWorld>, k: nat)
    requires Scanning(t, rd, agent, s, ws) && k <= |ws|
    ensures Scanning(t, rd, agent, s, ws[..k])
  {
    hide RunPasses, ScansEpisodes;
    forall i | 0 <= i < k ensures ws[..k][..i] == ws[..i] && ws[..k][i] == ws[i] {
    }
  }

  /** The corrections that pass `k` of a run ingests. */
  function IngestedAt(t: PersonaSignals.Tagger, rd: Reader, agent: string, s: PassState, ws: seq<PassWorld>, k: nat): seq<Signal>
    requires k < |ws|
  {
    Pass(t, rd, agent, RunPasses(t, rd, agent, s, ws[..k]), ws[k]).report.merged
  }

  /** Signals that pass `k` reads off the stored nodes. */
  function ReadAt(t: PersonaSignals.Tagger, rd: Reader, agent: string, s: PassState, ws: seq<PassWorld>, k: nat): seq<Signal>
    requires k < |ws|
  {
    GraphSignals(rd, UpdateFrom(RunPasses(t, rd, agent, s, ws[..k]).db, agent, ws[k].facts, ws[k].now).db, agent, ws[k].graph)
  }

  /** In every run of passes, every pass ingests the correction of every stored episode again:
      beside what it reads off the nodes, exactly as many as the store held corrections at the
      start, however often they were ingested before. */
  lemma CorrectionsAreIngestedEveryPass(
    t: PersonaSignals.Tagger, rd: Reader, agent: string, s: PassState, ws: seq<PassWorld>, k: nat)
    requires WellKeyed(s.db) && Scanning(t, rd, agent, s, ws) && k < |ws|
    ensures PersonaSignals.Corrections(IngestedAt(t, rd, agent, s, ws, k)) ==
            PersonaSignals.Corrections(ReadAt(t, rd, agent, s, ws, k)) + |CorrectingIds(t, rd, s.db, agent)|
  {
    hide UpdateFrom, Flush, PersistNode, KeepsEpisodes, GraphSignals, EpisodesIn, FactsIn, CorrectingIds, Evolved,
         PersonaSignals.PassSignals, PersonaSignals.Corrections, PassInput.Chronological, PassInput.ClustersOf,
         PersonaSignals.PassTags, RunPasses, PersonaRows;
    var now := RunPasses(t, rd, agent, s, ws[..k]);
    ScanningFront(t, rd, agent, s, ws, k);
    RunKeeps(t, rd, agent, s, ws[..k]);
    CorrectingIsKept(t, rd, s.db, now.db, agent);
    var up := UpdateFrom(now.db, agent, ws[k].facts, ws[k].now).db;
    UpdateKeeps(now.db, agent, ws[k].facts, ws[k].now);
    CorrectingIsKept(t, rd, now.db, up, agent);
    KeptScan(now.db, up, ws[k].episodes);
    var r := ReadingOf(rd, up, agent, ws[k]);
    PassCorrections(t, rd, up, agent, ws[k].episodes, now.task.episodes);
    MergedCorrections(t, agent, now.task, r);
  }

  lemma KeptScan(a: Db, b: Db, order: seq<Uuid>)
    requires KeepsEpisodes(a, b) && ScansEpisodes(a, order)
    ensures ScansEpisodes(b, order)
  {
    assert forall id: Uuid :: IsEpisode(a, id) <==> IsEpisode(b, id);
  }

  lemma MergedCorrections(t: PersonaSignals.Tagger, agent: string, s: TaskState, r: Reading)
    ensures PersonaSignals.Corrections(Merged(t, agent, s, r)) ==
            PersonaSignals.Corrections(r.graph)
            + PersonaSignals.Corrections(PersonaSignals.PassSignals(t, s.episodes, PassInput.Chronological(r.episodes, agent)))
  {
    hide PersonaSignals.Corrections, PersonaSignals.PassSignals, PassInput.Chronological, PassInput.ClustersOf;
    var heard := PersonaSignals.PassSignals(t, s.episodes, PassInput.Chronological(r.episodes, agent));
    var domains := PersonaSignals.DomainSignals(s.domains.(pass := PersonaSignals.NextPass(s.domains)),
                                                PassInput.ClustersOf(r.facts, agent));
    PersonaSignals.CorrectionsAppend(r.graph, heard + domains);
    PersonaSignals.CorrectionsAppend(heard, domains);
    PersonaSignals.NoCorrections(domains);
  }

  // ---- The first tag makes an episode speak ----

  /** After a flush that succeeds, an episode carries a tag exactly when it did before or the pass
      had an entry for it. */
  lemma {:induction false} TaggedAfterIff(db: Db, pending: PersonaSignals.Pending, now: int, id: Uuid)
    requires WellKeyed(db) && IsEpisode(db, id) && Flush(db, pending, now).outcome.Done?
    requires forall p :: p in pending ==> p.1 != []
    ensures TagsOf(Flush(db, pending, now).db, id) != [] <==> TagsOf(db, id) != [] || exists p :: p in pending && p.0 == id
    decreases |pending|
  {
    hide AppendTags, NewTags;
    if pending != [] {
      var first, rest := pending[0], pending[1..];
      assert pending == [first] + rest;
      TaggingTouchesOneRow(db, first.0, first.1, now);
      NewTagsExact(TagsOf(db, first.0), first.1);
      var e := AppendTags(db, first.0, first.1, now);
      assert first in pending && first.1[0] in first.1;
      TaggedAfterIff(e.db, rest, now, id);
    }
  }

  /** Whether the store makes the signals of an episode's tools, outcome and hints. */
  predicate Processed(rd: Reader, db: Db, id: Uuid) {
    IsEpisode(db, id) && EpisodicShouldProcess(FactsOf(rd, db.nodes[id].payload))
  }

  lemma ProcessedExactly(rd: Reader, db: Db, id: Uuid)
    requires IsEpisode(db, id)
    ensures Processed(rd, db, id) <==>
            TagsOf(db, id) != [] || rd.facts(db.nodes[id].payload.nodeType.episodeBody).outcome == "success"
    ensures !Processed(rd, db, id) ==> SignalsOf(rd, db.nodes[id].payload) == []
  {
  }

  /** A pass whose tags are stored makes an episode speak exactly when it spoke before or the pass
      tagged it. */
  lemma ProcessedAfterPassIff(t: PersonaSignals.Tagger, rd: Reader, agent: string, s: PassState, w: PassWorld, id: Uuid)
    requires WellKeyed(s.db) && w.newId !in s.db.nodes && IsEpisode(s.db, id)
    requires Pass(t, rd, agent, s, w).report.flushed.Done?
    ensures var up := UpdateFrom(s.db, agent, w.facts, w.now).db;
            var pending := Pending(t, agent, s.task, ReadingOf(rd, up, agent, w));
            Processed(rd, Pass(t, rd, agent, s, w).state.db, id) <==>
            Processed(rd, s.db, id) || exists p :: p in pending && p.0 == id
  {
    hide UpdateFrom, Flush, PersistNode, ReadingOf, Merged, Evolved, PersonaRows, Processed, PassInput.Chronological;
    var up := UpdateFrom(s.db, agent, w.facts, w.now).db;
    UpdateKeepsTags(s.db, agent, w.facts, w.now, id);
    var reading := ReadingOf(rd, up, agent, w);
    var pending := Pending(t, agent, s.task, reading);
    PersonaSignals.CorrectingIsPending(t, s.task.episodes, PassInput.Chronological(reading.episodes, agent));
    UpdateKeeps(s.db, agent, w.facts, w.now);
    TaggedAfterIff(up, pending, w.now, id);
    FlushKeeps(up, pending, w.now);
    var flushed := Flush(up, pending, w.now).db;
    PassKeeps(t, rd, agent, s, w);
    var r := Pass(t, rd, agent, s, w).state.db;
    assert r.nodes[id] == flushed.nodes[id] by {
      if Pass(t, rd, agent, s, w).report.persona.Some? {
        var n := EvolvedNode(flushed, agent, w.personas, w.newId, AfterPass(t, agent, s.task, reading).axes);
        assert w.newId !in flushed.nodes.Keys && IsEpisode(flushed, id);
        WriteTouchesOneRow(flushed, n, w.now);
      }
    }
    ProcessedExactly(rd, s.db, id);
    ProcessedExactly(rd, r, id);
  }

  lemma {:induction false} UpdateKeepsTags(db: Db, agent: string, order: seq<Uuid>, now: int, id: Uuid)
    requires WellKeyed(db) && IsEpisode(db, id)
    ensures var r := UpdateFrom(db, agent, order, now).db; id in r.nodes && r.nodes[id] == db.nodes[id]
    decreases |order|
  {
    hide PersistNode, Bumped, Decoded;
    if order != [] {
      if Due(db, agent, order[0]) {
        var n := BumpedNode(Decoded(db.nodes[order[0]].payload));
        BumpKeepsRest(db.nodes[order[0]].payload);
        WriteTouchesOneRow(db, n, now);
        NodeWriteKeeps(db, n, now);
        UpdateKeepsTags(PersistNode(db, n, now).db, agent, order[1..], now, id);
      } else {
        UpdateKeepsTags(db, agent, order[1..], now, id);
      }
    }
  }

  /** An episode that speaks goes on speaking. */
  lemma SpeechIsKept(rd: Reader, a: Db, b: Db, id: Uuid)
    requires KeepsEpisodes(a, b) && Processed(rd, a, id)
    ensures Processed(rd, b, id)
  {
    assert IsEpisode(b, id) && SameButTags(a.nodes[id].payload, b.nodes[id].payload);
    ProcessedExactly(rd, a, id);
    ProcessedExactly(rd, b, id);
  }

  /** In every run: an episode that corrects, however it ended, speaks from the first pass on whose
      tags are stored, and never falls silent again. */
  lemma CorrectionMakesEpisodeSpeak(
    t: PersonaSignals.Tagger, rd: Reader, agent: string, s: PassState, ws: seq<PassWorld>, k: nat, id: Uuid)
    requires WellKeyed(s.db) && Scanning(t, rd, agent, s, ws) && k < |ws| && id in CorrectingIds(t, rd, s.db, agent)
    requires Pass(t, rd, agent, RunPasses(t, rd, agent, s, ws[..k]), ws[k]).report.flushed.Done?
    ensures Processed(rd, RunPasses(t, rd, agent, s, ws).db, id)
  {
    hide Pass, KeepsEpisodes, RunPasses, Processed, UpdateFrom, ReadingOf, ScansEpisodes, CorrectingIds;
    var now := RunPasses(t, rd, agent, s, ws[..k]);
    ScanningFront(t, rd, agent, s, ws, k);
    RunKeeps(t, rd, agent, s, ws[..k]);
    CorrectingIsKept(t, rd, s.db, now.db, agent);
    var up := UpdateFrom(now.db, agent, ws[k].facts, ws[k].now).db;
    UpdateKeeps(now.db, agent, ws[k].facts, ws[k].now);
    CorrectingIsKept(t, rd, now.db, up, agent);
    KeptScan(now.db, up, ws[k].episodes);
    CorrectingHasEntry(t, rd, up, agent, now.task, ws[k], id);
    CorrectingIsEpisode(t, rd, now.db, agent, id);
    ProcessedAfterPassIff(t, rd, agent, now, ws[k], id);
    LaterStatesKeep(t, rd, agent, s, ws, k + 1);
    OnePassFurther(t, rd, agent, s, ws, k);
    SpeechIsKept(rd, RunPasses(t, rd, agent, s, ws[..k + 1]).db, RunPasses(t, rd, agent, s, ws).db, id);
  }

  lemma CorrectingIsEpisode(t: PersonaSignals.Tagger, rd: Reader, db: Db, agent: string, id: Uuid)
    requires id in CorrectingIds(t, rd, db, agent)
    ensures IsEpisode(db, id)
  {
  }

  lemma OnePassFurther(t: PersonaSignals.Tagger, rd: Reader, agent: string, s: PassState, ws: seq<PassWorld>, k: nat)
    requires k < |ws|
    ensures RunPasses(t, rd, agent, s, ws[..k + 1]) == Pass(t, rd, agent, RunPasses(t, rd, agent, s, ws[..k]), ws[k]).state
  {
    hide Pass;
    assert ws[..k + 1][..k] == ws[..k];
  }

  lemma {:induction false} LaterStatesKeep(
    t: PersonaSignals.Tagger, rd: Reader, agent: string, s: PassState, ws: seq<PassWorld>, k: nat)
    requires WellKeyed(s.db) && Scanning(t, rd, agent, s, ws) && k <= |ws|
    ensures KeepsEpisodes(RunPasses(t, rd, agent, s, ws[..k]).db, RunPasses(t, rd, agent, s, ws).db)
    decreases |ws|
  {
    hide Pass, KeepsEpisodes, ScansEpisodes;
    if k == |ws| {
      assert ws[..k] == ws;
      RunKeeps(t, rd, agent, s, ws);
      KeepsSelf(RunPasses(t, rd, agent, s, ws).db);
    } else {
      var front := ws[..|ws| - 1];
      ScanningFront(t, rd, agent, s, ws, |ws| - 1);
      assert front[..k] == ws[..k];
      LaterStatesKeep(t, rd, agent, s, front, k);
      RunKeeps(t, rd, agent, s, front);
      var before := RunPasses(t, rd, agent, s, front);
      PassKeeps(t, rd, agent, before, ws[|ws| - 1]);
      KeepsTransitive(RunPasses(t, rd, agent, s, ws[..k]).db, before.db, RunPasses(t, rd, agent, s, ws).db);
    }
  }

  lemma CorrectingHasEntry(
    t: PersonaSignals.Tagger, rd: Reader, db: Db, agent: string, task: TaskState, w: PassWorld, id: Uuid)
    requires WellKeyed(db) && ScansEpisodes(db, w.episodes) && id in CorrectingIds(t, rd, db, agent)
    ensures exists p :: p in Pending(t, agent, task, ReadingOf(rd, db, agent, w)) && p.0 == id
  {
    hide EpisodesIn, GraphSignals, FactsIn, PassInput.Chronological, PersonaSignals.PassTags;
    var rows := EpisodesIn(rd, db, w.episodes);
    var eps := PassInput.Chronological(rows, agent);
    var e := AsEpisode(rd, db.nodes[id].payload);
    ScannedEpisode(rd, db, w.episodes, id);
    PassInput.ChronologicalIsExact(rows, agent, 0);
    assert e in Filter(rows, PassInput.OwnedBy(agent));
    assert e in multiset(eps);
    PersonaSignals.CorrectingIsPending(t, task.episodes, eps);
  }

  lemma {:induction false} ScannedEpisode(rd: Reader, db: Db, order: seq<Uuid>, id: Uuid)
    requires id in order && IsEpisode(db, id)
    ensures AsEpisode(rd, db.nodes[id].payload) in EpisodesIn(rd, db, order)
  {
    if id != order[|order| - 1] {
      ScannedEpisode(rd, db, order[..|order| - 1], id);
    }
  }
}
