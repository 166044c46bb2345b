/** What one extractor task keeps in memory across passes: axes and detector state. */
module ExtractorTask {
  import opened Evolution
  import opened PassInput
  import opened PersonaSignals

  /** What one pass reads: signals of stored nodes, and the episode rows and facts of all agents. */
  datatype Reading = Reading(graph: seq<Signal>, episodes: seq<Episode>, facts: seq<Fact>)

  datatype TaskState = TaskState(axes: Axes, episodes: EpisodeState, domains: DomainState)

  /** The signals one pass ingests: those of the graph, then those of the detectors. */
  function Merged(t: Tagger, agent: string, s: TaskState, r: Reading): seq<Signal> {
    r.graph
    + (PassSignals(t, s.episodes, Chronological(r.episodes, agent))
       + DomainSignals(s.domains.(pass := NextPass(s.domains)), ClustersOf(r.facts, agent)))
  }

  function AfterPass(t: Tagger, agent: string, s: TaskState, r: Reading): TaskState {
    TaskState(Ingest(s.axes, Merged(t, agent, s, r)), After(t, s.episodes, Chronological(r.episodes, agent)),
              DomainPass(s.domains, ClustersOf(r.facts, agent)))
  }

  function AfterAll(t: Tagger, agent: string, s: TaskState, rs: seq<Reading>): TaskState {
    if rs == [] then s else AfterPass(t, agent, AfterAll(t, agent, s, rs[..|rs| - 1]), rs[|rs| - 1])
  }

  function MergedAll(t: Tagger, agent: string, s: TaskState, rs: seq<Reading>): seq<Signal> {
    if rs == [] then []
    else
      var front, last := rs[..|rs| - 1], rs[|rs| - 1];
      MergedAll(t, agent, s, front) + Merged(t, agent, AfterAll(t, agent, s, front), last)
  }

  function EpisodesOf(rs: seq<Reading>, agent: string): seq<seq<Episode>> {
    seq(|rs|, i requires 0 <= i < |rs| => Chronological(rs[i].episodes, agent))
  }

  function ClustersSeen(rs: seq<Reading>, agent: string): seq<Clusters> {
    seq(|rs|, i requires 0 <= i < |rs| => ClustersOf(rs[i].facts, agent))
  }

  const START: TaskState := TaskState(DefaultAxes(0.5), INITIAL, NO_DOMAINS)

  /** After any number of passes of one task: every axis score is in range and is the ingest of
      all merged signals as one stream; the detectors are where one uninterrupted stream of the
      episodes, and the run of passes, would have left them. */
  lemma {:induction false} PassesShareOneState(t: Tagger, agent: string, rs: seq<Reading>)
    ensures var s := AfterAll(t, agent, START, rs);
            && s.axes == Ingest(START.axes, MergedAll(t, agent, START, rs)) && AllInRange(s.axes)
            && s.episodes == After(t, INITIAL, Flatten(EpisodesOf(rs, agent)))
            && s.domains == DomainsAfter(ClustersSeen(rs, agent))
  {
    hide Merged, Ingest, AllInRange, Applied, Chronological, ClustersOf;
    StartInRange();
    ScoresStayInRange(START.axes, MergedAll(t, agent, START, rs));
    if rs == [] {
      NothingIngested();
      NothingYet(t, []);
      assert [][..0] == Flatten(EpisodesOf(rs, agent));
    } else {
      var front, last := rs[..|rs| - 1], rs[|rs| - 1];
      PassesShareOneState(t, agent, front);
      var s := AfterAll(t, agent, START, front);
      IngestInParts(START.axes, MergedAll(t, agent, START, front), Merged(t, agent, s, last));
      assert EpisodesOf(rs, agent)[..|rs| - 1] == EpisodesOf(front, agent);
      assert ClustersSeen(rs, agent)[..|rs| - 1] == ClustersSeen(front, agent);
      AfterAppend(t, INITIAL, Flatten(EpisodesOf(front, agent)), Chronological(last.episodes, agent));
    }
  }

  lemma StartInRange()
    ensures AllInRange(START.axes)
  {
  }

  lemma NothingIngested()
    ensures Ingest(START.axes, []) == START.axes
  {
  }
}
