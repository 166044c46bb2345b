/** What an extraction pass reads from the store: one agent's episodes in order of time, and its
    facts grouped by topic. */
module PassInput {
  import opened Wrappers
  import opened Collections
  import opened Text

  // ---- Episodes ----

  /** What a detector reads of an episode; a zero token count means none was recorded.
      `fullySignalled` episodes had their tools turned into signals already. */
  datatype Episode = Episode(
    id: nat, agentId: string, timestamp: int, userText: string, userTokens: nat, assistantTokens: nat,
    fullySignalled: bool, taggedTools: nat)

  function InsertByTime(eps: seq<Episode>, e: Episode): seq<Episode> {
    if eps == [] || eps[|eps| - 1].timestamp <= e.timestamp then eps + [e]
    else InsertByTime(eps[..|eps| - 1], e) + [eps[|eps| - 1]]
  }

  function SortByTime(eps: seq<Episode>): seq<Episode> {
    if eps == [] then [] else InsertByTime(SortByTime(eps[..|eps| - 1]), eps[|eps| - 1])
  }

  function OwnedBy(agent: string): Episode -> bool {
    (e: Episode) => e.agentId == agent
  }

  /** The agent's episodes, oldest first; equal times stay in the order of the scan. */
  function Chronological(rows: seq<Episode>, agent: string): seq<Episode> {
    SortByTime(Filter(rows, OwnedBy(agent)))
  }

  ghost predicate InOrder(eps: seq<Episode>) {
    forall i, j :: 0 <= i < j < |eps| ==> eps[i].timestamp <= eps[j].timestamp
  }

  /** Those of `eps` with one time stamp. */
  function AtTime(eps: seq<Episode>, t: int): seq<Episode> {
    Filter(eps, (e: Episode) => e.timestamp == t)
  }

  lemma AtTimeSnoc(eps: seq<Episode>, e: Episode, t: int)
    ensures AtTime(eps + [e], t) == if e.timestamp == t then AtTime(eps, t) + [e] else AtTime(eps, t)
  {
    FilterStep(eps + [e], |eps|, (x: Episode) => x.timestamp == t);
    assert (eps + [e])[..|eps|] == eps && (eps + [e])[..|eps| + 1] == eps + [e];
  }

  lemma InOrderSnoc(eps: seq<Episode>, e: Episode)
    requires InOrder(eps) && forall x :: x in eps ==> x.timestamp <= e.timestamp
    ensures InOrder(eps + [e])
  {
  }

  lemma InOrderFront(eps: seq<Episode>)
    requires InOrder(eps) && eps != []
    ensures InOrder(eps[..|eps| - 1]) && forall x :: x in eps ==> x.timestamp <= eps[|eps| - 1].timestamp
  {
  }

  lemma {:induction false} InsertPermutes(eps: seq<Episode>, e: Episode)
    ensures multiset(InsertByTime(eps, e)) == multiset(eps) + multiset{e}
  {
    if eps != [] && eps[|eps| - 1].timestamp > e.timestamp {
      InsertPermutes(eps[..|eps| - 1], e);
      assert eps == eps[..|eps| - 1] + [eps[|eps| - 1]];
    }
  }

  lemma {:induction false} InsertKeepsOrder(eps: seq<Episode>, e: Episode)
    requires InOrder(eps)
    ensures InOrder(InsertByTime(eps, e))
    ensures forall x :: x in InsertByTime(eps, e) <==> x in eps || x == e
  {
    if eps == [] {
    } else {
      hide InOrder;
      var front, last := eps[..|eps| - 1], eps[|eps| - 1];
      InOrderFront(eps);
      assert eps == front + [last];
      if last.timestamp > e.timestamp {
        InsertKeepsOrder(front, e);
        InOrderSnoc(InsertByTime(front, e), last);
      } else {
        InOrderSnoc(eps, e);
      }
    }
  }

  lemma {:induction false} InsertIsStable(eps: seq<Episode>, e: Episode, t: int)
    ensures AtTime(InsertByTime(eps, e), t) == AtTime(eps + [e], t)
  {
    hide AtTime;
    AtTimeSnoc(eps, e, t);
    if eps != [] && eps[|eps| - 1].timestamp > e.timestamp {
      var front, last := eps[..|eps| - 1], eps[|eps| - 1];
      assert eps == front + [last];
      InsertIsStable(front, e, t);
      AtTimeSnoc(front, e, t);
      AtTimeSnoc(front, last, t);
      AtTimeSnoc(InsertByTime(front, e), last, t);
    }
  }

  lemma {:induction false} SortIsExact(eps: seq<Episode>, t: int)
    ensures InOrder(SortByTime(eps)) && multiset(SortByTime(eps)) == multiset(eps)
    ensures AtTime(SortByTime(eps), t) == AtTime(eps, t)
  {
    hide InsertByTime, InOrder, AtTime;
    if eps == [] {
      NothingInOrder();
    } else {
      var front, last := eps[..|eps| - 1], eps[|eps| - 1];
      assert eps == front + [last];
      SortIsExact(front, t);
      InsertKeepsOrder(SortByTime(front), last);
      InsertPermutes(SortByTime(front), last);
      InsertIsStable(SortByTime(front), last, t);
      AtTimeSnoc(SortByTime(front), last, t);
      AtTimeSnoc(front, last, t);
    }
  }

  lemma NothingInOrder()
    ensures InOrder([])
  {
  }

  /** A pass processes exactly the agent's episodes, oldest first, ties in scan order. */
  lemma ChronologicalIsExact(rows: seq<Episode>, agent: string, t: int)
    ensures var own := Filter(rows, OwnedBy(agent));
            var eps := Chronological(rows, agent);
            InOrder(eps) && multiset(eps) == multiset(own) && AtTime(eps, t) == AtTime(own, t)
    ensures forall e :: multiset(Chronological(rows, agent))[e] == if e.agentId == agent then multiset(rows)[e] else 0
  {
    SortIsExact(Filter(rows, OwnedBy(agent)), t);
    forall e ensures multiset(Filter(rows, OwnedBy(agent)))[e] == if e.agentId == agent then multiset(rows)[e] else 0 {
      FilterCount(rows, OwnedBy(agent), e);
    }
  }

  // ---- Facts ----

  datatype Fact = Fact(agentId: string, topic: Option<string>, recurrence: nat)

  /** Recurrence counts of the semantic nodes of each topic cluster at one pass. */
  type Clusters = map<string, seq<nat>>

  function ClusterKey(topic: Option<string>): Option<string> {
    if topic.None? || IsBlank(topic.value) then None else Some(Lower(Trim(topic.value)))
  }

  predicate Belongs(f: Fact, agent: string, key: string) {
    f.agentId == agent && ClusterKey(f.topic) == Some(key)
  }

  function InCluster(facts: seq<Fact>, agent: string, key: string): seq<nat> {
    if facts == [] then []
    else
      var last := facts[|facts| - 1];
      InCluster(facts[..|facts| - 1], agent, key) + if Belongs(last, agent, key) then [last.recurrence] else []
  }

  function Keys(facts: seq<Fact>, agent: string): set<string> {
    set f | f in facts && f.agentId == agent && ClusterKey(f.topic).Some? :: ClusterKey(f.topic).value
  }

  /** The agent's facts by normalised topic; facts without one are left out. */
  function ClustersOf(facts: seq<Fact>, agent: string): Clusters {
    map key | key in Keys(facts, agent) :: InCluster(facts, agent, key)
  }

  lemma {:induction false} KeyHasFacts(facts: seq<Fact>, agent: string, key: string)
    ensures key in Keys(facts, agent) <==> InCluster(facts, agent, key) != []
  {
    hide ClusterKey;
    if facts != [] {
      var front, last := facts[..|facts| - 1], facts[|facts| - 1];
      assert facts == front + [last];
      KeyHasFacts(front, agent, key);
    }
  }

  /** A topic's cluster holds the recurrence counts of the agent's facts with that topic, trimmed
      and in lower case, in scan order; blank topics and no topic have none. */
  lemma ClusterExactly(facts: seq<Fact>, f: Fact, agent: string, key: string)
    ensures key !in ClustersOf([], agent)
    ensures var before := if key in ClustersOf(facts, agent) then ClustersOf(facts, agent)[key] else [];
            var after := if key in ClustersOf(facts + [f], agent) then ClustersOf(facts + [f], agent)[key] else [];
            after ==
            if f.agentId == agent && f.topic.Some? && Trim(f.topic.value) != "" && Lower(Trim(f.topic.value)) == key
            then before + [f.recurrence] else before
  {
    KeyHasFacts(facts, agent, key);
    KeyHasFacts(facts + [f], agent, key);
    assert (facts + [f])[..|facts|] == facts;
    hide Trim, Lower;
  }

  /** The loop that fills a hash map entry by entry. */
  method GroupClusters(facts: seq<Fact>, agent: string) returns (clusters: Clusters)
    ensures clusters == ClustersOf(facts, agent)
    ensures forall key :: key in clusters ==> clusters[key] != []
  {
    hide ClusterKey;
    clusters := map[];
    for i := 0 to |facts|
      invariant forall key :: key in clusters <==> InCluster(facts[..i], agent, key) != []
      invariant forall key :: key in clusters ==> clusters[key] == InCluster(facts[..i], agent, key)
    {
      assert facts[..i + 1][..i] == facts[..i];
      var key := ClusterKey(facts[i].topic);
      if facts[i].agentId == agent && key.Some? {
        var earlier := if key.value in clusters then clusters[key.value] else [];
        clusters := clusters[key.value := earlier + [facts[i].recurrence]];
      }
    }
    assert facts[..|facts|] == facts;
    forall key ensures key in clusters <==> key in Keys(facts, agent) {
      KeyHasFacts(facts, agent, key);
    }
  }
}
