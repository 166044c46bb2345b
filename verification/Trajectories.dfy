/** Clustering of recorded trajectories and the experience bundle made of a cluster. */
module Trajectories {
  import opened Wrappers
  import opened Bounds
  import opened Collections
  import opened Contracts

  datatype Step = Step(
    adapter: string, operation: string, success: bool, error: Option<string>, output: Option<string>, trust: Option<real>)

  datatype Record = Record(
    episodeId: string,
    projectId: Option<string>,
    sourceHash: Option<string>,
    outcome: TrajectoryOutcome,
    steps: seq<Step>,
    durationMs: nat,
    fitnessDelta: Option<real>)

  datatype Cluster = Cluster(
    fingerprint: string,
    intent: string,
    outcome: TrajectoryOutcome,
    trajectories: seq<Record>,
    successRatio: real,
    avgDurationMs: nat,
    avgTrust: Option<real>)

  datatype ClusterPolicy = ClusterPolicy(
    minSuccessRatio: real, minSteps: nat, maxAvgDurationMs: Option<nat>, minAvgTrust: Option<real>)

  const DEFAULT_POLICY: ClusterPolicy := ClusterPolicy(1.0, 1, Some(600000), Some(0.55))

  // ---- Fingerprints ----

  function StepsText(steps: seq<Step>): string {
    if steps == [] then ""
    else
      var last := steps[|steps| - 1];
      StepsText(steps[..|steps| - 1]) + "|" + last.adapter + "." + last.operation
  }

  function CanonicalText(r: Record): string {
    (if r.projectId.Some? then r.projectId.value else "global") + ":"
    + (if r.sourceHash.Some? then r.sourceHash.value else "") + StepsText(r.steps)
  }

  /** The text names the project, the source and the operation of each step, in order. */
  lemma CanonicalTextExactly(r: Record, last: Step)
    requires r.steps == []
    ensures CanonicalText(r) ==
            (match r.projectId case None => "global" case Some(p) => p) + ":"
            + match r.sourceHash case None => "" case Some(h) => h
    ensures forall steps ::
              CanonicalText(r.(steps := steps + [last])) ==
              CanonicalText(r.(steps := steps)) + "|" + last.adapter + "." + last.operation
  {
    hide StepsText;
    forall steps ensures CanonicalText(r.(steps := steps + [last])) ==
                         CanonicalText(r.(steps := steps)) + "|" + last.adapter + "." + last.operation
    {
      StepsTextSnoc(steps, last);
    }
    assert StepsText([]) == "" by {
      NoStepsText();
    }
  }

  lemma NoStepsText()
    ensures StepsText([]) == ""
  {
  }

  lemma StepsTextSnoc(steps: seq<Step>, last: Step)
    ensures StepsText(steps + [last]) == StepsText(steps) + "|" + last.adapter + "." + last.operation
  {
    assert (steps + [last])[..|steps|] == steps;
  }

  /** `hash` stands for the name-based UUID of the canonical text. */
  type Hash = string -> string

  function Fingerprint(hash: Hash, r: Record): string {
    hash(CanonicalText(r))
  }

  // ---- Groups ----

  predicate BelongsTo(hash: Hash, minSteps: nat, key: string, r: Record) {
    |r.steps| >= minSteps && Fingerprint(hash, r) == key
  }

  /** The records of one fingerprint, in arrival order. */
  function Members(hash: Hash, minSteps: nat, records: seq<Record>, key: string): seq<Record> {
    Filter(records, (r: Record) => BelongsTo(hash, minSteps, key, r))
  }

  predicate IsSuccess(r: Record) {
    r.outcome.Success? && forall s :: s in r.steps ==> s.success
  }

  function Successes(rs: seq<Record>): nat {
    |Filter(rs, IsSuccess)|
  }

  function TotalMs(rs: seq<Record>): nat {
    if rs == [] then 0 else TotalMs(rs[..|rs| - 1]) + rs[|rs| - 1].durationMs
  }

  function StepTrusts(steps: seq<Step>): seq<real> {
    if steps == [] then []
    else
      var t := steps[|steps| - 1].trust;
      StepTrusts(steps[..|steps| - 1]) + if t.Some? then [t.value] else []
  }

  function Trusts(rs: seq<Record>): seq<real> {
    if rs == [] then [] else Trusts(rs[..|rs| - 1]) + StepTrusts(rs[|rs| - 1].steps)
  }

  function Sum(xs: seq<real>): real {
    if xs == [] then 0.0 else Sum(xs[..|xs| - 1]) + xs[|xs| - 1]
  }

  function Enriched(c: Cluster): Cluster {
    var count := Max(|c.trajectories|, 1);
    var trusts := Trusts(c.trajectories);
    c.(successRatio := Successes(c.trajectories) as real / count as real,
       avgDurationMs := TotalMs(c.trajectories) / count,
       avgTrust := if trusts == [] then c.avgTrust else Some(Sum(trusts) / |trusts| as real))
  }

  function OpenCluster(key: string, first: Record): Cluster {
    Cluster(key, if first.projectId.Some? then first.projectId.value else "repeated agent workflow",
            first.outcome, [], 0.0, 0, None)
  }

  /** The cluster of a non-empty group before its statistics are filled in. */
  function Gathered(key: string, members: seq<Record>): Cluster
    requires members != []
  {
    OpenCluster(key, members[0]).(trajectories := members)
  }

  predicate Passes(c: Cluster, policy: ClusterPolicy) {
    && c.successRatio >= policy.minSuccessRatio
    && (policy.maxAvgDurationMs.Some? ==> c.avgDurationMs <= policy.maxAvgDurationMs.value)
    && (policy.minAvgTrust.Some? && c.avgTrust.Some? ==> c.avgTrust.value >= policy.minAvgTrust.value)
  }

  /** `clusters` holds one cluster per fingerprint, and exactly the enriched groups that pass. */
  ghost predicate ClustersOf(hash: Hash, records: seq<Record>, policy: ClusterPolicy, clusters: seq<Cluster>) {
    && (forall i, j :: 0 <= i < j < |clusters| ==> clusters[i].fingerprint != clusters[j].fingerprint)
    && (forall c :: c in clusters ==> Selected(hash, records, policy, c))
    && (forall key :: IsSelectedKey(hash, records, policy, key) ==>
                        Enriched(Gathered(key, Members(hash, policy.minSteps, records, key))) in clusters)
  }

  predicate IsSelectedKey(hash: Hash, records: seq<Record>, policy: ClusterPolicy, key: string) {
    var members := Members(hash, policy.minSteps, records, key);
    members != [] && Passes(Enriched(Gathered(key, members)), policy)
  }

  predicate Selected(hash: Hash, records: seq<Record>, policy: ClusterPolicy, c: Cluster) {
    && IsSelectedKey(hash, records, policy, c.fingerprint)
    && c == Enriched(Gathered(c.fingerprint, Members(hash, policy.minSteps, records, c.fingerprint)))
  }

  ghost predicate GroupsOf(hash: Hash, records: seq<Record>, minSteps: nat, groups: map<string, Cluster>) {
    forall key ::
      var members := Members(hash, minSteps, records, key);
      (key in groups <==> members != []) && (key in groups ==> groups[key] == Gathered(key, members))
  }

  function AddTo(groups: map<string, Cluster>, key: string, r: Record): map<string, Cluster> {
    var entry := if key in groups then groups[key] else OpenCluster(key, r);
    groups[key := entry.(trajectories := entry.trajectories + [r])]
  }

  method Group(hash: Hash, records: seq<Record>, minSteps: nat) returns (groups: map<string, Cluster>)
    ensures GroupsOf(hash, records, minSteps, groups)
  {
    hide Fingerprint, OpenCluster, GroupsOf;
    groups := map[];
    NoGroups(hash, records, minSteps);
    for i := 0 to |records|
      invariant GroupsOf(hash, records[..i], minSteps, groups)
    {
      var r := records[i];
      GroupsStep(hash, records, i, minSteps, groups);
      if |r.steps| >= minSteps {
        groups := AddTo(groups, Fingerprint(hash, r), r);
      }
    }
    assert records[..|records|] == records;
  }

  lemma GroupsStep(hash: Hash, records: seq<Record>, i: nat, minSteps: nat, groups: map<string, Cluster>)
    requires i < |records| && GroupsOf(hash, records[..i], minSteps, groups)
    ensures var r := records[i];
            GroupsOf(hash, records[..i + 1], minSteps,
                     if |r.steps| >= minSteps then AddTo(groups, Fingerprint(hash, r), r) else groups)
  {
    hide Fingerprint, Members;
    var r := records[i];
    var after := if |r.steps| >= minSteps then AddTo(groups, Fingerprint(hash, r), r) else groups;
    forall key ensures var members := Members(hash, minSteps, records[..i + 1], key);
                       (key in after <==> members != []) && (key in after ==> after[key] == Gathered(key, members))
    {
      MembersStep(hash, minSteps, records, i, key);
      var before := Members(hash, minSteps, records[..i], key);
      assert key in groups <==> before != [];
    }
  }

  lemma MembersStep(hash: Hash, minSteps: nat, records: seq<Record>, i: nat, key: string)
    requires i < |records|
    ensures var before := Members(hash, minSteps, records[..i], key);
            Members(hash, minSteps, records[..i + 1], key) ==
            if BelongsTo(hash, minSteps, key, records[i]) then before + [records[i]] else before
    ensures forall m :: m in Members(hash, minSteps, records[..i], key) ==> BelongsTo(hash, minSteps, key, m)
  {
    FilterStep(records, i, (r: Record) => BelongsTo(hash, minSteps, key, r));
  }

  lemma NoGroups(hash: Hash, records: seq<Record>, minSteps: nat)
    ensures GroupsOf(hash, records[..0], minSteps, map[])
  {
  }

  /** Group, then enrich, then drop what fails the policy. */
  method ClusterExperiences(hash: Hash, records: seq<Record>, policy: ClusterPolicy) returns (clusters: seq<Cluster>)
    ensures ClustersOf(hash, records, policy, clusters)
  {
    hide Members, Enriched, Passes, Distinct;
    var groups := Group(hash, records, policy.minSteps);
    var keys := Enumerate(groups.Keys);
    clusters := [];
    for i := 0 to |keys|
      invariant forall a, b :: 0 <= a < b < |clusters| ==> clusters[a].fingerprint != clusters[b].fingerprint
      invariant forall c :: c in clusters ==> Selected(hash, records, policy, c) && c.fingerprint in keys[..i]
      invariant forall key :: key in keys[..i] && IsSelectedKey(hash, records, policy, key) ==>
                                Enriched(Gathered(key, Members(hash, policy.minSteps, records, key))) in clusters
    {
      var key := keys[i];
      assert key in Elems(keys);
      NotYet(keys, i);
      assert keys[..i + 1] == keys[..i] + [key];
      assert groups[key] == Gathered(key, Members(hash, policy.minSteps, records, key));
      EnrichedKeepsName(groups[key]);
      var c := Enriched(groups[key]);
      assert c.fingerprint == key && (Passes(c, policy) ==> Selected(hash, records, policy, c));
      if Passes(c, policy) {
        clusters := clusters + [c];
      }
    }
    forall key | IsSelectedKey(hash, records, policy, key) ensures key in keys[..|keys|] {
      assert key in Elems(keys);
    }
  }

  lemma NotYet(keys: seq<string>, i: nat)
    requires Distinct(keys) && i < |keys|
    ensures keys[i] !in keys[..i]
  {
  }

  lemma EnrichedKeepsName(c: Cluster)
    ensures Enriched(c).fingerprint == c.fingerprint && Enriched(c).trajectories == c.trajectories
  {
  }

  // ---- What clustering promises ----

  /** The groups partition the long enough records: a record sits in the group of its own
      fingerprint as often as it was given, and in no other. */
  lemma GroupsPartition(hash: Hash, minSteps: nat, records: seq<Record>, key: string, r: Record)
    ensures multiset(Members(hash, minSteps, records, key))[r] ==
            if |r.steps| >= minSteps && key == hash(CanonicalText(r)) then multiset(records)[r] else 0
  {
    hide CanonicalText;
    FilterCount(records, (x: Record) => BelongsTo(hash, minSteps, key, x), r);
  }

  lemma {:induction false} FilterIsShorter<T(!new)>(s: seq<T>, p: T -> bool)
    ensures |Filter(s, p)| <= |s|
    ensures |Filter(s, p)| == |s| <==> forall x :: x in s ==> p(x)
  {
    if s != [] {
      FilterIsShorter(s[1..], p);
      assert s == [s[0]] + s[1..];
    }
  }

  /** A success ratio of one means every trajectory, and every step of it, succeeded. */
  lemma FullRatioIff(c: Cluster)
    requires c.trajectories != []
    ensures Enriched(c).successRatio <= 1.0
    ensures Enriched(c).successRatio >= 1.0 <==> forall r :: r in c.trajectories ==> IsSuccess(r)
  {
    hide IsSuccess, TotalMs, Trusts, Sum, Filter;
    FilterIsShorter(c.trajectories, IsSuccess);
    RatioOfOne(Successes(c.trajectories), |c.trajectories|);
  }

  lemma RatioOfOne(part: nat, whole: nat)
    requires part <= whole && whole > 0
    ensures part as real / whole as real <= 1.0
    ensures part as real / whole as real >= 1.0 <==> part == whole
  {
  }

  /** Durations, successes and fitness changes of a group add up over its records. */
  lemma {:induction false} TotalsAddUp(rs: seq<Record>, last: Record)
    ensures TotalMs([]) == 0 && Deltas([]) == 0.0 && Successes([]) == 0
    ensures TotalMs(rs + [last]) == TotalMs(rs) + last.durationMs
    ensures Deltas(rs + [last]) == Deltas(rs) + if last.fitnessDelta.Some? then last.fitnessDelta.value else 0.0
    ensures Successes(rs + [last]) == Successes(rs) +
              if last.outcome.Success? && forall s :: s in last.steps ==> s.success then 1 else 0
  {
    var all := rs + [last];
    assert all[..|rs|] == rs && all[..|rs| + 1] == all;
    FilterStep(all, |rs|, IsSuccess);
  }

  /** The trust values of a group are those of its steps, in order, where there is one. */
  lemma TrustsAddUp(rs: seq<Record>, r: Record, step: Step, xs: seq<real>, x: real)
    ensures Trusts([]) == [] && Sum([]) == 0.0 && Sum(xs + [x]) == Sum(xs) + x
    ensures r.steps == [] ==> Trusts(rs + [r]) == Trusts(rs)
    ensures Trusts(rs + [r.(steps := r.steps + [step])]) ==
            Trusts(rs + [r]) + match step.trust case None => [] case Some(t) => [t]
  {
    assert (xs + [x])[..|xs|] == xs;
    var more := r.(steps := r.steps + [step]);
    assert (rs + [r])[..|rs|] == rs && (rs + [more])[..|rs|] == rs;
    assert more.steps[..|r.steps|] == r.steps;
    hide Sum;
  }

  /** What a group must show to survive the default policy. */
  lemma DefaultSelects(hash: Hash, records: seq<Record>, key: string)
    ensures var members := Members(hash, 1, records, key);
            var trusts := Trusts(members);
            IsSelectedKey(hash, records, DEFAULT_POLICY, key) <==>
            && members != []
            && (forall r :: r in members ==> r.outcome.Success? && forall s :: s in r.steps ==> s.success)
            && TotalMs(members) / |members| <= 600000
            && (trusts != [] ==> Sum(trusts) / |trusts| as real >= 0.55)
  {
    hide Members, TotalMs, Trusts, Sum, Successes;
    var members := Members(hash, 1, records, key);
    if members != [] {
      FullRatioIff(Gathered(key, members));
    }
  }

  /** Under the default policy every surviving cluster is all-success and has steps. */
  lemma DefaultClustersSucceed(hash: Hash, records: seq<Record>, c: Cluster)
    requires Selected(hash, records, DEFAULT_POLICY, c)
    ensures c.trajectories != [] && c.successRatio == 1.0 && c.outcome.Success?
    ensures forall r :: r in c.trajectories ==> IsSuccess(r) && r.steps != []
  {
    hide Enriched, Fingerprint;
    var members := Members(hash, 1, records, c.fingerprint);
    var gathered := Gathered(c.fingerprint, members);
    EnrichedKeepsName(gathered);
    EnrichedKeepsOutcome(gathered);
    FullRatioIff(gathered);
    assert members[0] in members;
  }

  lemma EnrichedKeepsOutcome(c: Cluster)
    ensures Enriched(c).outcome == c.outcome
  {
  }

  // ---- Bundles ----

  datatype Bundle = Bundle(
    bundleId: string,
    intent: string,
    outcome: TrajectoryOutcome,
    observationCount: nat,
    fitness: real,
    events: seq<Step>,
    sourceTrajectoryIds: seq<string>,
    sourceFailureIds: seq<string>)

  function Deltas(rs: seq<Record>): real {
    if rs == [] then 0.0
    else
      var d := rs[|rs| - 1].fitnessDelta;
      Deltas(rs[..|rs| - 1]) + if d.Some? then d.value else 0.0
  }

  function BundleFitness(c: Cluster, observations: nat): (r: real)
    ensures 0.0 <= r <= 1.0
  {
    if observations == 0 then 0.0 else Clamp(c.successRatio + Deltas(c.trajectories) / observations as real)
  }

  function BuildBundle(c: Cluster): Bundle {
    var observations := |c.trajectories| % (U32_MAX + 1);
    Bundle("experience:" + c.fingerprint, c.intent, c.outcome, observations, BundleFitness(c, observations),
           if c.trajectories == [] then [] else c.trajectories[0].steps,
           seq(|c.trajectories|, i requires 0 <= i < |c.trajectories| => c.trajectories[i].episodeId), [])
  }

  /** The bundle of a group: what it saw, and how well that went on average. */
  lemma BundleExactly(key: string, members: seq<Record>)
    requires 0 < |members| <= U32_MAX
    ensures var b := BuildBundle(Enriched(Gathered(key, members)));
            var mean := (Successes(members) as real + Deltas(members)) / |members| as real;
            && b.bundleId == "experience:" + key && b.outcome == members[0].outcome && b.events == members[0].steps
            && b.intent == (match members[0].projectId case Some(p) => p case None => "repeated agent workflow")
            && b.observationCount == |members| && b.sourceFailureIds == []
            && |b.sourceTrajectoryIds| == |members|
            && (forall i :: 0 <= i < |members| ==> b.sourceTrajectoryIds[i] == members[i].episodeId)
            && b.fitness == if mean < 0.0 then 0.0 else if mean > 1.0 then 1.0 else mean
  {
    hide TotalMs, Trusts, Sum, Successes, Deltas;
    var n := |members| as real;
    AddFractions(Successes(members) as real, Deltas(members), n);
  }

  /** The observation count is 32 bits wide; when it wraps to nothing, so does the fitness. */
  lemma WrappedBundle(key: string, members: seq<Record>)
    requires members != []
    ensures var b := BuildBundle(Enriched(Gathered(key, members)));
            b.observationCount == |members| % 0x1_0000_0000 && (|members| % 0x1_0000_0000 == 0 ==> b.fitness == 0.0)
  {
    hide TotalMs, Trusts, Sum, Successes, Deltas;
  }

  lemma AddFractions(a: real, b: real, n: real)
    requires n > 0.0
    ensures a / n + b / n == (a + b) / n
  {
  }
}
