/** Experience bundle to procedure artifact to execution plan, and patches after a failure. */
module ProcedureLearning {
  import opened Wrappers
  import opened Bounds
  import opened Collections
  import opened Contracts
  import opened Trajectories

  datatype DistillPolicy = DistillPolicy(minObservations: nat, minFitness: real, requireSuccess: bool)

  const DEFAULT_DISTILL: DistillPolicy := DistillPolicy(3, 0.7, true)

  datatype LearningError =
    | EmptyExperience
    | InsufficientObservations(observed: nat, required: nat)
    | FitnessBelowThreshold(fitness: real, floor: real)
    | NonSuccessfulOutcome

  // ---- Step ids ----

  function Decimal(n: nat): string {
    if n < 10 then [('0' as int + n) as char] else Decimal(n / 10) + [('0' as int + n % 10) as char]
  }

  /** At least two digits. */
  function Padded(n: nat): string {
    if n < 10 then "0" + Decimal(n) else Decimal(n)
  }

  function StepId(index: nat): string {
    "step-" + Padded(index + 1)
  }

  function Value(digits: string): int {
    if digits == [] then 0
    else 10 * Value(digits[..|digits| - 1]) + (digits[|digits| - 1] as int - '0' as int)
  }

  lemma {:induction false} DecimalRoundTrip(n: nat)
    ensures Value(Decimal(n)) == n
  {
    if n < 10 {
      assert Decimal(n)[..0] == [];
    } else {
      DecimalRoundTrip(n / 10);
      assert Decimal(n)[..|Decimal(n)| - 1] == Decimal(n / 10);
    }
  }

  lemma PaddedRoundTrip(n: nat)
    ensures Value(Padded(n)) == n
  {
    DecimalRoundTrip(n);
    if n < 10 {
      var d := Decimal(n);
      assert Padded(n)[..1] == "0";
      assert "0"[..0] == [];
    }
  }

  /** No two steps ever get the same id, however many there are. */
  lemma StepIdsDiffer(i: nat, j: nat)
    requires StepId(i) == StepId(j)
    ensures i == j
  {
    PaddedRoundTrip(i + 1);
    PaddedRoundTrip(j + 1);
    assert StepId(i)[5..] == Padded(i + 1) && StepId(j)[5..] == Padded(j + 1);
  }

  // ---- Distillation ----

  function Verdict(b: Bundle, policy: DistillPolicy): Option<LearningError> {
    if b.events == [] then Some(EmptyExperience)
    else if b.observationCount < policy.minObservations then
      Some(InsufficientObservations(b.observationCount, policy.minObservations))
    else if b.fitness < policy.minFitness then Some(FitnessBelowThreshold(b.fitness, policy.minFitness))
    else if policy.requireSuccess && !b.outcome.Success? then Some(NonSuccessfulOutcome)
    else None
  }

  function StepFor(events: seq<Step>, i: nat): ProcedureStep
    requires i < |events|
  {
    ProcedureStep(StepId(i), events[i].operation, ToolCall(events[i].operation), events[i].output)
  }

  function StepsFor(events: seq<Step>): (r: seq<ProcedureStep>)
    ensures |r| == |events|
  {
    seq(|events|, i requires 0 <= i < |events| => StepFor(events, i))
  }

  function ToolsUsed(events: seq<Step>): set<string> {
    set e | e in events && e.success :: e.operation
  }

  function AdaptersUsed(events: seq<Step>): set<string> {
    set e | e in events && e.adapter != "tool" :: e.adapter
  }

  function FailuresSeen(events: seq<Step>): seq<string> {
    if events == [] then []
    else
      var e := events[|events| - 1];
      FailuresSeen(events[..|events| - 1])
      + if !e.success && e.error.Some? then [e.operation + ": " + e.error.value] else []
  }

  /** What distillation makes of a bundle, with the sets listed in some order. */
  ghost predicate DistilledFrom(b: Bundle, a: Artifact) {
    && a.intent == b.intent
    && a.steps == StepsFor(b.events)
    && Distinct(a.requiredTools) && Elems(a.requiredTools) == ToolsUsed(b.events)
    && Distinct(a.requiredAdapters) && Elems(a.requiredAdapters) == AdaptersUsed(b.events)
    && a.knownFailures == FailuresSeen(b.events)
    && a.sourceTrajectoryIds == b.sourceTrajectoryIds && a.sourceFailureIds == b.sourceFailureIds
    && a.fitness == b.fitness && a.observationCount == b.observationCount && a.lifecycle.Candidate?
    && a.recovery == ["If any step fails, stop and inspect the failure before retrying."]
  }

  lemma NothingUsed(events: seq<Step>)
    ensures ToolsUsed(events[..0]) == {} && AdaptersUsed(events[..0]) == {} && FailuresSeen(events[..0]) == []
  {
  }

  lemma UsedStep(events: seq<Step>, i: nat)
    requires i < |events|
    ensures var e, before, after := events[i], events[..i], events[..i + 1];
            && ToolsUsed(after) == ToolsUsed(before) + (if e.success then {e.operation} else {})
            && AdaptersUsed(after) == AdaptersUsed(before) + (if e.adapter != "tool" then {e.adapter} else {})
            && FailuresSeen(after) ==
               FailuresSeen(before) + if !e.success && e.error.Some? then [e.operation + ": " + e.error.value] else []
  {
    assert events[..i + 1] == events[..i] + [events[i]];
    assert events[..i + 1][..i] == events[..i];
  }

  /** `fingerprint` is the content hash of the bundle. */
  method DistillProcedure(b: Bundle, policy: DistillPolicy, fingerprint: string)
    returns (r: Result<Artifact, LearningError>)
    ensures b.events == [] ==> r == Err(EmptyExperience)
    ensures b.events != [] && b.observationCount < policy.minObservations ==>
              r == Err(InsufficientObservations(b.observationCount, policy.minObservations))
    ensures b.events != [] && b.observationCount >= policy.minObservations && b.fitness < policy.minFitness ==>
              r == Err(FitnessBelowThreshold(b.fitness, policy.minFitness))
    ensures && b.events != [] && b.observationCount >= policy.minObservations && b.fitness >= policy.minFitness
            && policy.requireSuccess && !b.outcome.Success?
            ==> r == Err(NonSuccessfulOutcome)
    ensures Verdict(b, policy).Some? <==>
            || b.events == [] || b.observationCount < policy.minObservations || b.fitness < policy.minFitness
            || (policy.requireSuccess && !b.outcome.Success?)
    ensures Verdict(b, policy).None? ==> r.Ok? && r.value.id == "proc:" + fingerprint && DistilledFrom(b, r.value)
  {
    hide StepFor, ToolsUsed, AdaptersUsed, FailuresSeen;
    var verdict := Verdict(b, policy);
    if verdict.Some? {
      return Err(verdict.value);
    }
    var tools: set<string>, adapters: set<string> := {}, {};
    var failures, steps := [], [];
    NothingUsed(b.events);
    for i := 0 to |b.events|
      invariant tools == ToolsUsed(b.events[..i]) && adapters == AdaptersUsed(b.events[..i])
      invariant failures == FailuresSeen(b.events[..i])
      invariant |steps| == i && forall j :: 0 <= j < i ==> steps[j] == StepFor(b.events, j)
    {
      var e := b.events[i];
      UsedStep(b.events, i);
      if e.success {
        tools := tools + {e.operation};
      } else if e.error.Some? {
        failures := failures + [e.operation + ": " + e.error.value];
      }
      if e.adapter != "tool" {
        adapters := adapters + {e.adapter};
      }
      steps := steps + [StepFor(b.events, i)];
    }
    assert b.events[..|b.events|] == b.events;
    var toolList := Enumerate(tools);
    var adapterList := Enumerate(adapters);
    r := Ok(Artifact("proc:" + fingerprint, b.intent, toolList, adapterList, steps, failures,
                     ["If any step fails, stop and inspect the failure before retrying."],
                     b.sourceTrajectoryIds, b.sourceFailureIds, b.fitness, b.observationCount, Candidate));
  }

  function Ids(steps: seq<ProcedureStep>): (r: seq<string>)
    ensures |r| == |steps|
    ensures forall i :: 0 <= i < |steps| ==> r[i] == steps[i].stepId
  {
    seq(|steps|, i requires 0 <= i < |steps| => steps[i].stepId)
  }

  lemma DistilledIdsAreDistinct(b: Bundle, a: Artifact)
    requires DistilledFrom(b, a)
    ensures Distinct(Ids(a.steps)) && RECOVERY_CHECK !in Ids(a.steps)
  {
    hide StepId;
    forall i, j | 0 <= i < j < |a.steps| ensures Ids(a.steps)[i] != Ids(a.steps)[j] {
      if StepId(i) == StepId(j) {
        StepIdsDiffer(i, j);
      }
    }
    forall i | 0 <= i < |a.steps| ensures Ids(a.steps)[i] != RECOVERY_CHECK {
      StepIdStart(i);
    }
  }

  lemma StepIdStart(i: nat)
    ensures StepId(i) != RECOVERY_CHECK
  {
    assert StepId(i)[0] == 's';
  }

  /** The tools of all steps are required tools exactly when every failed operation also
      succeeded somewhere: a failed event alone does not make its tool required. */
  lemma StepToolsRequiredIff(b: Bundle, a: Artifact)
    requires DistilledFrom(b, a)
    ensures (forall s :: s in a.steps ==> s.kind.ToolCall? && s.kind.tool in a.requiredTools) <==>
            forall e :: e in b.events && !e.success ==> exists f :: f in b.events && f.success && f.operation == e.operation
  {
    hide Distinct, Elems, ToolsUsed, AdaptersUsed, FailuresSeen, StepId;
    if forall e :: e in b.events && !e.success ==> exists f :: f in b.events && f.success && f.operation == e.operation {
      forall s | s in a.steps ensures s.kind.ToolCall? && s.kind.tool in a.requiredTools {
        var i :| 0 <= i < |a.steps| && a.steps[i] == s;
        assert b.events[i] in b.events;
        RequiredExactly(b, a, b.events[i].operation);
      }
    }
    if forall s :: s in a.steps ==> s.kind.ToolCall? && s.kind.tool in a.requiredTools {
      forall e | e in b.events ensures exists f :: f in b.events && f.success && f.operation == e.operation {
        var i :| 0 <= i < |b.events| && b.events[i] == e;
        assert a.steps[i] in a.steps && a.steps[i].kind == ToolCall(e.operation);
        RequiredExactly(b, a, e.operation);
      }
    }
  }

  lemma RequiredExactly(b: Bundle, a: Artifact, tool: string)
    requires DistilledFrom(b, a)
    ensures tool in a.requiredTools <==> exists f :: f in b.events && f.success && f.operation == tool
  {
    assert tool in a.requiredTools <==> tool in Elems(a.requiredTools);
  }

  /** A distilled artifact in terms of the events: one step for each, named by its place; the
      adapters other than plain tools; and a line for each failed event with an error. */
  lemma DistilledExactly(b: Bundle, a: Artifact, adapter: string)
    requires DistilledFrom(b, a)
    ensures |a.steps| == |b.events|
    ensures forall i :: 0 <= i < |a.steps| ==>
              var e := b.events[i];
              a.steps[i] == ProcedureStep("step-" + Padded(i + 1), e.operation, ToolCall(e.operation), e.output)
    ensures adapter in a.requiredAdapters <==> adapter != "tool" && exists e :: e in b.events && e.adapter == adapter
    ensures forall n: string :: n in a.knownFailures <==>
              exists e :: e in b.events && !e.success && e.error.Some? && n == e.operation + ": " + e.error.value
  {
    assert adapter in a.requiredAdapters <==> adapter in Elems(a.requiredAdapters);
    FailuresExactly(b.events);
    hide Padded;
  }

  lemma {:induction false} FailuresExactly(events: seq<Step>)
    ensures forall n: string :: n in FailuresSeen(events) <==>
              exists e :: e in events && !e.success && e.error.Some? && n == e.operation + ": " + e.error.value
  {
    if events != [] {
      var front, last := events[..|events| - 1], events[|events| - 1];
      FailuresExactly(front);
      assert events == front + [last];
    }
  }

  /** A step number in decimal, with a zero in front if it has one digit only. */
  lemma PaddedExactly(n: nat)
    ensures |Padded(n)| >= 2 && Value(Padded(n)) == n && forall c :: c in Padded(n) ==> '0' <= c <= '9'
    ensures |Padded(n)| > 2 ==> Padded(n)[0] != '0'
  {
    PaddedRoundTrip(n);
    DecimalDigits(n);
    if 10 <= n < 100 {
      assert |Decimal(n / 10)| == 1;
    }
  }

  lemma {:induction false} DecimalDigits(n: nat)
    ensures |Decimal(n)| >= 1 && (n >= 10 ==> |Decimal(n)| >= 2)
    ensures forall c :: c in Decimal(n) ==> '0' <= c <= '9'
    ensures n > 0 ==> Decimal(n)[0] != '0'
  {
    if n >= 10 {
      DecimalDigits(n / 10);
    }
  }

  lemma {:induction false} NoFailuresSeen(events: seq<Step>)
    requires forall e :: e in events ==> e.success
    ensures FailuresSeen(events) == []
  {
    if events != [] {
      NoFailuresSeen(events[..|events| - 1]);
    }
  }

  /** From any trajectories, whatever survives the default policies: the artifact distilled from
      a cluster has no known failures, requires every tool its steps call, has fitness in
      [0.7, 1] and pairwise different step ids, and its plan is one chain that only the listed
      order runs. */
  lemma LearnedArtifactIsSound(
    hash: Hash, records: seq<Record>, c: Cluster, a: Artifact, plan: seq<PlanStep>, order: seq<string>)
    requires Selected(hash, records, DEFAULT_POLICY, c)
    requires Verdict(BuildBundle(c), DEFAULT_DISTILL).None? && DistilledFrom(BuildBundle(c), a)
    ensures a.knownFailures == [] && a.steps != [] && Distinct(Ids(a.steps))
    ensures forall s :: s in a.steps ==> s.kind.ToolCall? && s.kind.tool in a.requiredTools
    ensures 0.7 <= a.fitness <= 1.0 && a.observationCount >= 3
    ensures IsChain(a.steps, plan) ==> (IsSchedule(plan, order) <==> order == Ids(a.steps))
  {
    hide Selected, DistilledFrom, IsChain, IsSchedule;
    DefaultClustersSucceed(hash, records, c);
    assert IsSuccess(c.trajectories[0]);
    DistilledParts(BuildBundle(c), a);
    NoFailuresSeen(c.trajectories[0].steps);
    DistilledIdsAreDistinct(BuildBundle(c), a);
    StepToolsRequiredIff(BuildBundle(c), a);
    if IsChain(a.steps, plan) {
      PlanHasOneSchedule(a.steps, plan, order);
    }
  }

  lemma DistilledParts(b: Bundle, a: Artifact)
    requires DistilledFrom(b, a)
    ensures a.knownFailures == FailuresSeen(b.events) && |a.steps| == |b.events|
    ensures a.fitness == b.fitness && a.observationCount == b.observationCount
  {
  }

  /** A default cluster is distilled exactly when it was seen often enough and is fit enough. */
  lemma DistillsIff(hash: Hash, records: seq<Record>, c: Cluster)
    requires Selected(hash, records, DEFAULT_POLICY, c)
    ensures Verdict(BuildBundle(c), DEFAULT_DISTILL).None? <==>
            var n := |c.trajectories| % (U32_MAX + 1); n >= 3 && Deltas(c.trajectories) / n as real >= -0.3
  {
    hide Selected;
    DefaultClustersSucceed(hash, records, c);
    assert IsSuccess(c.trajectories[0]) && c.trajectories[0] in c.trajectories;
  }

  // ---- Patches ----

  const RECOVERY_CHECK: string := "recovery-check"

  datatype Patch = Patch(
    addSteps: seq<ProcedureStep>, addKnownFailures: seq<string>, addRecovery: seq<string>, sourceFailureIds: seq<string>)

  function PatchFromFailure(failureId: string, message: string): Patch {
    Patch([ProcedureStep(RECOVERY_CHECK, "Check prior failure before retry",
                         Validate("previous failure is addressed"), Some(message))],
          [message], ["Do not retry unchanged inputs after this failure."], [failureId])
  }

  function ApplyPatch(a: Artifact, p: Patch): Artifact {
    a.(steps := a.steps + p.addSteps, knownFailures := a.knownFailures + p.addKnownFailures,
       recovery := a.recovery + p.addRecovery, sourceFailureIds := a.sourceFailureIds + p.sourceFailureIds,
       lifecycle := Candidate)
  }

  /** What a failure adds to an artifact: a check, the failure itself, a warning and its id; and
      the artifact is a candidate again. */
  lemma PatchedExactly(a: Artifact, failureId: string, message: string)
    ensures ApplyPatch(a, PatchFromFailure(failureId, message)) ==
            a.(steps := a.steps + [ProcedureStep("recovery-check", "Check prior failure before retry",
                                                 Validate("previous failure is addressed"), Some(message))],
               knownFailures := a.knownFailures + [message],
               recovery := a.recovery + ["Do not retry unchanged inputs after this failure."],
               sourceFailureIds := a.sourceFailureIds + [failureId],
               lifecycle := Candidate)
  {
  }

  lemma IdsAppend(s: seq<ProcedureStep>, t: seq<ProcedureStep>)
    ensures Ids(s + t) == Ids(s) + Ids(t)
  {
  }

  /** A failure patch keeps the step ids distinct exactly when there was none before it. */
  lemma PatchKeepsIdsIff(a: Artifact, failureId: string, message: string)
    ensures Distinct(Ids(ApplyPatch(a, PatchFromFailure(failureId, message)).steps)) <==>
            Distinct(Ids(a.steps)) && RECOVERY_CHECK !in Ids(a.steps)
  {
    var p := PatchFromFailure(failureId, message);
    var ids := Ids(a.steps);
    IdsAppend(a.steps, p.addSteps);
    assert Ids(p.addSteps) == [RECOVERY_CHECK];
    DistinctSnocIff(ids, RECOVERY_CHECK);
  }

  lemma DistinctSnocIff<T>(s: seq<T>, x: T)
    ensures Distinct(s + [x]) <==> Distinct(s) && x !in s
  {
    if Distinct(s + [x]) {
      forall i, j | 0 <= i < j < |s| ensures s[i] != s[j] {
        assert (s + [x])[i] != (s + [x])[j];
      }
      forall i | 0 <= i < |s| ensures s[i] != x {
        assert (s + [x])[i] != (s + [x])[|s|];
      }
    }
  }

  // ---- Execution plans ----

  datatype PlanStep = PlanStep(stepId: string, executor: string, operation: string, dependsOn: seq<string>)

  function Executor(k: StepKind): string {
    match k
    case ToolCall(_) => "tool"
    case AdapterCall(_, _) => "adapter"
    case Validate(_) => "validate"
    case Branch(_) => "branch"
    case HumanReview(_) => "human_review"
    case Instruction(_) => "instruction"
  }

  function Operation(k: StepKind): string {
    match k
    case ToolCall(t) => t
    case AdapterCall(a, op) => a + "." + op
    case Validate(t) => t
    case Branch(c) => c
    case HumanReview(r) => r
    case Instruction(t) => t
  }

  /** Every step waits for the one listed before it. */
  function ChainStep(steps: seq<ProcedureStep>, i: nat): PlanStep
    requires i < |steps|
  {
    PlanStep(steps[i].stepId, Executor(steps[i].kind), Operation(steps[i].kind),
             if i == 0 then [] else [steps[i - 1].stepId])
  }

  ghost predicate IsChain(steps: seq<ProcedureStep>, plan: seq<PlanStep>) {
    |plan| == |steps| && forall i :: 0 <= i < |plan| ==> plan[i] == ChainStep(steps, i)
  }

  /** How each kind of step is run. */
  ghost predicate Runs(p: PlanStep, k: StepKind) {
    match k
    case ToolCall(tool) => p.executor == "tool" && p.operation == tool
    case AdapterCall(adapter, op) => p.executor == "adapter" && p.operation == adapter + "." + op
    case Validate(target) => p.executor == "validate" && p.operation == target
    case Branch(condition) => p.executor == "branch" && p.operation == condition
    case HumanReview(reason) => p.executor == "human_review" && p.operation == reason
    case Instruction(text) => p.executor == "instruction" && p.operation == text
  }

  method RenderExecutionPlan(a: Artifact) returns (plan: seq<PlanStep>)
    ensures IsChain(a.steps, plan)
    ensures |plan| == |a.steps|
    ensures forall i :: 0 <= i < |plan| ==> plan[i].stepId == a.steps[i].stepId && Runs(plan[i], a.steps[i].kind)
    ensures forall i :: 0 < i < |plan| ==> plan[i].dependsOn == [plan[i - 1].stepId]
    ensures plan != [] ==> plan[0].dependsOn == []
  {
    plan := [];
    var prior: Option<string> := None;
    for i := 0 to |a.steps|
      invariant |plan| == i && forall j :: 0 <= j < i ==> plan[j] == ChainStep(a.steps, j)
      invariant prior == if i == 0 then None else Some(a.steps[i - 1].stepId)
    {
      var step := a.steps[i];
      var waits := if prior.Some? then [prior.value] else [];
      plan := plan + [PlanStep(step.stepId, Executor(step.kind), Operation(step.kind), waits)];
      prior := Some(step.stepId);
    }
  }

  /** An order that runs every step id once and after everything it depends on. */
  ghost predicate IsSchedule(plan: seq<PlanStep>, order: seq<string>) {
    && Distinct(order) && |order| == |plan|
    && (forall i :: 0 <= i < |plan| ==> plan[i].stepId in order)
    && (forall i, p, q :: 0 <= i < |plan| && 0 <= p < |order| && 0 <= q < |order| ==>
                            (order[p] in plan[i].dependsOn && order[q] == plan[i].stepId ==> p < q))
  }

  lemma {:induction false} ScheduledNoEarlier(steps: seq<ProcedureStep>, plan: seq<PlanStep>, order: seq<string>, i: nat, q: nat)
    requires IsChain(steps, plan) && IsSchedule(plan, order) && i < |plan| && q < |order|
    requires order[q] == plan[i].stepId
    ensures q >= i
  {
    if i > 0 {
      assert plan[i - 1].stepId in order;
      var p :| 0 <= p < |order| && order[p] == plan[i - 1].stepId;
      ScheduledNoEarlier(steps, plan, order, i - 1, p);
      assert plan[i].dependsOn == [plan[i - 1].stepId];
      assert plan[i - 1].stepId in plan[i].dependsOn;
    }
  }

  lemma {:induction false} ScheduledNoLater(steps: seq<ProcedureStep>, plan: seq<PlanStep>, order: seq<string>, i: nat, q: nat)
    requires IsChain(steps, plan) && IsSchedule(plan, order) && i < |plan| && q < |order|
    requires order[q] == plan[i].stepId
    ensures q <= i
    decreases |plan| - i
  {
    if i + 1 < |plan| {
      assert plan[i + 1].stepId in order;
      var p :| 0 <= p < |order| && order[p] == plan[i + 1].stepId;
      ScheduledNoLater(steps, plan, order, i + 1, p);
      assert plan[i + 1].dependsOn == [plan[i].stepId];
      assert plan[i].stepId in plan[i + 1].dependsOn;
    }
  }

  /** With distinct step ids a plan is one acyclic chain: the listed order runs it, and no
      other order does. */
  lemma PlanHasOneSchedule(steps: seq<ProcedureStep>, plan: seq<PlanStep>, order: seq<string>)
    requires IsChain(steps, plan) && Distinct(Ids(steps))
    ensures IsSchedule(plan, order) <==> order == Ids(steps)
  {
    if order == Ids(steps) {
      ListedOrderRuns(steps, plan);
    }
    if IsSchedule(plan, order) {
      forall i | 0 <= i < |plan| ensures order[i] == Ids(steps)[i] {
        assert plan[i].stepId in order;
        var q :| 0 <= q < |order| && order[q] == plan[i].stepId;
        ScheduledNoEarlier(steps, plan, order, i, q);
        ScheduledNoLater(steps, plan, order, i, q);
      }
    }
  }

  lemma ListedOrderRuns(steps: seq<ProcedureStep>, plan: seq<PlanStep>)
    requires IsChain(steps, plan) && Distinct(Ids(steps))
    ensures IsSchedule(plan, Ids(steps))
  {
    var order := Ids(steps);
    forall i | 0 <= i < |plan| ensures plan[i].stepId in order {
      assert order[i] == plan[i].stepId;
    }
  }

  /** A plan can be run at all exactly when its step ids are pairwise different. */
  lemma PlanRunsIff(steps: seq<ProcedureStep>, plan: seq<PlanStep>)
    requires IsChain(steps, plan)
    ensures (exists order :: IsSchedule(plan, order)) <==> Distinct(Ids(steps))
  {
    if Distinct(Ids(steps)) {
      ListedOrderRuns(steps, plan);
    }
    if order :| IsSchedule(plan, order) {
      forall i, j | 0 <= i < j < |steps| ensures Ids(steps)[i] != Ids(steps)[j] {
        assert plan[i].stepId in order;
        var q :| 0 <= q < |order| && order[q] == plan[i].stepId;
        ScheduledNoLater(steps, plan, order, i, q);
        if plan[i].stepId == plan[j].stepId {
          ScheduledNoEarlier(steps, plan, order, j, q);
        }
      }
    }
  }

  /** A failure patch leaves a plan that can be run exactly when the ids were pairwise different
      and there was no failure patch before it. */
  lemma PatchedPlanRunsIff(a: Artifact, failureId: string, message: string, plan: seq<PlanStep>)
    requires IsChain(ApplyPatch(a, PatchFromFailure(failureId, message)).steps, plan)
    ensures (exists order :: IsSchedule(plan, order)) <==> Distinct(Ids(a.steps)) && RECOVERY_CHECK !in Ids(a.steps)
  {
    PlanRunsIff(ApplyPatch(a, PatchFromFailure(failureId, message)).steps, plan);
    PatchKeepsIdsIff(a, failureId, message);
  }

  /** A second failure patch breaks the plan: its step waits for its own id, so no order runs it. */
  lemma TwicePatchedCannotRun(a: Artifact, f: string, g: string, m: string, n: string, plan: seq<PlanStep>, order: seq<string>)
    requires IsChain(ApplyPatch(ApplyPatch(a, PatchFromFailure(f, m)), PatchFromFailure(g, n)).steps, plan)
    ensures !IsSchedule(plan, order)
  {
    var steps := ApplyPatch(ApplyPatch(a, PatchFromFailure(f, m)), PatchFromFailure(g, n)).steps;
    var k := |steps| - 1;
    assert steps[k].stepId == RECOVERY_CHECK && steps[k - 1].stepId == RECOVERY_CHECK;
    assert plan[k] == ChainStep(steps, k) && plan[k].stepId in plan[k].dependsOn;
    if plan[k].stepId in order {
      var q :| 0 <= q < |order| && order[q] == plan[k].stepId;
      assert !(q < q);
    }
  }
}
