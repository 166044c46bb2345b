/** The records the crates hand to each other. */
module Contracts {
  import opened Wrappers

  datatype TrajectoryOutcome = Success | PartialSuccess | Failure | Aborted

  datatype Lifecycle = Draft | Candidate | Validated | Promoted | Deprecated

  datatype StepKind =
    | ToolCall(tool: string)
    | AdapterCall(adapter: string, op: string)
    | Validate(target: string)
    | Branch(condition: string)
    | HumanReview(reason: string)
    | Instruction(text: string)

  datatype ProcedureStep = ProcedureStep(stepId: string, title: string, kind: StepKind, rationale: Option<string>)

  /** A reusable procedure. */
  datatype Artifact = Artifact(
    id: string,
    intent: string,
    requiredTools: seq<string>,
    requiredAdapters: seq<string>,
    steps: seq<ProcedureStep>,
    knownFailures: seq<string>,
    recovery: seq<string>,
    sourceTrajectoryIds: seq<string>,
    sourceFailureIds: seq<string>,
    fitness: real,
    observationCount: nat,
    lifecycle: Lifecycle)
}
