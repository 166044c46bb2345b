/** The improvement-proposal ledger: submit, validate, adopt. */
module Ledger {
  import opened Wrappers
  import opened Text

  type ProposalId = nat

  datatype Envelope = Envelope(kind: string, originalHash: string, proposedHash: string)

  datatype Row = Row(
    agentId: string,
    envelope: Envelope,
    text: string,
    accepted: bool,
    validationError: Option<string>,
    createdAt: int,
    adoptedAt: Option<int>,
    adoptedNode: Option<string>)

  type Rows = map<ProposalId, Row>

  datatype LedgerError = HashMismatch | Constraint | NoRow | AdoptState

  /** Lowercase hex SHA-256, which the ledger only compares. */
  type Hash = string -> string

  /** `None` accepts, `Some` is the error text. */
  type Validator = string -> Option<string>

  predicate ProposedHashMatches(hash: Hash, envelope: Envelope, text: string) {
    hash(text) == Lower(Trim(envelope.proposedHash))
  }

  // ---- One statement each ----

  datatype Op =
    | Submit(submitId: ProposalId, agentId: string, envelope: Envelope, text: string, createdAt: int)
    | Validate(validateId: ProposalId, validator: Validator)
    | Adopt(adoptId: ProposalId, node: string, adoptedAt: int)

  datatype Reply = Done | Verdict(error: Option<string>) | Refused(reason: LedgerError)

  datatype Effect = Effect(rows: Rows, reply: Reply)

  function Apply(hash: Hash, rows: Rows, op: Op): Effect {
    match op
    case Submit(id, agent, envelope, text, now) =>
      if !ProposedHashMatches(hash, envelope, text) then Effect(rows, Refused(HashMismatch))
      else if id in rows then Effect(rows, Refused(Constraint))
      else Effect(rows[id := Row(agent, envelope, text, false, None, now, None, None)], Done)
    case Validate(id, validator) =>
      if id !in rows then Effect(rows, Refused(NoRow))
      else
        var error := validator(rows[id].text);
        Effect(rows[id := rows[id].(accepted := error.None?, validationError := error)], Verdict(error))
    case Adopt(id, node, now) =>
      if id in rows && rows[id].accepted && rows[id].adoptedAt.None? then
        Effect(rows[id := rows[id].(adoptedAt := Some(now), adoptedNode := Some(node))], Done)
      else Effect(rows, Refused(AdoptState))
  }

  class ProposalLedger {
    const hash: Hash
    var rows: Rows

    constructor (h: Hash)
      ensures hash == h && rows == map[]
    {
      hash, rows := h, map[];
    }

    /** `newId` is the random id of the row. */
    method SubmitProposal(newId: ProposalId, agent: string, envelope: Envelope, text: string, now: int) returns (r: Reply)
      modifies this
      ensures Effect(rows, r) == Apply(hash, old(rows), Submit(newId, agent, envelope, text, now))
    {
      if !ProposedHashMatches(hash, envelope, text) {
        return Refused(HashMismatch);
      }
      if newId in rows {
        return Refused(Constraint);
      }
      rows := rows[newId := Row(agent, envelope, text, false, None, now, None, None)];
      r := Done;
    }

    method ValidateAndRecord(id: ProposalId, validator: Validator) returns (r: Reply)
      modifies this
      ensures Effect(rows, r) == Apply(hash, old(rows), Validate(id, validator))
    {
      if id !in rows {
        return Refused(NoRow);
      }
      var error := validator(rows[id].text);
      match error {
        case None => rows := rows[id := rows[id].(accepted := true, validationError := None)];
        case Some(e) => rows := rows[id := rows[id].(accepted := false, validationError := Some(e))];
      }
      r := Verdict(error);
    }

    method MarkAdopted(id: ProposalId, node: string, now: int) returns (r: Reply)
      modifies this
      ensures Effect(rows, r) == Apply(hash, old(rows), Adopt(id, node, now))
    {
      r := Refused(AdoptState);
      if id in rows && rows[id].accepted && rows[id].adoptedAt.None? {
        rows := rows[id := rows[id].(adoptedAt := Some(now), adoptedNode := Some(node))];
        r := Done;
      }
    }
  }

  function Run(hash: Hash, ops: seq<Op>): Rows {
    if ops == [] then map[] else Apply(hash, Run(hash, ops[..|ops| - 1]), ops[|ops| - 1]).rows
  }

  // ---- The same told from the calls alone, without any table ----

  datatype Proposal = Proposal(agentId: string, envelope: Envelope, text: string, createdAt: int)

  /** The first submission under `id` whose text matches its hash. */
  function Submitted(hash: Hash, ops: seq<Op>, id: ProposalId): Option<Proposal> {
    if ops == [] then None else
    var before, op := Submitted(hash, ops[..|ops| - 1], id), ops[|ops| - 1];
    if before.None? && op.Submit? && op.submitId == id && ProposedHashMatches(hash, op.envelope, op.text)
    then Some(Proposal(op.agentId, op.envelope, op.text, op.createdAt))
    else before
  }

  /** What the latest validation that found the proposal said; `None` while there was none. */
  function LatestVerdict(hash: Hash, ops: seq<Op>, id: ProposalId): Option<Option<string>> {
    if ops == [] then None else
    var front, op := ops[..|ops| - 1], ops[|ops| - 1];
    var proposal := Submitted(hash, front, id);
    if op.Validate? && op.validateId == id && proposal.Some? then Some(op.validator(proposal.value.text))
    else LatestVerdict(hash, front, id)
  }

  /** The first adoption that came while the latest validation was a success. */
  function Adoption(hash: Hash, ops: seq<Op>, id: ProposalId): Option<(int, string)> {
    if ops == [] then None else
    var front, op := ops[..|ops| - 1], ops[|ops| - 1];
    var before := Adoption(hash, front, id);
    if before.None? && op.Adopt? && op.adoptId == id && LatestVerdict(hash, front, id) == Some(None)
    then Some((op.adoptedAt, op.node))
    else before
  }

  /** The row the calls imply. */
  function ImpliedRow(hash: Hash, ops: seq<Op>, id: ProposalId): Option<Row> {
    match Submitted(hash, ops, id)
    case None => None
    case Some(p) =>
      var verdict, adoption := LatestVerdict(hash, ops, id), Adoption(hash, ops, id);
      Some(Row(p.agentId, p.envelope, p.text, verdict == Some(None),
               if verdict.Some? then verdict.value else None, p.createdAt,
               if adoption.Some? then Some(adoption.value.0) else None,
               if adoption.Some? then Some(adoption.value.1) else None))
  }

  /** In every run the table holds, for every id, exactly the row the calls imply: the first
      matching submission, accepted just when the latest validation succeeded, adopted by the
      first adoption that found it accepted. */
  lemma {:induction false} RunIsImplied(hash: Hash, ops: seq<Op>, id: ProposalId)
    ensures ImpliedRow(hash, ops, id) == if id in Run(hash, ops) then Some(Run(hash, ops)[id]) else None
    ensures Submitted(hash, ops, id).None? ==> LatestVerdict(hash, ops, id).None? && Adoption(hash, ops, id).None?
  {
    hide ProposedHashMatches;
    if ops != [] {
      RunIsImplied(hash, ops[..|ops| - 1], id);
    }
  }

  /** A submission is stored iff its text hashes to the proposed hash, give or take space around
      it and case, and its id is new; then the row is the proposal, neither validated nor adopted. */
  lemma SubmitSucceedsIff(hash: Hash, ops: seq<Op>, k: nat)
    requires k < |ops| && ops[k].Submit?
    ensures var op, before := ops[k], Run(hash, ops[..k]);
            var matches := hash(op.text) == Lower(Trim(op.envelope.proposedHash));
            && (ReplyAt(hash, ops, k) == Refused(HashMismatch) <==> !matches)
            && (ReplyAt(hash, ops, k).Done? <==> matches && op.submitId !in before)
            && Run(hash, ops[..k + 1]) ==
               if ReplyAt(hash, ops, k).Done?
               then before[op.submitId := Row(op.agentId, op.envelope, op.text, false, None, op.createdAt, None, None)]
               else before
  {
    hide Lower, Trim;
    assert ops[..k + 1][..k] == ops[..k];
  }

  /** Every stored text hashes to the proposed hash in its envelope, trimmed and in lower case. */
  lemma {:induction false} StoredTextMatchesHash(hash: Hash, ops: seq<Op>, id: ProposalId)
    requires id in Run(hash, ops)
    ensures var row := Run(hash, ops)[id]; hash(row.text) == Lower(Trim(row.envelope.proposedHash))
  {
    hide Lower, Trim;
    if ops != [] {
      var front := ops[..|ops| - 1];
      if id in Run(hash, front) {
        StoredTextMatchesHash(hash, front, id);
      }
    }
  }

  lemma {:induction false} AdoptionIsKept(hash: Hash, ops: seq<Op>, k: nat, id: ProposalId)
    requires k <= |ops| && Adoption(hash, ops[..k], id).Some?
    ensures Adoption(hash, ops, id) == Adoption(hash, ops[..k], id)
  {
    if k == |ops| {
      assert ops[..k] == ops;
    } else {
      assert ops[..|ops| - 1][..k] == ops[..k];
      AdoptionIsKept(hash, ops[..|ops| - 1], k, id);
    }
  }

  /** Once adopted, a row stays in the ledger and its proposal and adoption fields never change. */
  lemma AdoptionIsFinal(hash: Hash, ops: seq<Op>, k: nat, id: ProposalId)
    requires k <= |ops| && id in Run(hash, ops[..k]) && Run(hash, ops[..k])[id].adoptedAt.Some?
    ensures id in Run(hash, ops)
    ensures var before, now := Run(hash, ops[..k])[id], Run(hash, ops)[id];
            now == before.(accepted := now.accepted, validationError := now.validationError)
  {
    hide Run, Submitted, Adoption, LatestVerdict;
    RunIsImplied(hash, ops[..k], id);
    RunIsImplied(hash, ops, id);
    AdoptionIsKept(hash, ops, k, id);
    SubmissionIsKept(hash, ops, k, id);
  }

  lemma {:induction false} SubmissionIsKept(hash: Hash, ops: seq<Op>, k: nat, id: ProposalId)
    requires k <= |ops| && Submitted(hash, ops[..k], id).Some?
    ensures Submitted(hash, ops, id) == Submitted(hash, ops[..k], id)
  {
    if k == |ops| {
      assert ops[..k] == ops;
    } else {
      assert ops[..|ops| - 1][..k] == ops[..k];
      SubmissionIsKept(hash, ops[..|ops| - 1], k, id);
    }
  }

  /** What the `k`-th call was told. */
  function ReplyAt(hash: Hash, ops: seq<Op>, k: nat): Reply
    requires k < |ops|
  {
    Apply(hash, Run(hash, ops[..k]), ops[k]).reply
  }

  /** An adoption call succeeds exactly when the latest validation succeeded and the proposal
      was not adopted yet. */
  lemma AdoptSucceedsIff(hash: Hash, ops: seq<Op>, k: nat)
    requires k < |ops| && ops[k].Adopt?
    ensures ReplyAt(hash, ops, k).Done? <==>
            && LatestVerdict(hash, ops[..k], ops[k].adoptId) == Some(None)
            && Adoption(hash, ops[..k], ops[k].adoptId).None?
  {
    hide Run, Submitted, Adoption, LatestVerdict;
    RunIsImplied(hash, ops[..k], ops[k].adoptId);
  }

  /** A proposal is adopted at most once in any run. */
  lemma AdoptedAtMostOnce(hash: Hash, ops: seq<Op>, i: nat, j: nat)
    requires i < j < |ops| && ops[i].Adopt? && ops[j].Adopt? && ops[i].adoptId == ops[j].adoptId
    ensures !(ReplyAt(hash, ops, i).Done? && ReplyAt(hash, ops, j).Done?)
  {
    hide Run, Submitted, LatestVerdict, ReplyAt;
    AdoptSucceedsIff(hash, ops, i);
    AdoptSucceedsIff(hash, ops, j);
    if ReplyAt(hash, ops, i).Done? {
      var upTo := ops[..j];
      assert upTo[..i + 1][..i] == ops[..i];
      assert Adoption(hash, upTo[..i + 1], ops[i].adoptId).Some?;
      AdoptionIsKept(hash, upTo, i + 1, ops[i].adoptId);
    }
  }

  /** An adopted row goes back to one successful adoption call, and the latest validation before
      that call succeeded. */
  lemma {:induction false} AdoptedRowHasItsCall(hash: Hash, ops: seq<Op>, id: ProposalId) returns (k: nat)
    requires Adoption(hash, ops, id).Some?
    ensures k < |ops| && ops[k].Adopt? && ops[k].adoptId == id && ReplyAt(hash, ops, k).Done?
    ensures LatestVerdict(hash, ops[..k], id) == Some(None)
    ensures Adoption(hash, ops, id) == Some((ops[k].adoptedAt, ops[k].node))
  {
    hide ReplyAt, LatestVerdict, Submitted;
    var front := ops[..|ops| - 1];
    if Adoption(hash, front, id).Some? {
      k := AdoptedRowHasItsCall(hash, front, id);
      assert front[..k] == ops[..k];
      SameReply(hash, front, ops, k);
    } else {
      k := |ops| - 1;
      AdoptSucceedsIff(hash, ops, k);
    }
  }

  lemma SameReply(hash: Hash, front: seq<Op>, ops: seq<Op>, k: nat)
    requires k < |front| <= |ops| && ops[..|front|] == front
    ensures ReplyAt(hash, front, k) == ReplyAt(hash, ops, k)
  {
    assert front[..k] == ops[..k];
    assert front[k] == ops[k];
  }

  /** Validation alone decides acceptance, whatever came before: a rejected proposal becomes
      accepted, and an accepted or adopted one rejected, exactly as the next validator says. */
  lemma RevalidationDecides(hash: Hash, ops: seq<Op>, id: ProposalId, validator: Validator)
    requires id in Run(hash, ops)
    ensures var row := Run(hash, ops)[id];
            var after := Run(hash, ops + [Validate(id, validator)]);
            && id in after && after[id] == row.(accepted := after[id].accepted, validationError := after[id].validationError)
            && (after[id].accepted <==> validator(row.text).None?)
            && after[id].validationError == validator(row.text)
  {
    assert (ops + [Validate(id, validator)])[..|ops|] == ops;
  }

  /** Rejection is never final: in every run, a proposal rejected by one validator is accepted
      by the next that agrees with its text, without a new row, and may then be adopted. The
      documentation of `validate_and_record` promises the opposite. */
  lemma RejectionIsNotFinal(hash: Hash, ops: seq<Op>, id: ProposalId, rejects: Validator, accepts: Validator)
    requires id in Run(hash, ops)
    requires rejects(Run(hash, ops)[id].text).Some? && accepts(Run(hash, ops)[id].text).None?
    ensures var rejected := ops + [Validate(id, rejects)];
            var flipped := rejected + [Validate(id, accepts)];
            && id in Run(hash, rejected) && !Run(hash, rejected)[id].accepted
            && id in Run(hash, flipped) && Run(hash, flipped)[id].accepted
  {
    hide Run;
    RevalidationDecides(hash, ops, id, rejects);
    RevalidationDecides(hash, ops + [Validate(id, rejects)], id, accepts);
  }

  /** An adopted proposal can still be rejected afterwards; it stays adopted. */
  lemma AdoptedCanBeRejected(hash: Hash, ops: seq<Op>, id: ProposalId, rejects: Validator)
    requires id in Run(hash, ops) && Run(hash, ops)[id].adoptedAt.Some? && rejects(Run(hash, ops)[id].text).Some?
    ensures var after := Run(hash, ops + [Validate(id, rejects)]);
            id in after && !after[id].accepted && after[id].adoptedAt == Run(hash, ops)[id].adoptedAt
  {
    hide Run;
    RevalidationDecides(hash, ops, id, rejects);
  }

  /** Such runs exist, for any text and any hash that is lowercase without surrounding space, as
      a hex digest is: submit, accept, adopt. */
  lemma ProposalsGetAdopted(hash: Hash, text: string)
    requires Lower(Trim(hash(text))) == hash(text)
    ensures var ops := [Submit(1, "agent", Envelope("pattern_promote", "", hash(text)), text, 0),
                        Validate(1, (_: string) => None), Adopt(1, "node", 7)];
            1 in Run(hash, ops) && Run(hash, ops)[1].adoptedNode == Some("node")
  {
    hide Run;
    var envelope := Envelope("pattern_promote", "", hash(text));
    assert ProposedHashMatches(hash, envelope, text);
    var submit, accept, adopt := Submit(1, "agent", envelope, text, 0), Validate(1, (_: string) => None), Adopt(1, "node", 7);
    RunNothing(hash);
    RunSnoc(hash, [], submit);
    RunSnoc(hash, [submit], accept);
    RunSnoc(hash, [submit, accept], adopt);
    assert [] + [submit] == [submit] && [submit] + [accept] == [submit, accept];
    assert [submit, accept] + [adopt] == [submit, accept, adopt];
  }

  lemma RunNothing(hash: Hash)
    ensures Run(hash, []) == map[]
  {
  }

  lemma RunSnoc(hash: Hash, ops: seq<Op>, op: Op)
    ensures Run(hash, ops + [op]) == Apply(hash, Run(hash, ops), op).rows
  {
    assert (ops + [op])[..|ops|] == ops;
  }
}
