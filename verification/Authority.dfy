/**
 * The runtime authority service as a transition system.
 *
 * A request runs in uninterrupted steps: up to the GitHub lookup, from its
 * answer to the decision, and from the decision to the response. Steps of
 * different requests interleave freely; a restart may come between any two.
 */
module Authority {
  import opened Basics
  import opened Receipts
  import ReplayLedger
  import opened Approval

  // ---------------------------------------------------------------- requests and grants

  datatype ApprovalClaim = ApprovalClaim(environment: string, approved: bool, approvedBy: string)

  datatype Request = Request(
    subject: string, action: string, resource: string, repo: string, branch: string, paths: seq<string>,
    commitSha: string, invokingActor: string, workflowRunId: string, grantRef: Option<string>,
    attestationRef: Option<string>, priorReceiptId: Option<string>, approval: Option<ApprovalClaim>)

  /** Operator-provisioned; dates are None when they do not parse. */
  datatype Grant = Grant(
    subject: string, repo: string, action: string, branch: string, expiresAt: Option<int>, trustScore: Score,
    verifiedAt: Option<int>, revoked: bool)

  /** What a process reads when it starts. */
  datatype Config = Config(grants: map<string, Grant>, replayConfigured: bool)

  /** The libraries, and the configuration of the first process. */
  datatype Setup = Setup(lib: Libraries, digest: string -> string, config: Config)

  const REAUTHORIZE := "merge request reauthorize"
  const EXECUTE := "pull_request.execute"

  predicate SafeRequest(r: Request)
  {
    && r.subject != ""
    && |r.commitSha| == 40 && (forall i :: 0 <= i < 40 ==> HexDigit(r.commitSha[i]))
    && r.workflowRunId != "" && (forall i :: 0 <= i < |r.workflowRunId| ==> '0' <= r.workflowRunId[i] <= '9')
    && 0 < |r.paths| < 3001 && (forall i :: 0 <= i < |r.paths| ==> 0 < |r.paths[i]| < 4096)
    && (r.approval.Some? ==> 0 < |r.approval.value.approvedBy| <= 128)
  }

  /** A grant that covers the request now; caller-supplied scores play no part. */
  ghost predicate GrantCovers(g: Grant, r: Request, now: int)
  {
    && !g.revoked && g.subject == r.subject && g.repo == r.repo
    && (g.branch != "" ==> g.branch == r.branch)
    && (g.action == r.action || (r.action == REAUTHORIZE && g.action == EXECUTE))
    && g.expiresAt.Some? && g.expiresAt.value > now
    && g.verifiedAt.Some? && g.verifiedAt.value <= now
    && 0 <= g.trustScore.num <= g.trustScore.den
  }

  function VerifiedGrant(grants: map<string, Grant>, r: Request, now: int): Option<Grant>
  {
    if r.grantRef.None? || r.grantRef.value == "" || r.grantRef.value !in grants then None
    else
      var g := grants[r.grantRef.value];
      if g.revoked || g.subject != r.subject || g.repo != r.repo then None
      else if g.branch != "" && g.branch != r.branch then None
      else if g.action != r.action && !(r.action == REAUTHORIZE && g.action == EXECUTE) then None
      else if g.expiresAt.None? || g.expiresAt.value <= now then None
      else if g.verifiedAt.None? || g.verifiedAt.value > now then None
      else if g.trustScore.num < 0 || g.trustScore.num > g.trustScore.den then None
      else Some(g)
  }

  predicate IsProtectedPath(path: string, pattern: string)
  {
    if |pattern| >= 3 && pattern[|pattern| - 3..] == "/**" then StartsWith(path, pattern[..|pattern| - 3])
    else path == pattern
  }

  predicate TouchesProtected(r: Request, policy: seq<string>)
  {
    exists i, j :: 0 <= i < |r.paths| && 0 <= j < |policy| && IsProtectedPath(r.paths[i], policy[j])
  }

  function RiskClass(r: Request, policy: seq<string>): Risk
  {
    if r.action in {"merge approval", "release tag request"} then Critical
    else if TouchesProtected(r, policy) then Critical
    else if r.action in {"workflow modification request", "policy modification request",
                         "receipt schema modification request", "trust model modification request"} then High
    else if r.action in {"pull_request.review", "workflow.dispatch", "merge request"} then Medium
    else Low
  }

  // ---------------------------------------------------------------- deciding

  /** What the first step of a request establishes and later steps rely on. */
  datatype Context = Context(begun: int, grant: Option<Grant>, attestationValid: bool, risk: Risk)

  function TrustScore(ctx: Context): Score
  {
    if ctx.grant.Some? then ctx.grant.value.trustScore else Ratio(0, 1)
  }

  function MakeContext(grants: map<string, Grant>, r: Request, policy: seq<string>, now: int): Context
  {
    var grant := VerifiedGrant(grants, r, now);
    // a missing grant counts as 9999 seconds old
    var verifiedAt := if grant.Some? && grant.value.verifiedAt.Some? then grant.value.verifiedAt.value else 0;
    var attested := grant.Some? && now - verifiedAt <= 900000;
    Context(now, grant, attested, RiskClass(r, policy))
  }

  /** A decision with its reason, or the need to ask GitHub. */
  datatype Verdict = Verdict(decision: Decision, reason: string) | AskGithub(prior: Receipt)

  predicate Reauthorizable(prior: Receipt)
  {
    prior.payload.decision in {StepUp, Escalate}
  }

  /** The prior receipt is for this pull request, commit, run, branch and file list, and ten minutes old at most. */
  predicate BoundTo(prior: Receipt, r: Request, now: int)
  {
    var p := prior.payload;
    && p.subject == r.subject && p.repo == r.repo && p.branch == r.branch && p.resource == r.resource
    && p.workflowRunId == r.workflowRunId && p.commitSha == r.commitSha && p.action == EXECUTE
    && p.paths == r.paths
    && p.timestamp.Some? && now - p.timestamp.value <= 600000 && p.timestamp.value <= now
  }

  predicate ClaimsApproval(r: Request)
  {
    && r.approval.Some? && r.approval.value.approved && r.approval.value.approvedBy != ""
    && r.approval.value.environment == ENVIRONMENT
  }

  /** The part of the decision before the GitHub lookup. */
  function FirstVerdict(r: Request, ctx: Context, records: map<string, Receipt>): Verdict
  {
    if r.subject == "" || r.action == "" || r.resource == "" || ctx.grant.None? then Verdict(Deny, "invalid_authority")
    else if r.action == REAUTHORIZE then
      if r.priorReceiptId.None? || r.priorReceiptId.value == "" then Verdict(Deny, "missing_prior_receipt")
      else if r.priorReceiptId.value !in records then Verdict(Deny, "prior_receipt_not_found")
      else
        var prior := records[r.priorReceiptId.value];
        if !Reauthorizable(prior) then Verdict(Deny, "prior_decision_not_reauthorizable")
        else if !BoundTo(prior, r, ctx.begun) then Verdict(Deny, "prior_receipt_binding_or_freshness_mismatch")
        else if !ClaimsApproval(r) then Verdict(Deny, "step_up_approval_missing")
        else AskGithub(prior)
    else if !ctx.attestationValid then Verdict(Escalate, "stale_attestation")
    else if ctx.risk == Critical then Verdict(StepUp, "protected_action_requires_human")
    else if !AtLeast(TrustScore(ctx), TRUST_THRESHOLD) then Verdict(Escalate, "trust_below_threshold")
    else Verdict(Permit, "policy_permit")
  }

  /** GitHub's answer: the review history and the pull request, or a reason why there is none. */
  datatype Lookup =
    | Unavailable(reason: string)
    | Snapshot(entries: Option<seq<HistoryEntry>>, author: string, sha: string, branch: string)

  function ProofOf(r: Request, lookup: Lookup): Proof
    requires ClaimsApproval(r)
  {
    match lookup
    case Unavailable(reason) => Proof(false, reason)
    case Snapshot(entries, author, sha, branch) =>
      AssessApprovalHistory(entries, Claim(r.commitSha, r.branch, r.invokingActor, r.approval.value.approvedBy),
                            author, sha, branch)
  }

  /** The part after the lookup: the spend records afterwards, and a verdict unless the spend threw. */
  function FinalVerdict(configured: bool, digest: string -> string, r: Request, ctx: Context, lookup: Lookup,
                        spent: set<string>, io: ReplayLedger.SpendIO): (set<string>, Option<Verdict>)
    requires ClaimsApproval(r) && r.priorReceiptId.Some?
  {
    var proof := ProofOf(r, lookup);
    if !proof.verified then (spent, Some(Verdict(Deny, proof.reason)))
    else if !ctx.attestationValid then (spent, Some(Verdict(Escalate, "stale_attestation_after_step_up")))
    else
      var (spent', result) := ReplayLedger.Spend(spent, configured, r.priorReceiptId.value, digest, io);
      match result
      case Threw => (spent', None)
      case SpendResult(true, _) => (spent', Some(Verdict(Permit, "step_up_approved_reauthorize_permit")))
      case SpendResult(false, reason) => (spent', Some(Verdict(Deny, reason)))
  }

  function MakePayload(r: Request, ctx: Context, decision: Decision, reason: string, receiptId: string,
                       now: int): Payload
  {
    Payload(receiptId, r.subject, r.action, r.resource, decision, TrustScore(ctx),
            if r.grantRef.Some? then r.grantRef.value else "", r.attestationRef, ctx.risk, r.repo, r.branch, r.paths,
            r.workflowRunId,
            r.commitSha, r.invokingActor, Some(now), reason, r.priorReceiptId,
            if r.approval.Some? then Some(r.approval.value.approvedBy) else None)
  }
}
