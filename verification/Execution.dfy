/** Capability execution requests together with the approval store: what any run
    has to contain before a high-impact capability can be executed. */
module Execution {
  import opened Sequences
  import opened Approvals

  datatype SideEffect =
    | NoEffect | ReadOnly | WriteLocal | Network
    | BrowserAction | DesktopAction | CredentialAction | PurchaseOrPayment | Destructive

  datatype Mode = ProposalOnly | DryRun | RequiresApproval | ApprovedExecute | DeniedMode

  datatype Permission = PermissionApproved | PermissionDenied | RequiresHumanApproval

  datatype PermissionDecision = PermissionDecision(capability: CapabilityRef, permission: Permission)

  datatype Proposal = Proposal(
    id: string,
    traceId: string,
    turnId: string,
    capability: CapabilityRef,
    sideEffect: SideEffect,
    mode: Mode)
  {
    predicate RequiresHuman() {
      HighImpact(sideEffect) || mode == RequiresApproval
    }
  }

  datatype ExecutionRequest = ExecutionRequest(
    id: string,
    traceId: string,
    turnId: string,
    proposal: Proposal,
    permission: PermissionDecision,
    approval: Option<Decision>,
    mode: Mode)

  datatype Validation =
    Accepted | PermissionMissing | PermissionMismatch | ApprovalMissing | ApprovalMismatch | WrongMode

  predicate HighImpact(e: SideEffect) {
    e in {BrowserAction, DesktopAction, CredentialAction, PurchaseOrPayment, Destructive}
  }

  /** The model validator, in its order of checks. */
  function Validate(r: ExecutionRequest): Validation {
    if r.permission.permission != PermissionApproved then PermissionMissing
    else if r.permission.capability != r.proposal.capability then PermissionMismatch
    else if r.proposal.RequiresHuman() && (r.approval.None? || r.approval.value.verdict != Approved) then ApprovalMissing
    else if r.proposal.RequiresHuman() && r.approval.value.capability != r.proposal.capability then ApprovalMismatch
    else if r.mode != ApprovedExecute then WrongMode
    else Accepted
  }

  /** A caller acts on the store, or builds a request from the decision it reads
      under some approval id. */
  datatype Action =
    | OnStore(action: Approvals.Action)
    | Construct(draft: ExecutionRequest, approvalId: Option<string>)

  datatype State = State(store: Approvals.Store, executed: seq<ExecutionRequest>)

  function ReadDecision(s: Approvals.Store, id: Option<string>): Option<Decision> {
    if id.Some? && id.value in s.runtime then Some(s.runtime[id.value]) else None
  }

  function Build(s: Approvals.Store, draft: ExecutionRequest, approvalId: Option<string>): ExecutionRequest {
    draft.(approval := ReadDecision(s, approvalId))
  }

  function Step(s: State, a: Action): State {
    match a
    case OnStore(action) => s.(store := Approvals.Step(s.store, action))
    case Construct(draft, approvalId) =>
      var r := Build(s.store, draft, approvalId);
      if Validate(r) == Accepted then s.(executed := s.executed + [r]) else s
  }

  function Run(requests: seq<Request>, run: seq<Action>): State {
    if run == [] then State(Opened(requests), []) else Step(Run(requests, run[..|run| - 1]), run[|run| - 1])
  }

  /** Step `k` approved a request for this capability that was pending then. */
  predicate ApprovedAt(requests: seq<Request>, run: seq<Action>, k: nat, capability: CapabilityRef) {
    && k < |run|
    && run[k].OnStore? && run[k].action.Decide?
    && run[k].action.choice == Approve
    && ReasonAccepted(run[k].action.reason)
    && var pending := Run(requests, run[..k]).store.pending;
       run[k].action.id in pending && pending[run[k].action.id].capability == capability
  }

  ghost predicate Justified(requests: seq<Request>, run: seq<Action>, d: Decision) {
    d.verdict == Approved ==> exists k :: ApprovedAt(requests, run, k, d.capability)
  }

  lemma ApprovedAtLater(requests: seq<Request>, run: seq<Action>, a: Action, k: nat, capability: CapabilityRef)
    requires ApprovedAt(requests, run, k, capability)
    ensures ApprovedAt(requests, run + [a], k, capability)
  {
    assert (run + [a])[..k] == run[..k];
  }

  lemma JustifiedLater(requests: seq<Request>, run: seq<Action>, a: Action, d: Decision)
    requires Justified(requests, run, d)
    ensures Justified(requests, run + [a], d)
  {
    if d.verdict == Approved {
      var k :| ApprovedAt(requests, run, k, d.capability);
      ApprovedAtLater(requests, run, a, k, d.capability);
    }
  }

  /** Every approval the store holds was given by an approve step on a request that
      was pending for that capability. */
  lemma {:induction false} DecisionsAreJustified(requests: seq<Request>, run: seq<Action>, id: string)
    requires id in Run(requests, run).store.runtime
    ensures Justified(requests, run, Run(requests, run).store.runtime[id])
  {
    hide OutcomeText;
    if run == [] {
      OpenedHasNoDecisions(requests);
    } else {
      var init, a := run[..|run| - 1], run[|run| - 1];
      assert run == init + [a];
      var before := Run(requests, init).store;
      if a.OnStore? && a.action.Decide? && a.action.id == id && id in before.pending && ReasonAccepted(a.action.reason) {
        if a.action.choice == Approve {
          assert ApprovedAt(requests, run, |init|, before.pending[id].capability);
        }
      } else {
        DecisionsAreJustified(requests, init, id);
        JustifiedLater(requests, init, a, before.runtime[id]);
      }
    }
  }

  lemma {:induction false} OpenedHasNoDecisions(requests: seq<Request>)
    ensures Opened(requests).runtime == map[]
  {
    if requests != [] {
      OpenedHasNoDecisions(requests[..|requests| - 1]);
    }
  }

  /** Step `j` built this request, and the validator accepted it. */
  predicate ExecutedAt(requests: seq<Request>, run: seq<Action>, j: nat, r: ExecutionRequest) {
    && j < |run|
    && run[j].Construct?
    && r == Build(Run(requests, run[..j]).store, run[j].draft, run[j].approvalId)
    && Validate(r) == Accepted
  }

  /** What stands behind a request executed at step `j`: an approved permission and,
      if its proposal needs a human, an approval given before that step. */
  ghost predicate Authorized(requests: seq<Request>, run: seq<Action>, j: nat, r: ExecutionRequest) {
    && r.permission.permission == PermissionApproved
    && r.permission.capability == r.proposal.capability
    && r.mode == ApprovedExecute
    && (r.proposal.RequiresHuman() ==> exists k: nat :: k < j && ApprovedAt(requests, run, k, r.proposal.capability))
  }

  lemma AcceptedConstructionIsAuthorized(requests: seq<Request>, run: seq<Action>, j: nat, r: ExecutionRequest)
    requires ExecutedAt(requests, run, j, r)
    ensures Authorized(requests, run, j, r)
  {
    hide Run;
    if r.proposal.RequiresHuman() {
      DecisionsAreJustified(requests, run[..j], run[j].approvalId.value);
      var k: nat :| ApprovedAt(requests, run[..j], k, r.proposal.capability);
      assert run[..j][..k] == run[..k];
      assert ApprovedAt(requests, run, k, r.proposal.capability);
    }
  }

  lemma ExecutedAtLater(requests: seq<Request>, run: seq<Action>, a: Action, j: nat, r: ExecutionRequest)
    requires ExecutedAt(requests, run, j, r)
    ensures ExecutedAt(requests, run + [a], j, r)
  {
    assert (run + [a])[..j] == run[..j];
  }

  lemma {:induction false} ExecutedWereBuilt(requests: seq<Request>, run: seq<Action>, i: nat)
    requires i < |Run(requests, run).executed|
    ensures exists j: nat :: ExecutedAt(requests, run, j, Run(requests, run).executed[i])
  {
    hide Validate, ReadDecision;
    var init, a := run[..|run| - 1], run[|run| - 1];
    assert run == init + [a];
    var before := Run(requests, init);
    if i < |before.executed| {
      ExecutedWereBuilt(requests, init, i);
      var j: nat :| ExecutedAt(requests, init, j, before.executed[i]);
      ExecutedAtLater(requests, init, a, j, before.executed[i]);
      assert ExecutedAt(requests, run, j, Run(requests, run).executed[i]);
    } else {
      assert run[..|init|] == init;
      assert ExecutedAt(requests, run, |init|, Run(requests, run).executed[i]);
    }
  }

  /** Safety over every run: each executed request was built at some step, with an
      approved permission for its capability, and if its proposal needs a human, a
      step before that one approved a pending request for that same capability. */
  lemma ExecutedRequestsAreAuthorized(requests: seq<Request>, run: seq<Action>, i: nat)
    requires i < |Run(requests, run).executed|
    ensures var r := Run(requests, run).executed[i];
            exists j: nat :: ExecutedAt(requests, run, j, r) && Authorized(requests, run, j, r)
  {
    hide Run, ExecutedAt, Authorized;
    ExecutedWereBuilt(requests, run, i);
    var r := Run(requests, run).executed[i];
    var j: nat :| ExecutedAt(requests, run, j, r);
    AcceptedConstructionIsAuthorized(requests, run, j, r);
  }

  /** A draft that needs nothing but an approval of its capability. */
  predicate ReadyFor(draft: ExecutionRequest, capability: CapabilityRef) {
    && draft.permission.permission == PermissionApproved
    && draft.permission.capability == draft.proposal.capability == capability
    && draft.mode == ApprovedExecute
  }

  function ConstructAll(drafts: seq<ExecutionRequest>, approvalId: string): seq<Action> {
    seq(|drafts|, i requires 0 <= i < |drafts| => Construct(drafts[i], Some(approvalId)))
  }

  function BuildAll(s: Approvals.Store, drafts: seq<ExecutionRequest>, approvalId: string): seq<ExecutionRequest> {
    seq(|drafts|, i requires 0 <= i < |drafts| => Build(s, drafts[i], Some(approvalId)))
  }

  /** The side effects and proposal modes that need no human. */
  predicate LowImpact(p: Proposal) {
    && (p.sideEffect == NoEffect || p.sideEffect == ReadOnly || p.sideEffect == WriteLocal || p.sideEffect == Network)
    && p.mode != RequiresApproval
  }

  /** What the validator answers: the error of the first of these facts that fails. */
  lemma ValidationIsFirstFailure(r: ExecutionRequest)
    ensures var approved := r.approval.Some? && r.approval.value.verdict == Approved;
            var matching := r.approval.Some? && r.approval.value.capability == r.proposal.capability;
            Validate(r) == [PermissionMissing, PermissionMismatch, ApprovalMissing, ApprovalMismatch, WrongMode, Accepted]
                             [FirstFalse([r.permission.permission == PermissionApproved,
                                          r.permission.capability == r.proposal.capability,
                                          LowImpact(r.proposal) || approved,
                                          LowImpact(r.proposal) || matching,
                                          r.mode == ApprovedExecute])]
  {
    hide FirstFalse;
    FirstFalseOfFive(r.permission.permission == PermissionApproved,
                     r.permission.capability == r.proposal.capability,
                     LowImpact(r.proposal) || (r.approval.Some? && r.approval.value.verdict == Approved),
                     LowImpact(r.proposal) || (r.approval.Some? && r.approval.value.capability == r.proposal.capability),
                     r.mode == ApprovedExecute);
  }

  /** Over every run, what was executed without an earlier approval of its capability
      has no high impact: at most local writes and network access. */
  lemma UnapprovedExecutionsAreLowImpact(requests: seq<Request>, run: seq<Action>, j: nat, r: ExecutionRequest)
    requires ExecutedAt(requests, run, j, r)
    requires forall k: nat :: k < j ==> !ApprovedAt(requests, run, k, r.proposal.capability)
    ensures r.proposal.sideEffect in {NoEffect, ReadOnly, WriteLocal, Network} && r.proposal.mode != RequiresApproval
  {
    hide Run, ApprovedAt, Validate;
    AcceptedConstructionIsAuthorized(requests, run, j, r);
    ImpactIsLowOrNeedsHuman(r.proposal);
  }

  lemma ImpactIsLowOrNeedsHuman(p: Proposal)
    ensures p.RequiresHuman() <==> !LowImpact(p)
  {
    match p.sideEffect
    case _ =>
  }

  /** ... and that much is executed without any approval, in every state. */
  lemma LowImpactNeedsNoApproval(s: Approvals.Store, draft: ExecutionRequest, approvalId: Option<string>)
    requires draft.proposal.sideEffect in {NoEffect, ReadOnly, WriteLocal, Network}
    requires draft.proposal.mode != RequiresApproval
    requires ReadyFor(draft, draft.proposal.capability)
    ensures Validate(Build(s, draft, approvalId)) == Accepted
  {
  }

  /** Acceptance looks at the capability only: an approval is neither consumed nor
      tied to a turn, so one held under an id lets every ready draft for its
      capability through, from any trace and turn, however many there are. */
  lemma {:induction false} ApprovalServesEveryTurn(requests: seq<Request>, run: seq<Action>, drafts: seq<ExecutionRequest>,
                                                   approvalId: string)
    requires approvalId in Run(requests, run).store.runtime
    requires var d := Run(requests, run).store.runtime[approvalId];
             d.verdict == Approved && forall i :: 0 <= i < |drafts| ==> ReadyFor(drafts[i], d.capability)
    ensures var before, after := Run(requests, run), Run(requests, run + ConstructAll(drafts, approvalId));
            && after.store == before.store
            && after.executed == before.executed + BuildAll(before.store, drafts, approvalId)
  {
    hide Run, Validate, Build, ReadyFor;
    var all, built := ConstructAll(drafts, approvalId), BuildAll(Run(requests, run).store, drafts, approvalId);
    if drafts == [] {
      assert run + all == run;
    } else {
      var n := |drafts| - 1;
      ApprovalServesEveryTurn(requests, run, drafts[..n], approvalId);
      var fewer := run + ConstructAll(drafts[..n], approvalId);
      assert run + all == fewer + [Construct(drafts[n], Some(approvalId))];
      OneMoreAction(requests, fewer, Construct(drafts[n], Some(approvalId)));
      assert built == BuildAll(Run(requests, run).store, drafts[..n], approvalId) + [built[n]];
      ReadyDraftIsAccepted(Run(requests, run).store, drafts[n], approvalId);
    }
  }

  lemma ReadyDraftIsAccepted(s: Approvals.Store, draft: ExecutionRequest, approvalId: string)
    requires approvalId in s.runtime && s.runtime[approvalId].verdict == Approved
    ensures ReadyFor(draft, s.runtime[approvalId].capability) ==> Validate(Build(s, draft, Some(approvalId))) == Accepted
    ensures draft.proposal.RequiresHuman() && Validate(Build(s, draft, Some(approvalId))) == Accepted ==>
              ReadyFor(draft, s.runtime[approvalId].capability)
  {
  }

  lemma OneMoreAction(requests: seq<Request>, run: seq<Action>, a: Action)
    ensures Run(requests, run + [a]) == Step(Run(requests, run), a)
  {
    assert (run + [a])[..|run|] == run;
  }

  lemma AcceptanceIgnoresTurn(r: ExecutionRequest, id: string, traceId: string, turnId: string, proposalId: string)
    ensures Validate(r.(id := id, traceId := traceId, turnId := turnId,
                        proposal := r.proposal.(id := proposalId, traceId := traceId, turnId := turnId))) == Validate(r)
  {
  }
}
