/** The agent loop guard: a driver that asks it before every step stops in time and
    never leaves the states the model validator accepts. */
module LoopGuard {
  import opened Sequences

  datatype StopReason =
    | NotStopped | Completed | MaxStepsReached | RepeatedFailures
    | WaitingForHumanApproval | PolicyDenied | ToolFailed | ProviderContinuationReady

  datatype LoopStep = LoopStep(traceId: string, turnId: string)

  datatype LoopState = LoopState(
    traceId: string,
    turnId: string,
    maxSteps: nat,
    steps: seq<LoopStep>,
    completedSteps: nat,
    repeatedFailures: nat,
    maxRepeatedFailures: nat,
    stopReason: StopReason)

  /** The field bounds and the model validator. */
  predicate Valid(s: LoopState) {
    && 1 <= s.maxSteps <= 50
    && 1 <= s.maxRepeatedFailures <= 20
    && |s.steps| <= s.maxSteps
    && s.completedSteps <= s.maxSteps
    && forall i :: 0 <= i < |s.steps| ==> s.steps[i] == LoopStep(s.traceId, s.turnId)
  }

  function GuardReason(s: LoopState): StopReason {
    if s.completedSteps >= s.maxSteps then MaxStepsReached
    else if s.repeatedFailures >= s.maxRepeatedFailures then RepeatedFailures
    else s.stopReason
  }

  /** A reached limit decides, steps before failures; else what was reported. */
  lemma LimitsComeFirst(s: LoopState)
    ensures GuardReason(s)
            == [MaxStepsReached, RepeatedFailures, s.stopReason]
                 [FirstFalse([s.completedSteps < s.maxSteps, s.repeatedFailures < s.maxRepeatedFailures])]
  {
    var facts := [s.completedSteps < s.maxSteps, s.repeatedFailures < s.maxRepeatedFailures];
    assert facts[0] == (s.completedSteps < s.maxSteps) && facts[1] == (s.repeatedFailures < s.maxRepeatedFailures);
  }

  predicate ShouldStop(s: LoopState) {
    GuardReason(s) != NotStopped
  }

  /** What a step reports: the failure count and stop reason it leaves behind. */
  datatype Report = Report(repeatedFailures: nat, stopReason: StopReason)

  function Advance(s: LoopState, report: Report): LoopState {
    s.(steps := s.steps + [LoopStep(s.traceId, s.turnId)],
       completedSteps := s.completedSteps + 1,
       repeatedFailures := report.repeatedFailures,
       stopReason := report.stopReason)
  }

  /** After the guard has let a valid state pass, appending a step is accepted by
      the validator exactly when it carries the loop's trace and turn and a step
      slot is left: the guard counts completed steps, the validator also counts
      recorded ones. */
  lemma AppendedStepIsValidIff(s: LoopState, step: LoopStep, report: Report)
    requires Valid(s) && !ShouldStop(s)
    ensures var after := s.(steps := s.steps + [step], completedSteps := s.completedSteps + 1,
                            repeatedFailures := report.repeatedFailures, stopReason := report.stopReason);
            Valid(after) <==> |s.steps| < s.maxSteps && step.traceId == s.traceId && step.turnId == s.turnId
  {
    assert (s.steps + [step])[|s.steps|] == step;
  }

  /** So the loop's own steps are accepted exactly when a slot is left. */
  lemma AdvanceIsValid(s: LoopState, report: Report)
    requires Valid(s) && !ShouldStop(s)
    ensures Valid(Advance(s, report)) <==> |s.steps| < s.maxSteps
  {
    AppendedStepIsValidIff(s, LoopStep(s.traceId, s.turnId), report);
  }

  /** No more recorded than completed steps: the condition under which the guard
      alone keeps every later state valid. */
  predicate Recorded(s: LoopState) {
    |s.steps| <= s.completedSteps
  }

  /** Runs the loop, asking the guard before each step; `reports` answers for the
      step about to be taken. */
  method Drive(start: LoopState, reports: nat -> Report) returns (end: LoopState, taken: nat)
    requires Valid(start) && Recorded(start)
    ensures Valid(end) && ShouldStop(end)
    ensures end == AfterSteps(start, reports, taken)
    ensures taken <= start.maxSteps - start.completedSteps
    ensures forall k: nat :: k < taken ==> !ShouldStop(AfterSteps(start, reports, k))
    ensures forall k: nat :: k <= taken ==> Valid(AfterSteps(start, reports, k))
  {
    end, taken := start, 0;
    while !ShouldStop(end)
      invariant Valid(end) && Recorded(end) && end.maxSteps == start.maxSteps
      invariant end == AfterSteps(start, reports, taken)
      invariant end.completedSteps == start.completedSteps + taken
      invariant forall k: nat :: k < taken ==> !ShouldStop(AfterSteps(start, reports, k))
      invariant forall k: nat :: k <= taken ==> Valid(AfterSteps(start, reports, k))
      decreases end.maxSteps - end.completedSteps
    {
      AdvanceIsValid(end, reports(taken));
      end := Advance(end, reports(taken));
      taken := taken + 1;
    }
  }

  function AfterSteps(start: LoopState, reports: nat -> Report, n: nat): LoopState {
    if n == 0 then start else Advance(AfterSteps(start, reports, n - 1), reports(n - 1))
  }

  /** Recording is needed: from any valid state that has more recorded than
      completed steps, reports that never stop the loop drive it past the guard
      into a state the validator rejects. */
  lemma UnrecordedStepsOverflow(s: LoopState, quiet: Report) returns (n: nat)
    requires Valid(s) && !Recorded(s)
    requires quiet.repeatedFailures < s.maxRepeatedFailures && quiet.stopReason == NotStopped
    requires !ShouldStop(s)
    ensures n < s.maxSteps - s.completedSteps
    ensures !ShouldStop(AfterSteps(s, _ => quiet, n)) && !Valid(AfterSteps(s, _ => quiet, n + 1))
  {
    n := s.maxSteps - |s.steps|;
    QuietSteps(s, quiet, n);
    QuietSteps(s, quiet, n + 1);
    var after := AfterSteps(s, _ => quiet, n + 1);
    assert |after.steps| == s.maxSteps + 1;
  }

  lemma {:induction false} QuietSteps(s: LoopState, quiet: Report, n: nat)
    ensures var after := AfterSteps(s, _ => quiet, n);
            && |after.steps| == |s.steps| + n
            && after.completedSteps == s.completedSteps + n
            && after.maxSteps == s.maxSteps && after.maxRepeatedFailures == s.maxRepeatedFailures
            && (n > 0 ==> after.repeatedFailures == quiet.repeatedFailures && after.stopReason == quiet.stopReason)
            && (n == 0 ==> after == s)
  {
    if n > 0 {
      QuietSteps(s, quiet, n - 1);
    }
  }

  function Fresh(traceId: string, turnId: string, maxSteps: nat, maxRepeatedFailures: nat): LoopState {
    LoopState(traceId, turnId, maxSteps, [], 0, 0, maxRepeatedFailures, NotStopped)
  }

  /** A new loop is valid for 1 to 50 steps and 1 to 20 failures, and while nothing is
      reported it takes all its steps, no more and no fewer. */
  lemma QuietLoopTakesAllSteps(start: LoopState, quiet: Report, n: nat)
    requires start == Fresh(start.traceId, start.turnId, start.maxSteps, start.maxRepeatedFailures)
    requires quiet == Report(0, NotStopped)
    ensures Valid(start) <==> 1 <= start.maxSteps <= 50 && 1 <= start.maxRepeatedFailures <= 20
    ensures start.maxRepeatedFailures > 0 ==>
              (GuardReason(AfterSteps(start, _ => quiet, n)) == if n < start.maxSteps then NotStopped else MaxStepsReached)
  {
    QuietSteps(start, quiet, n);
  }

  // ---------- the second guard ----------

  datatype CapabilityStop =
    | CapNotStopped | CapMaxStepsReached | CapPolicyDenied | CapHumanApprovalRequired | CapRepeatedFailures
    | CapDryRunComplete | CapProposalOnlyComplete | CapVerificationFailed | CapCompleted

  datatype CapabilityGuard = CapabilityGuard(
    maxSteps: nat,
    completedSteps: nat,
    maxRepeatedFailures: nat,
    repeatedFailures: nat,
    stopReason: CapabilityStop)

  /** The explicit reason first, then the limits. */
  function EffectiveReason(g: CapabilityGuard): CapabilityStop {
    if g.stopReason != CapNotStopped then g.stopReason
    else if g.completedSteps >= g.maxSteps then CapMaxStepsReached
    else if g.repeatedFailures >= g.maxRepeatedFailures then CapRepeatedFailures
    else CapNotStopped
  }

  /** Here an explicit reason decides over both limits. */
  lemma ExplicitReasonComesFirst(g: CapabilityGuard)
    ensures EffectiveReason(g)
            == [g.stopReason, CapMaxStepsReached, CapRepeatedFailures, CapNotStopped]
                 [FirstFalse([g.stopReason == CapNotStopped,
                              g.completedSteps < g.maxSteps,
                              g.repeatedFailures < g.maxRepeatedFailures])]
  {
    FirstFalseOfThree(g.stopReason == CapNotStopped, g.completedSteps < g.maxSteps,
                      g.repeatedFailures < g.maxRepeatedFailures);
  }

  predicate CapShouldStop(g: CapabilityGuard) {
    EffectiveReason(g) != CapNotStopped
  }

  /** The wire names the two enumerations share. */
  function Shared(r: CapabilityStop): Option<StopReason> {
    match r
    case CapNotStopped => Some(NotStopped)
    case CapMaxStepsReached => Some(MaxStepsReached)
    case CapPolicyDenied => Some(PolicyDenied)
    case CapRepeatedFailures => Some(RepeatedFailures)
    case CapCompleted => Some(Completed)
    case _ => None
  }

  predicate SameCounters(s: LoopState, g: CapabilityGuard) {
    && s.maxSteps == g.maxSteps && s.completedSteps == g.completedSteps
    && s.maxRepeatedFailures == g.maxRepeatedFailures && s.repeatedFailures == g.repeatedFailures
    && (s.stopReason == NotStopped <==> g.stopReason == CapNotStopped)
  }

  predicate LimitReached(s: LoopState) {
    s.completedSteps >= s.maxSteps || s.repeatedFailures >= s.maxRepeatedFailures
  }

  /** On the same counters the two guards always agree whether to stop; with one
      shared explicit reason they also name the same one, except where an explicit
      reason meets a limit of another name. */
  lemma GuardsAgreeToStop(s: LoopState, g: CapabilityGuard)
    requires SameCounters(s, g)
    ensures ShouldStop(s) <==> CapShouldStop(g)
    ensures Shared(g.stopReason) == Some(s.stopReason) ==>
              (Shared(EffectiveReason(g)) == Some(GuardReason(s))
               <==> !LimitReached(s) || s.stopReason == NotStopped || s.stopReason == GuardReason(s))
  {
  }
}
