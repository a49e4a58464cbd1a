/** The approval store: pending requests, and the decisions kept once for display
    and once for the runtime. */
module Approvals {
  import opened Sequences

  datatype CapabilityRef = CapabilityRef(kind: string, identifier: string)

  datatype Request = Request(schemaVersion: string, id: string, traceId: string, turnId: string, capability: CapabilityRef)

  datatype Verdict = Approved | Denied

  datatype Choice = Approve | Deny | Cancel

  /** The decision the runtime reads. */
  datatype Decision = Decision(
    schemaVersion: string,
    decisionId: string,
    requestId: string,
    capability: CapabilityRef,
    verdict: Verdict)

  /** The decision the control plane lists. */
  datatype Response = Response(
    schemaVersion: string,
    requestId: string,
    decisionId: string,
    capability: CapabilityRef,
    verdict: Verdict,
    reason: string)

  datatype Store = Store(pending: map<string, Request>, decisions: map<string, Response>, runtime: map<string, Decision>)

  datatype Answer = NotPending | Decided(response: Response) | BadReason

  datatype Action = Add(request: Request) | Decide(id: string, choice: Choice, reason: string)

  function VerdictOf(choice: Choice): Verdict {
    if choice == Approve then Approved else Denied
  }

  function OutcomeText(choice: Choice): string {
    match choice case Approve => "approved" case Deny => "denied" case Cancel => "cancelled"
  }

  predicate ReasonAccepted(reason: string) {
    1 <= |reason| <= 300
  }

  function MakeDecision(request: Request, id: string, choice: Choice): Decision {
    Decision(request.schemaVersion, id + ":" + OutcomeText(choice), id, request.capability, VerdictOf(choice))
  }

  function MakeResponse(request: Request, decision: Decision, reason: string): Response {
    Response(request.schemaVersion, request.id, decision.decisionId, request.capability, decision.verdict, reason)
  }

  /** The request is taken off the pending table first; a reason the response
      model rejects then leaves no decision behind. */
  function DecideStep(s: Store, id: string, choice: Choice, reason: string): (Store, Answer) {
    if id !in s.pending then (s, NotPending)
    else
      var request := s.pending[id];
      var taken := s.(pending := s.pending - {id});
      if !ReasonAccepted(reason) then (taken, BadReason)
      else
        var decision := MakeDecision(request, id, choice);
        var response := MakeResponse(request, decision, reason);
        (taken.(decisions := s.decisions[id := response], runtime := s.runtime[id := decision]), Decided(response))
  }

  function Step(s: Store, a: Action): Store {
    match a
    case Add(request) => s.(pending := s.pending[request.id := request])
    case Decide(id, choice, reason) => DecideStep(s, id, choice, reason).0
  }

  /** A new store, holding the given requests by id (a later one wins). */
  function Opened(requests: seq<Request>): Store {
    if requests == [] then Store(map[], map[], map[])
    else Step(Opened(requests[..|requests| - 1]), Add(requests[|requests| - 1]))
  }

  function Run(s: Store, run: seq<Action>): Store {
    if run == [] then s else Step(Run(s, run[..|run| - 1]), run[|run| - 1])
  }

  function WithVerdict(s: Store, verdict: Verdict): set<string> {
    set id | id in s.decisions && s.decisions[id].verdict == verdict
  }

  function CountWith(s: Store, verdict: Verdict): nat {
    |WithVerdict(s, verdict)|
  }

  class InMemoryApprovalStore {
    var pending: map<string, Request>
    var decisions: map<string, Response>
    var runtime: map<string, Decision>

    function View(): Store
      reads this
    {
      Store(pending, decisions, runtime)
    }

    constructor (requests: seq<Request>)
      ensures View() == Opened(requests)
    {
      var table := map[];
      for i := 0 to |requests|
        invariant Opened(requests[..i]) == Store(table, map[], map[])
      {
        assert requests[..i + 1][..i] == requests[..i];
        table := table[requests[i].id := requests[i]];
      }
      assert requests[..|requests|] == requests;
      pending, decisions, runtime := table, map[], map[];
    }

    method AddPending(request: Request)
      modifies this`pending
      ensures View() == Step(old(View()), Add(request))
    {
      pending := pending[request.id := request];
    }

    function ReadDecision(id: string): (d: Option<Decision>)
      reads this
      ensures d.Some? <==> id in runtime
    {
      if id in runtime then Some(runtime[id]) else None
    }

    function ApprovedCount(): nat
      reads this
    {
      CountWith(View(), Approved)
    }

    /** The two counts cover the decisions. */
    function DeniedCount(): (n: nat)
      reads this
      ensures ApprovedCount() + n == |decisions|
    {
      VerdictsPartition(View());
      CountWith(View(), Denied)
    }

    /** `approve`, `deny` and `cancel`. */
    method DecideRequest(id: string, choice: Choice, reason: string) returns (answer: Answer)
      modifies this
      ensures (View(), answer) == DecideStep(old(View()), id, choice, reason)
    {
      if id !in pending {
        return NotPending;
      }
      var request := pending[id];
      pending := pending - {id};
      var decision := MakeDecision(request, id, choice);
      if !ReasonAccepted(reason) {
        return BadReason;
      }
      var response := MakeResponse(request, decision, reason);
      decisions := decisions[id := response];
      runtime := runtime[id := decision];
      return Decided(response);
    }
  }

  // ---------- the two tables agree ----------

  predicate Consistent(s: Store) {
    && s.decisions.Keys == s.runtime.Keys
    && (forall id :: id in s.pending ==> s.pending[id].id == id)
    && (forall id :: id in s.decisions ==>
          var shown, used := s.decisions[id], s.runtime[id];
          && shown.requestId == used.requestId == id
          && shown.decisionId == used.decisionId
          && shown.capability == used.capability
          && shown.verdict == used.verdict)
  }

  lemma {:induction false} StepKeepsConsistent(s: Store, a: Action)
    requires Consistent(s)
    ensures Consistent(Step(s, a))
  {
    hide OutcomeText;
  }

  lemma {:induction false} OpenedIsConsistent(requests: seq<Request>)
    ensures Consistent(Opened(requests))
  {
    if requests != [] {
      OpenedIsConsistent(requests[..|requests| - 1]);
      StepKeepsConsistent(Opened(requests[..|requests| - 1]), Add(requests[|requests| - 1]));
    }
  }

  /** Over every run the shown and the used decisions have the same keys and agree,
      and every decision is either an approval or a denial. */
  lemma {:induction false} RunKeepsTablesEqual(requests: seq<Request>, run: seq<Action>)
    ensures var s := Run(Opened(requests), run);
            && Consistent(s)
            && CountWith(s, Approved) + CountWith(s, Denied) == |s.decisions|
  {
    if run == [] {
      OpenedIsConsistent(requests);
    } else {
      RunKeepsTablesEqual(requests, run[..|run| - 1]);
      StepKeepsConsistent(Run(Opened(requests), run[..|run| - 1]), run[|run| - 1]);
    }
    VerdictsPartition(Run(Opened(requests), run));
  }

  lemma VerdictsPartition(s: Store)
    ensures CountWith(s, Approved) + CountWith(s, Denied) == |s.decisions|
  {
    var approved, denied := WithVerdict(s, Approved), WithVerdict(s, Denied);
    assert approved * denied == {};
    assert approved + denied == s.decisions.Keys;
  }

  /** A recorded decision is about the request that was pending, carries the reason
      given, approves exactly when that was the choice, and its id tells all three
      choices apart although cancelling and denying share a verdict. */
  lemma DecisionRecordsChoice(s: Store, id: string, choice: Choice, other: Choice, reason: string)
    requires Consistent(s) && id in s.pending && ReasonAccepted(reason)
    ensures var (after, answer) := DecideStep(s, id, choice, reason);
            && answer.Decided?
            && after.decisions[id] == answer.response
            && answer.response.requestId == id
            && answer.response.reason == reason
            && answer.response.capability == s.pending[id].capability
            && (after.runtime[id].verdict == Approved <==> choice == Approve)
            && (DecideStep(s, id, other, reason).0.runtime[id].decisionId == answer.response.decisionId <==> other == choice)
  {
    var a, b := OutcomeText(choice), OutcomeText(other);
    assert a == b <==> choice == other by {
      assert |"approved"| == 8 && |"denied"| == 6 && |"cancelled"| == 9;
    }
    assert (id + ":" + a)[|id| + 1..] == a && (id + ":" + b)[|id| + 1..] == b;
  }

  // ---------- the tables follow the history ----------

  /** The request added last under this id, unless a decision was asked for since. */
  function Waiting(requests: seq<Request>, run: seq<Action>, id: string): Option<Request> {
    if run != [] then
      match run[|run| - 1]
      case Add(request) => if request.id == id then Some(request) else Waiting(requests, run[..|run| - 1], id)
      case Decide(asked, _, _) => if asked == id then None else Waiting(requests, run[..|run| - 1], id)
    else if requests != [] then
      if requests[|requests| - 1].id == id then Some(requests[|requests| - 1])
      else Waiting(requests[..|requests| - 1], [], id)
    else None
  }

  /** The last step that decided this id: it met a waiting request, with a reason of
      1 to 300 characters. */
  function DecidedAt(requests: seq<Request>, run: seq<Action>, id: string): (k: Option<nat>)
    ensures k.Some? ==> k.value < |run| && run[k.value].Decide? && Waiting(requests, run[..k.value], id).Some?
  {
    if run == [] then None
    else
      var n := |run| - 1;
      if && run[n].Decide? && run[n].id == id
         && 1 <= |run[n].reason| <= 300
         && Waiting(requests, run[..n], id).Some?
      then Some(n)
      else
        var k := DecidedAt(requests, run[..n], id);
        assert k.Some? ==> run[..n][..k.value] == run[..k.value];
        k
  }

  /** What a request is answered with. */
  predicate Answers(response: Response, decision: Decision, request: Request, choice: Choice, reason: string) {
    && response.requestId == decision.requestId == request.id
    && response.schemaVersion == decision.schemaVersion == request.schemaVersion
    && response.capability == decision.capability == request.capability
    && response.verdict == decision.verdict == (if choice == Approve then Approved else Denied)
    && response.decisionId == decision.decisionId
       == request.id + ":" + (match choice case Approve => "approved" case Deny => "denied" case Cancel => "cancelled")
    && response.reason == reason
  }

  lemma {:induction false} OpenedIsWaiting(requests: seq<Request>, id: string)
    ensures var s := Opened(requests);
            && (id in s.pending <==> Waiting(requests, [], id).Some?)
            && (id in s.pending ==> s.pending[id] == Waiting(requests, [], id).value)
            && s.decisions == map[] && s.runtime == map[]
  {
    if requests != [] {
      OpenedIsWaiting(requests[..|requests| - 1], id);
    }
  }

  /** Pending is what was added and not asked about since. */
  lemma {:induction false} PendingIsWaiting(requests: seq<Request>, run: seq<Action>, id: string)
    ensures var s := Run(Opened(requests), run);
            && (id in s.pending <==> Waiting(requests, run, id).Some?)
            && (id in s.pending ==> s.pending[id] == Waiting(requests, run, id).value && s.pending[id].id == id)
  {
    hide OutcomeText;
    if run == [] {
      OpenedIsWaiting(requests, id);
      OpenedIsConsistent(requests);
    } else {
      PendingIsWaiting(requests, run[..|run| - 1], id);
    }
  }

  /** Decided is what some step decided, as the last such step did: adding the id
      again does not change it, and deciding again replaces it. */
  lemma {:induction false} DecisionIsLastOne(requests: seq<Request>, run: seq<Action>, id: string)
    ensures var s, k := Run(Opened(requests), run), DecidedAt(requests, run, id);
            && (id in s.decisions <==> k.Some?)
            && (id in s.runtime <==> k.Some?)
            && (k.Some? ==> Answers(s.decisions[id], s.runtime[id], Waiting(requests, run[..k.value], id).value,
                                    run[k.value].choice, run[k.value].reason))
  {
    hide Answers, Waiting, Opened, Step;
    if run == [] {
      OpenedIsWaiting(requests, id);
    } else {
      var n := |run| - 1;
      DecisionIsLastOne(requests, run[..n], id);
      PendingIsWaiting(requests, run[..n], id);
      DecisionStep(Run(Opened(requests), run[..n]), run[n], id);
      var k := DecidedAt(requests, run[..n], id);
      assert k.Some? ==> run[..n][..k.value] == run[..k.value];
    }
  }

  lemma DecisionStep(s: Store, a: Action, id: string)
    requires id in s.pending ==> s.pending[id].id == id
    ensures var after := Step(s, a);
            if a.Decide? && a.id == id && id in s.pending && 1 <= |a.reason| <= 300
            then id in after.decisions && id in after.runtime
                 && Answers(after.decisions[id], after.runtime[id], s.pending[id], a.choice, a.reason)
            else (id in after.decisions <==> id in s.decisions) && (id in after.runtime <==> id in s.runtime)
                 && (id in s.decisions ==> after.decisions[id] == s.decisions[id])
                 && (id in s.runtime ==> after.runtime[id] == s.runtime[id])
  {
  }

  // ---------- a decision stands until its id is added again ----------

  predicate Adds(a: Action, id: string) {
    a.Add? && a.request.id == id
  }

  /** Deciding again without a new request of that id changes nothing, whatever
      happens to other ids in between. */
  lemma {:induction false} DecisionStands(s: Store, run: seq<Action>, id: string)
    requires id !in s.pending
    requires forall i :: 0 <= i < |run| ==> !Adds(run[i], id)
    ensures var after := Run(s, run);
            && id !in after.pending
            && (id in after.runtime <==> id in s.runtime)
            && (id in s.runtime ==> after.runtime[id] == s.runtime[id])
            && (id in after.decisions <==> id in s.decisions)
            && (id in s.decisions ==> after.decisions[id] == s.decisions[id])
    ensures forall choice, reason :: DecideStep(Run(s, run), id, choice, reason) == (Run(s, run), NotPending)
  {
    if run != [] {
      DecisionStands(s, run[..|run| - 1], id);
      assert !Adds(run[|run| - 1], id);
    }
  }

  // ---------- pending and decided partition what was added ----------

  function AddedIds(requests: seq<Request>, run: seq<Action>): seq<string> {
    if run != [] then
      AddedIds(requests, run[..|run| - 1]) + if run[|run| - 1].Add? then [run[|run| - 1].request.id] else []
    else if requests != [] then
      AddedIds(requests[..|requests| - 1], []) + [requests[|requests| - 1].id]
    else []
  }

  ghost predicate Partitioned(s: Store, ids: seq<string>) {
    && (forall id :: id in s.pending ==> id !in s.decisions)
    && (forall id :: id in ids <==> id in s.pending || id in s.decisions)
  }

  lemma {:induction false} OpenedIsPartitioned(requests: seq<Request>)
    ensures Partitioned(Opened(requests), AddedIds(requests, []))
    ensures Opened(requests).decisions == map[]
  {
    if requests != [] {
      OpenedIsPartitioned(requests[..|requests| - 1]);
    }
  }

  /** When no id is added twice and every reason is accepted, pending and decided
      requests are disjoint and together exactly the ids added. */
  lemma {:induction false} PendingAndDecidedPartition(requests: seq<Request>, run: seq<Action>)
    requires NoDuplicates(AddedIds(requests, run))
    requires forall i :: 0 <= i < |run| && run[i].Decide? ==> ReasonAccepted(run[i].reason)
    ensures Partitioned(Run(Opened(requests), run), AddedIds(requests, run))
  {
    if run == [] {
      OpenedIsPartitioned(requests);
    } else {
      var init, a := run[..|run| - 1], run[|run| - 1];
      var before := AddedIds(requests, init);
      assert forall i :: 0 <= i < |before| ==> AddedIds(requests, run)[i] == before[i];
      PendingAndDecidedPartition(requests, init);
      if a.Add? {
        assert AddedIds(requests, run)[|before|] == a.request.id;
        assert a.request.id !in before;
      } else {
        assert ReasonAccepted(run[|run| - 1].reason);
        assert AddedIds(requests, run) == before;
      }
    }
  }

  function IdSet(ids: seq<string>): set<string> {
    set id | id in ids
  }

  lemma {:induction false} DistinctIdsCount(ids: seq<string>)
    requires NoDuplicates(ids)
    ensures |IdSet(ids)| == |ids|
  {
    if ids != [] {
      var init, last := ids[..|ids| - 1], ids[|ids| - 1];
      DistinctIdsCount(init);
      OneMoreId(init, last);
      assert ids == init + [last];
    }
  }

  lemma OneMoreId(ids: seq<string>, id: string)
    ensures IdSet(ids + [id]) == IdSet(ids) + {id}
    ensures id in IdSet(ids) <==> id in ids
  {
  }

  lemma PartitionedKeys(s: Store, ids: seq<string>)
    requires Partitioned(s, ids)
    ensures s.pending.Keys + s.decisions.Keys == IdSet(ids)
    ensures s.pending.Keys * s.decisions.Keys == {}
  {
  }

  lemma PartitionCounts(s: Store, ids: seq<string>)
    requires Partitioned(s, ids) && NoDuplicates(ids)
    ensures |s.pending| + |s.decisions| == |ids|
  {
    hide Partitioned, NoDuplicates, IdSet;
    DistinctIdsCount(ids);
    PartitionedKeys(s, ids);
    assert |s.pending.Keys| == |s.pending| && |s.decisions.Keys| == |s.decisions|;
  }

  /** ... so that the pending requests and the two counts the store shows add up to
      the number of requests ever added. */
  lemma CountsAddUp(requests: seq<Request>, run: seq<Action>)
    requires NoDuplicates(AddedIds(requests, run))
    requires forall i :: 0 <= i < |run| && run[i].Decide? ==> ReasonAccepted(run[i].reason)
    ensures var s := Run(Opened(requests), run);
            |s.pending| + CountWith(s, Approved) + CountWith(s, Denied) == |AddedIds(requests, run)|
  {
    hide Run, Opened, AddedIds, CountWith, Partitioned, NoDuplicates;
    PendingAndDecidedPartition(requests, run);
    PartitionCounts(Run(Opened(requests), run), AddedIds(requests, run));
    VerdictsPartition(Run(Opened(requests), run));
  }

  /** Without the reason guard a request can vanish: it leaves the pending table
      and no decision is recorded. */
  lemma RejectedReasonLosesRequest(s: Store, request: Request, choice: Choice, reason: string)
    requires request.id !in s.decisions
    ensures var after := Run(s, [Add(request), Decide(request.id, choice, reason)]);
            && request.id !in after.pending
            && (request.id in after.decisions <==> 1 <= |reason| <= 300)
  {
    var run := [Add(request), Decide(request.id, choice, reason)];
    assert run[..1] == [Add(request)] && run[..1][..0] == [];
    assert Run(s, []) == s;
    assert Run(s, run[..1]) == Step(s, Add(request));
  }
}
