/** Tool selection: the registry split into eligible and excluded tools, and a loop
    that retries with failed tools excluded. */
module ToolSelection {
  import opened Sequences

  datatype Tool = Tool(name: string, intentTags: seq<string>, available: bool, mcpServerId: Option<string>)

  datatype Request = Request(intent: string, confidence: real, mcpAllowlist: seq<string>, previousFailures: seq<string>)

  datatype Reason = Unavailable | PreviousFailure | McpNotAllowlisted | IntentMismatch | ConfidenceTooLow

  datatype Exclusion = Exclusion(name: string, reason: Reason)

  datatype Selection = Selection(eligible: seq<Tool>, excluded: seq<Exclusion>)

  function ExclusionReason(r: Request, t: Tool): Option<Reason> {
    if !t.available then Some(Unavailable)
    else if t.name in r.previousFailures then Some(PreviousFailure)
    else if t.mcpServerId.Some? && t.mcpServerId.value !in r.mcpAllowlist then Some(McpNotAllowlisted)
    else if r.intent !in t.intentTags then Some(IntentMismatch)
    else if r.confidence < 0.35 then Some(ConfidenceTooLow)
    else None
  }

  /** What a tool has to be for a request, in the order in which it is checked. */
  function Facts(r: Request, t: Tool): seq<bool> {
    [t.available,
     t.name !in r.previousFailures,
     t.mcpServerId.None? || t.mcpServerId.value in r.mcpAllowlist,
     r.intent in t.intentTags,
     r.confidence >= 0.35]
  }

  /** A tool is excluded for the first of these facts that fails, if one does. */
  lemma ReasonIsFirstFailure(r: Request, t: Tool)
    ensures ExclusionReason(r, t)
            == [Some(Unavailable), Some(PreviousFailure), Some(McpNotAllowlisted), Some(IntentMismatch),
                Some(ConfidenceTooLow), None][FirstFalse(Facts(r, t))]
  {
    hide FirstFalse;
    FirstFalseOfFive(t.available,
                     t.name !in r.previousFailures,
                     t.mcpServerId.None? || t.mcpServerId.value in r.mcpAllowlist,
                     r.intent in t.intentTags,
                     r.confidence >= 0.35);
  }

  /** Every one of the facts holds. */
  predicate Usable(r: Request, t: Tool) {
    forall k :: 0 <= k < 5 ==> Facts(r, t)[k]
  }

  /** The eligible tools are exactly the usable entries of the registry. */
  lemma {:induction false} EligibleIffUsable(r: Request, tools: seq<Tool>, t: Tool)
    ensures t in Eligible(r, tools) <==> t in tools && Usable(r, t)
  {
    hide ExclusionReason, Usable;
    if tools != [] {
      var init, last := tools[..|tools| - 1], tools[|tools| - 1];
      EligibleIffUsable(r, init, t);
      UsableHasNoReason(r, last);
      assert tools == init + [last];
    }
  }

  lemma UsableHasNoReason(r: Request, t: Tool)
    ensures Usable(r, t) <==> ExclusionReason(r, t).None?
  {
    hide ExclusionReason, FirstFalse;
    ReasonIsFirstFailure(r, t);
    var k := FirstFalse(Facts(r, t));
    assert k < 5 ==> !Facts(r, t)[k];
  }

  function Priority(reason: Reason): nat {
    match reason case PreviousFailure => 0 case McpNotAllowlisted => 1 case _ => 2
  }

  function Eligible(r: Request, tools: seq<Tool>): seq<Tool> {
    if tools == [] then []
    else Eligible(r, tools[..|tools| - 1]) +
         if ExclusionReason(r, tools[|tools| - 1]).None? then [tools[|tools| - 1]] else []
  }

  function Excluded(r: Request, tools: seq<Tool>): seq<Exclusion> {
    if tools == [] then []
    else
      var t := tools[|tools| - 1];
      var reason := ExclusionReason(r, t);
      Excluded(r, tools[..|tools| - 1]) + if reason.Some? then [Exclusion(t.name, reason.value)] else []
  }

  function OfPriority(items: seq<Exclusion>, p: nat): seq<Exclusion> {
    if items == [] then []
    else OfPriority(items[..|items| - 1], p) +
         if Priority(items[|items| - 1].reason) == p then [items[|items| - 1]] else []
  }

  predicate Ordered(items: seq<Exclusion>) {
    forall i, j :: 0 <= i < j < |items| ==> Priority(items[i].reason) <= Priority(items[j].reason)
  }

  predicate AtMost(items: seq<Exclusion>, bound: nat) {
    forall i :: 0 <= i < |items| ==> Priority(items[i].reason) <= bound
  }

  /** What a stable sort by priority means, whatever the algorithm: the result is in
      priority order and keeps, for each priority, exactly the original entries in
      their original order. */
  ghost predicate StablySorted(sorted: seq<Exclusion>, items: seq<Exclusion>) {
    && Ordered(sorted)
    && (forall p :: OfPriority(sorted, p) == OfPriority(items, p))
  }

  /** Inserts behind every entry of the same or a smaller priority. */
  function Insert(sorted: seq<Exclusion>, x: Exclusion): seq<Exclusion> {
    if sorted == [] || Priority(sorted[|sorted| - 1].reason) <= Priority(x.reason) then sorted + [x]
    else Insert(sorted[..|sorted| - 1], x) + [sorted[|sorted| - 1]]
  }

  function SortByPriority(items: seq<Exclusion>): seq<Exclusion> {
    if items == [] then [] else Insert(SortByPriority(items[..|items| - 1]), items[|items| - 1])
  }

  method SelectTools(r: Request, registry: seq<Tool>) returns (s: Selection)
    ensures s.eligible == Eligible(r, registry)
    ensures s.excluded == SortByPriority(Excluded(r, registry))
    ensures forall t :: t in s.eligible <==> t in registry && Usable(r, t)
  {
    var eligible, excluded := [], [];
    for i := 0 to |registry|
      invariant eligible == Eligible(r, registry[..i])
      invariant excluded == Excluded(r, registry[..i])
    {
      assert registry[..i + 1][..i] == registry[..i];
      var reason := ExclusionReason(r, registry[i]);
      if reason.None? {
        eligible := eligible + [registry[i]];
      } else {
        excluded := excluded + [Exclusion(registry[i].name, reason.value)];
      }
    }
    assert registry[..|registry|] == registry;
    forall t
      ensures t in eligible <==> t in registry && Usable(r, t)
    {
      EligibleIffUsable(r, registry, t);
    }
    return Selection(eligible, SortByPriority(excluded));
  }

  // ---------- the order of exclusions ----------

  lemma {:induction false} OfPriorityOfAppend(a: seq<Exclusion>, b: seq<Exclusion>, p: nat)
    ensures OfPriority(a + b, p) == OfPriority(a, p) + OfPriority(b, p)
  {
    if b == [] {
      assert a + b == a;
    } else {
      assert (a + b)[..|a + b| - 1] == a + b[..|b| - 1];
      OfPriorityOfAppend(a, b[..|b| - 1], p);
    }
  }

  lemma OfPriorityOfOne(x: Exclusion, p: nat)
    ensures OfPriority([x], p) == if Priority(x.reason) == p then [x] else []
  {
  }

  lemma {:induction false} OfPriorityIsEmpty(items: seq<Exclusion>, p: nat)
    requires forall i :: 0 <= i < |items| ==> Priority(items[i].reason) != p
    ensures OfPriority(items, p) == []
  {
    if items != [] {
      OfPriorityIsEmpty(items[..|items| - 1], p);
    }
  }

  lemma {:induction false} InsertKeepsOrder(sorted: seq<Exclusion>, x: Exclusion, bound: nat)
    requires Ordered(sorted) && AtMost(sorted, bound) && Priority(x.reason) <= bound
    ensures Ordered(Insert(sorted, x)) && AtMost(Insert(sorted, x), bound)
  {
    hide Priority;
    if sorted != [] && Priority(sorted[|sorted| - 1].reason) > Priority(x.reason) {
      InsertKeepsOrder(sorted[..|sorted| - 1], x, Priority(sorted[|sorted| - 1].reason));
    }
  }

  lemma {:induction false} InsertKeepsBuckets(sorted: seq<Exclusion>, x: Exclusion, p: nat)
    ensures OfPriority(Insert(sorted, x), p) == OfPriority(sorted, p) + OfPriority([x], p)
  {
    hide OfPriority;
    if sorted == [] || Priority(sorted[|sorted| - 1].reason) <= Priority(x.reason) {
      OfPriorityOfAppend(sorted, [x], p);
    } else {
      var init, last := sorted[..|sorted| - 1], sorted[|sorted| - 1];
      InsertKeepsBuckets(init, x, p);
      OfPriorityOfAppend(Insert(init, x), [last], p);
      OfPriorityOfAppend(init, [last], p);
      OfPriorityOfOne(last, p);
      OfPriorityOfOne(x, p);
      assert sorted == init + [last];
      var a, b, c := OfPriority(init, p), OfPriority([x], p), OfPriority([last], p);
      assert b == [] || c == [];
      assert Insert(sorted, x) == Insert(init, x) + [last];
      assert a + b + c == a + c + b;
    }
  }

  lemma {:induction false} SortIsStable(items: seq<Exclusion>)
    ensures StablySorted(SortByPriority(items), items)
  {
    if items != [] {
      var init, last := items[..|items| - 1], items[|items| - 1];
      SortIsStable(init);
      assert items == init + [last];
      InsertKeepsOrder(SortByPriority(init), last, 2);
      forall p: nat
        ensures OfPriority(SortByPriority(items), p) == OfPriority(items, p)
      {
        InsertKeepsBuckets(SortByPriority(init), last, p);
        OfPriorityOfAppend(init, [last], p);
      }
    }
  }

  /** Any stable sort yields the same list: failed tools first, then those behind a
      server that is not allowed, then the rest, each in registry order. */
  lemma {:induction false} StableSortIsBuckets(sorted: seq<Exclusion>, items: seq<Exclusion>)
    requires StablySorted(sorted, items)
    ensures sorted == OfPriority(items, 0) + OfPriority(items, 1) + OfPriority(items, 2)
  {
    SortedIsItsBuckets(sorted);
  }

  lemma {:induction false} SortedIsItsBuckets(sorted: seq<Exclusion>)
    requires Ordered(sorted)
    ensures sorted == OfPriority(sorted, 0) + OfPriority(sorted, 1) + OfPriority(sorted, 2)
  {
    if sorted != [] {
      hide OfPriority, Priority, Ordered;
      var init, last := sorted[..|sorted| - 1], sorted[|sorted| - 1];
      OrderedPrefix(sorted);
      SortedIsItsBuckets(init);
      LastJoinsItsBucket(sorted);
      assert sorted == init + [last];
      JoinBuckets(OfPriority(init, 0), OfPriority(init, 1), OfPriority(init, 2), last, Priority(last.reason));
    }
  }

  lemma JoinBuckets(a: seq<Exclusion>, b: seq<Exclusion>, c: seq<Exclusion>, x: Exclusion, p: nat)
    requires p <= 2 && (p < 1 ==> b == []) && (p < 2 ==> c == [])
    ensures a + b + c + [x]
            == (a + if p == 0 then [x] else []) + (b + if p == 1 then [x] else []) + (c + if p == 2 then [x] else [])
  {
  }

  /** Before an entry of an ordered list nothing of a later priority stands. */
  lemma OrderedPrefix(sorted: seq<Exclusion>)
    requires sorted != [] && Ordered(sorted)
    ensures var init, p := sorted[..|sorted| - 1], Priority(sorted[|sorted| - 1].reason);
            && Ordered(init)
            && p <= 2
            && (p < 1 ==> OfPriority(init, 1) == [])
            && (p < 2 ==> OfPriority(init, 2) == [])
  {
    var init := sorted[..|sorted| - 1];
    if Priority(sorted[|sorted| - 1].reason) < 1 {
      OfPriorityIsEmpty(init, 1);
    }
    if Priority(sorted[|sorted| - 1].reason) < 2 {
      OfPriorityIsEmpty(init, 2);
    }
  }

  lemma LastJoinsItsBucket(sorted: seq<Exclusion>)
    requires sorted != []
    ensures var init, last := sorted[..|sorted| - 1], sorted[|sorted| - 1];
            forall p :: OfPriority(sorted, p) == OfPriority(init, p) + if Priority(last.reason) == p then [last] else []
  {
  }

  function OfReasons(items: seq<Exclusion>, reasons: set<Reason>): seq<Exclusion> {
    if items == [] then []
    else OfReasons(items[..|items| - 1], reasons) +
         if items[|items| - 1].reason in reasons then [items[|items| - 1]] else []
  }

  lemma {:induction false} PrioritiesAreReasons(items: seq<Exclusion>)
    ensures OfPriority(items, 0) == OfReasons(items, {PreviousFailure})
    ensures OfPriority(items, 1) == OfReasons(items, {McpNotAllowlisted})
    ensures OfPriority(items, 2) == OfReasons(items, {Unavailable, IntentMismatch, ConfidenceTooLow})
  {
    if items != [] {
      PrioritiesAreReasons(items[..|items| - 1]);
    }
  }

  /** Excluded tools are listed in three groups, each in registry order: those that
      failed before, those of servers that are not allowed, and all others. */
  lemma SelectionOrdersExclusions(r: Request, registry: seq<Tool>)
    ensures var all := Excluded(r, registry);
            SortByPriority(all)
            == OfReasons(all, {PreviousFailure}) + OfReasons(all, {McpNotAllowlisted})
               + OfReasons(all, {Unavailable, IntentMismatch, ConfidenceTooLow})
  {
    hide OfPriority, OfReasons, SortByPriority, Excluded;
    SortIsStable(Excluded(r, registry));
    StableSortIsBuckets(SortByPriority(Excluded(r, registry)), Excluded(r, registry));
    PrioritiesAreReasons(Excluded(r, registry));
  }

  /** Nothing is lost or reordered: each registry entry stands in one of the two
      lists, right behind the entries of its side that came before it. */
  lemma {:induction false} SelectionSplitsRegistry(r: Request, tools: seq<Tool>, i: nat)
    requires i < |tools|
    ensures |Eligible(r, tools)| + |Excluded(r, tools)| == |tools|
    ensures var e, x, reason := |Eligible(r, tools[..i])|, |Excluded(r, tools[..i])|, ExclusionReason(r, tools[i]);
            && (reason.None? ==> e < |Eligible(r, tools)| && Eligible(r, tools)[e] == tools[i])
            && (reason.Some? ==>
                  x < |Excluded(r, tools)| && Excluded(r, tools)[x] == Exclusion(tools[i].name, reason.value))
  {
    var init := tools[..|tools| - 1];
    if i < |init| {
      SelectionSplitsRegistry(r, init, i);
      assert init[..i] == tools[..i];
    } else {
      SplitCounts(r, tools);
    }
  }

  lemma {:induction false} SplitCounts(r: Request, tools: seq<Tool>)
    ensures |Eligible(r, tools)| + |Excluded(r, tools)| == |tools|
  {
    if tools != [] {
      SplitCounts(r, tools[..|tools| - 1]);
    }
  }

  // ---------- retrying without the tools that failed ----------

  function Names(tools: seq<Tool>): seq<string> {
    if tools == [] then [] else Names(tools[..|tools| - 1]) + [tools[|tools| - 1].name]
  }

  function WithFailure(r: Request, name: string): Request {
    r.(previousFailures := r.previousFailures + [name])
  }

  /** A failed name removes exactly the tools of that name from the eligible ones. */
  lemma {:induction false} FailureRemovesName(r: Request, tools: seq<Tool>, name: string)
    ensures Names(Eligible(WithFailure(r, name), tools)) == Without(Names(Eligible(r, tools)), name)
  {
    hide ExclusionReason, WithFailure;
    if tools != [] {
      var init, t := tools[..|tools| - 1], tools[|tools| - 1];
      FailureRemovesName(r, init, name);
      FailureExcludes(r, t, name);
      var before, after := Eligible(r, init), Eligible(WithFailure(r, name), init);
      if ExclusionReason(r, t).None? {
        NamesOfOneMore(before, t);
        NamesOfOneMore(after, t);
        WithoutOfAppend(Names(before), [t.name], name);
        if t.name == name {
          assert Without([t.name], name) == [];
          assert Eligible(WithFailure(r, name), tools) == after;
        } else {
          assert Without([t.name], name) == [t.name];
          assert Eligible(WithFailure(r, name), tools) == after + [t];
        }
      } else {
        assert Eligible(r, tools) == before && Eligible(WithFailure(r, name), tools) == after;
      }
    }
  }

  lemma {:induction false} FailureExcludes(r: Request, t: Tool, name: string)
    ensures ExclusionReason(WithFailure(r, name), t).None? <==> ExclusionReason(r, t).None? && t.name != name
  {
  }

  lemma NamesOfOneMore(tools: seq<Tool>, t: Tool)
    ensures Names(tools + [t]) == Names(tools) + [t.name]
  {
  }

  /** The names tried so far and those still to try are the names to try at first. */
  predicate Retrying(r: Request, registry: seq<Tool>, tried: seq<string>, last: Request) {
    && last == r.(previousFailures := r.previousFailures + tried)
    && tried + Dedup(Names(Eligible(last, registry))) == Dedup(Names(Eligible(r, registry)))
  }

  lemma RetryStep(r: Request, registry: seq<Tool>, tried: seq<string>, last: Request)
    requires Retrying(r, registry, tried, last) && Eligible(last, registry) != []
    ensures var name := Eligible(last, registry)[0].name;
            && Retrying(r, registry, tried + [name], WithFailure(last, name))
            && |Dedup(Names(Eligible(WithFailure(last, name), registry)))| < |Dedup(Names(Eligible(last, registry)))|
  {
    hide Eligible, Names, Dedup;
    FirstFailureShrinks(last, registry);
    var name := Eligible(last, registry)[0].name;
    assert r.previousFailures + tried + [name] == r.previousFailures + (tried + [name]);
    var rest := Dedup(Names(Eligible(WithFailure(last, name), registry)));
    assert tried + ([name] + rest) == tried + [name] + rest;
  }

  /** Tries the first eligible tool, adds its name to the failures when it fails,
      and selects again.  The names tried are the eligible names, each once. */
  method RetryUntilExhausted(r: Request, registry: seq<Tool>) returns (tried: seq<string>, last: Request)
    ensures tried == Dedup(Names(Eligible(r, registry)))
    ensures last == r.(previousFailures := r.previousFailures + tried)
    ensures Eligible(last, registry) == []
  {
    tried, last := [], r;
    assert Retrying(r, registry, tried, last) by {
      assert r.previousFailures + [] == r.previousFailures;
    }
    var s := SelectTools(last, registry);
    while s.eligible != []
      invariant s.eligible == Eligible(last, registry)
      invariant Retrying(r, registry, tried, last)
      decreases |Dedup(Names(Eligible(last, registry)))|
    {
      hide Retrying, Eligible, Names, Dedup;
      var name := s.eligible[0].name;
      RetryStep(r, registry, tried, last);
      tried := tried + [name];
      last := WithFailure(last, name);
      s := SelectTools(last, registry);
    }
    assert tried + Dedup(Names([])) == tried;
  }

  /** Excluding the first eligible tool takes its name off the front of the names
      still to try, so there is one name fewer. */
  lemma FirstFailureShrinks(r: Request, registry: seq<Tool>)
    requires Eligible(r, registry) != []
    ensures var name := Eligible(r, registry)[0].name;
            Dedup(Names(Eligible(r, registry)))
            == [name] + Dedup(Names(Eligible(WithFailure(r, name), registry)))
  {
    var eligible := Eligible(r, registry);
    FirstName(eligible);
    DedupFromFront(Names(eligible));
    FailureRemovesName(r, registry, eligible[0].name);
  }

  lemma {:induction false} FirstName(tools: seq<Tool>)
    requires tools != []
    ensures |Names(tools)| == |tools| && Names(tools)[0] == tools[0].name
  {
    if |tools| > 1 {
      FirstName(tools[..|tools| - 1]);
    }
  }
}
