/** The one-pass context pack builder and the sense in which its greedy choice
    is the best one. */
module ContextPack {
  import opened Sequences

  datatype SourceRef = SourceRef(kind: string, identifier: string)

  datatype Candidate = Candidate(sourceRef: SourceRef, tokenEstimate: nat, intentTags: seq<string>)

  datatype Policy = Policy(
    maxCandidates: nat,
    allowedSourceKinds: seq<string>,
    includeExcludedReasons: bool,
    browserComputerDefaultExcluded: bool)

  datatype Reason =
    NotExcluded | SourceKindNotAllowed | IntentMismatch | BudgetExceeded | MaxCandidatesReached

  datatype Exclusion = Exclusion(sourceRef: SourceRef, reason: Reason, tokenEstimate: nat)

  datatype Pack = Pack(included: seq<Candidate>, excluded: seq<Exclusion>, usedTokens: nat)

  /** What the builder is given besides the candidates. */
  datatype Setting = Setting(intent: string, policy: Policy, maxContextTokens: nat)

  const BROWSER_COMPUTER_USE := "browser_computer_use"

  predicate IntentMatches(c: Candidate, g: Setting) {
    && !(g.policy.browserComputerDefaultExcluded && g.intent != BROWSER_COMPUTER_USE
         && BROWSER_COMPUTER_USE in c.intentTags)
    && (c.intentTags == [] || g.intent in c.intentTags)
  }

  function ExclusionReason(c: Candidate, g: Setting, usedTokens: nat, includedCount: nat): Reason {
    if c.sourceRef.kind !in g.policy.allowedSourceKinds then SourceKindNotAllowed
    else if includedCount >= g.policy.maxCandidates then MaxCandidatesReached
    else if g.policy.browserComputerDefaultExcluded && g.intent != BROWSER_COMPUTER_USE
            && BROWSER_COMPUTER_USE in c.intentTags then IntentMismatch
    else if c.intentTags != [] && g.intent !in c.intentTags then IntentMismatch
    else if usedTokens + c.tokenEstimate > g.maxContextTokens then BudgetExceeded
    else NotExcluded
  }

  // ---------- selections: one bool per candidate ----------

  type Mask = seq<bool>

  function Count(mask: Mask): nat {
    if mask == [] then 0 else Count(mask[..|mask| - 1]) + if mask[|mask| - 1] then 1 else 0
  }

  function Tokens(cs: seq<Candidate>, mask: Mask): nat
    requires |mask| == |cs|
  {
    if cs == [] then 0
    else Tokens(cs[..|cs| - 1], mask[..|cs| - 1]) + if mask[|cs| - 1] then cs[|cs| - 1].tokenEstimate else 0
  }

  function Selected(cs: seq<Candidate>, mask: Mask): seq<Candidate>
    requires |mask| == |cs|
  {
    if cs == [] then []
    else Selected(cs[..|cs| - 1], mask[..|cs| - 1]) + if mask[|cs| - 1] then [cs[|cs| - 1]] else []
  }

  /** A selection the policy and the budget permit. */
  predicate Feasible(cs: seq<Candidate>, mask: Mask, g: Setting) {
    && |mask| == |cs|
    && (forall i :: 0 <= i < |cs| && mask[i] ==>
          cs[i].sourceRef.kind in g.policy.allowedSourceKinds && IntentMatches(cs[i], g))
    && Count(mask) <= g.policy.maxCandidates
    && Tokens(cs, mask) <= g.maxContextTokens
  }

  /** The candidates the one-pass rule takes. */
  function Greedy(cs: seq<Candidate>, g: Setting): (mask: Mask)
    ensures |mask| == |cs|
  {
    if cs == [] then []
    else
      var init := cs[..|cs| - 1];
      var mask := Greedy(init, g);
      mask + [ExclusionReason(cs[|cs| - 1], g, Tokens(init, mask), Count(mask)) == NotExcluded]
  }

  function ReasonAt(cs: seq<Candidate>, g: Setting, i: nat): Reason
    requires i < |cs|
  {
    var mask := Greedy(cs[..i], g);
    ExclusionReason(cs[i], g, Tokens(cs[..i], mask), Count(mask))
  }

  function Exclusions(cs: seq<Candidate>, g: Setting): seq<Exclusion> {
    if cs == [] then []
    else
      var i := |cs| - 1;
      var reason := ReasonAt(cs, g, i);
      Exclusions(cs[..i], g) +
      if reason == NotExcluded then [] else [Exclusion(cs[i].sourceRef, reason, cs[i].tokenEstimate)]
  }

  method BuildContextPack(cs: seq<Candidate>, g: Setting) returns (pack: Pack)
    ensures pack.included == Selected(cs, Greedy(cs, g))
    ensures pack.usedTokens == Tokens(cs, Greedy(cs, g))
    ensures pack.excluded == if g.policy.includeExcludedReasons then Exclusions(cs, g) else []
    ensures pack.usedTokens <= g.maxContextTokens
  {
    var included, excluded, used: nat := [], [], 0;
    for i := 0 to |cs|
      invariant Built(cs[..i], g, included, excluded, used)
    {
      hide Built, ExclusionReason;
      BuildStep(cs, g, i, included, excluded, used);
      var candidate := cs[i];
      var reason := ExclusionReason(candidate, g, used, |included|);
      if reason != NotExcluded {
        excluded := excluded + [Exclusion(candidate.sourceRef, reason, candidate.tokenEstimate)];
        continue;
      }
      included := included + [candidate];
      used := used + candidate.tokenEstimate;
    }
    assert cs[..|cs|] == cs;
    if !g.policy.includeExcludedReasons {
      excluded := [];
    }
    return Pack(included, excluded, used);
  }

  /** The builder's three variables after the candidates `cs`. */
  predicate Built(cs: seq<Candidate>, g: Setting, included: seq<Candidate>, excluded: seq<Exclusion>, used: nat) {
    var mask := Greedy(cs, g);
    && included == Selected(cs, mask)
    && |included| == Count(mask)
    && used == Tokens(cs, mask) <= g.maxContextTokens
    && excluded == Exclusions(cs, g)
  }

  lemma BuildStep(cs: seq<Candidate>, g: Setting, i: nat,
                  included: seq<Candidate>, excluded: seq<Exclusion>, used: nat)
    requires i < |cs| && Built(cs[..i], g, included, excluded, used)
    ensures var c, reason := cs[i], ExclusionReason(cs[i], g, used, |included|);
            if reason == NotExcluded
            then Built(cs[..i + 1], g, included + [c], excluded, used + c.tokenEstimate)
            else Built(cs[..i + 1], g, included, excluded + [Exclusion(c.sourceRef, reason, c.tokenEstimate)], used)
  {
    hide Greedy, Tokens, Count, Selected, Exclusions;
    OneMoreCandidate(cs, g, i);
  }

  /** How each specification grows when candidate `i` is considered. */
  lemma OneMoreCandidate(cs: seq<Candidate>, g: Setting, i: nat)
    requires i < |cs|
    ensures var before, after := Greedy(cs[..i], g), Greedy(cs[..i + 1], g);
            var taken := ReasonAt(cs, g, i) == NotExcluded;
            && after == before + [taken]
            && Count(after) == Count(before) + (if taken then 1 else 0)
            && Tokens(cs[..i + 1], after) == Tokens(cs[..i], before) + (if taken then cs[i].tokenEstimate else 0)
            && Selected(cs[..i + 1], after) == Selected(cs[..i], before) + (if taken then [cs[i]] else [])
            && Exclusions(cs[..i + 1], g)
               == Exclusions(cs[..i], g)
                  + (if taken then [] else [Exclusion(cs[i].sourceRef, ReasonAt(cs, g, i), cs[i].tokenEstimate)])
  {
    var run := cs[..i + 1];
    assert run[..|run| - 1] == cs[..i] && run[|run| - 1] == cs[i];
    var before := Greedy(cs[..i], g);
    var after := Greedy(run, g);
    assert after[..|after| - 1] == before;
  }

  // ---------- the pack of a prefix is a prefix of the pack ----------

  lemma {:induction false} GreedyPrefix(cs: seq<Candidate>, g: Setting, n: nat)
    requires n <= |cs|
    ensures Greedy(cs[..n], g) == Greedy(cs, g)[..n]
    decreases |cs| - n
  {
    hide Greedy, Count, Tokens, Selected, Exclusions, ReasonAt;
    assert cs[..|cs|] == cs;
    if n < |cs| {
      GreedyPrefix(cs, g, n + 1);
      OneMoreCandidate(cs, g, n);
      assert Greedy(cs, g)[..n + 1][..n] == Greedy(cs, g)[..n];
    }
  }

  lemma {:induction false} UsagePrefix(cs: seq<Candidate>, g: Setting, n: nat)
    requires n <= |cs|
    ensures Count(Greedy(cs[..n], g)) <= Count(Greedy(cs, g))
    ensures Tokens(cs[..n], Greedy(cs[..n], g)) <= Tokens(cs, Greedy(cs, g))
    decreases |cs| - n
  {
    hide Greedy, Count, Tokens, Selected, Exclusions, ReasonAt;
    assert cs[..|cs|] == cs;
    if n < |cs| {
      UsagePrefix(cs, g, n + 1);
      OneMoreCandidate(cs, g, n);
    }
  }

  lemma {:induction false} PackPrefix(cs: seq<Candidate>, g: Setting, n: nat)
    requires n <= |cs|
    ensures Selected(cs[..n], Greedy(cs[..n], g)) <= Selected(cs, Greedy(cs, g))
    ensures Exclusions(cs[..n], g) <= Exclusions(cs, g)
    decreases |cs| - n
  {
    hide Greedy, Count, Tokens, Selected, Exclusions, ReasonAt;
    assert cs[..|cs|] == cs;
    if n < |cs| {
      PackPrefix(cs, g, n + 1);
      OneMoreCandidate(cs, g, n);
    }
  }

  lemma GreedyDecidesByReason(cs: seq<Candidate>, g: Setting, i: nat)
    requires i < |cs|
    ensures Greedy(cs, g)[i] <==> ReasonAt(cs, g, i) == NotExcluded
  {
    GreedyPrefix(cs, g, i + 1);
    OneMoreCandidate(cs, g, i);
  }

  lemma {:induction false} GreedyWithinLimits(cs: seq<Candidate>, g: Setting)
    ensures Count(Greedy(cs, g)) <= g.policy.maxCandidates
    ensures Tokens(cs, Greedy(cs, g)) <= g.maxContextTokens
  {
    if cs != [] {
      var m := |cs| - 1;
      GreedyWithinLimits(cs[..m], g);
      assert cs[..m + 1] == cs;
      OneMoreCandidate(cs, g, m);
    }
  }

  lemma {:induction false} GreedyIsFeasible(cs: seq<Candidate>, g: Setting)
    ensures Feasible(cs, Greedy(cs, g), g)
  {
    GreedyWithinLimits(cs, g);
    forall i | 0 <= i < |cs| && Greedy(cs, g)[i]
      ensures cs[i].sourceRef.kind in g.policy.allowedSourceKinds && IntentMatches(cs[i], g)
    {
      GreedyDecidesByReason(cs, g, i);
    }
  }

  // ---------- optimality ----------

  lemma {:induction false} PartsOfSelection(cs: seq<Candidate>, mask: Mask, n: nat)
    requires |mask| == |cs| && n <= |cs|
    ensures Count(mask[..n]) <= Count(mask)
    ensures Tokens(cs[..n], mask[..n]) <= Tokens(cs, mask)
  {
    if n == |cs| {
      assert mask[..n] == mask && cs[..n] == cs;
    } else {
      var m := |cs| - 1;
      PartsOfSelection(cs[..m], mask[..m], n);
      assert mask[..m][..n] == mask[..n] && cs[..m][..n] == cs[..n];
    }
  }

  lemma OneMoreSelected(cs: seq<Candidate>, mask: Mask, i: nat)
    requires |mask| == |cs| && i < |cs|
    ensures Count(mask[..i + 1]) == Count(mask[..i]) + (if mask[i] then 1 else 0)
    ensures Tokens(cs[..i + 1], mask[..i + 1])
            == Tokens(cs[..i], mask[..i]) + (if mask[i] then cs[i].tokenEstimate else 0)
  {
    assert mask[..i + 1][..i] == mask[..i] && cs[..i + 1][..i] == cs[..i];
  }

  /** The pack is lexicographically greatest: wherever a permitted selection first
      differs from it, the pack has the candidate and the other does not. */
  lemma PackIsLexicographicallyBest(cs: seq<Candidate>, g: Setting, other: Mask, i: nat)
    requires Feasible(cs, other, g) && i < |cs|
    requires other[..i] == Greedy(cs, g)[..i] && other[i] != Greedy(cs, g)[i]
    ensures Greedy(cs, g)[i] && !other[i]
  {
    if other[i] {
      GreedyPrefix(cs, g, i);
      GreedyDecidesByReason(cs, g, i);
      OneMoreSelected(cs, other, i);
      PartsOfSelection(cs, other, i + 1);
    }
  }

  ghost predicate LexicographicallyBest(cs: seq<Candidate>, g: Setting, mask: Mask) {
    && Feasible(cs, mask, g)
    && forall other, i {:trigger other[..i]} ::
         Feasible(cs, other, g) && 0 <= i < |cs| && other[..i] == mask[..i] && other[i] != mask[i] ==> mask[i]
  }

  /** ... and it is the only selection with that property. */
  lemma PackIsTheOnlyBest(cs: seq<Candidate>, g: Setting, mask: Mask)
    ensures LexicographicallyBest(cs, g, mask) <==> mask == Greedy(cs, g)
  {
    GreedyIsFeasible(cs, g);
    var greedy := Greedy(cs, g);
    forall other, i | Feasible(cs, other, g) && 0 <= i < |cs| && other[..i] == greedy[..i] && other[i] != greedy[i]
      ensures greedy[i]
    {
      PackIsLexicographicallyBest(cs, g, other, i);
    }
    if LexicographicallyBest(cs, g, mask) && mask != greedy {
      var i := FirstDifference(mask, greedy);
    }
  }

  lemma {:induction false} FirstDifference(a: Mask, b: Mask) returns (i: nat)
    requires |a| == |b| && a != b
    ensures i < |a| && a[..i] == b[..i] && a[i] != b[i]
  {
    var m := |a| - 1;
    if a[..m] == b[..m] {
      i := m;
      assert a == a[..m] + [a[m]] && b == b[..m] + [b[m]];
    } else {
      i := FirstDifference(a[..m], b[..m]);
      assert a[..m][..i] == a[..i] && b[..m][..i] == b[..i];
    }
  }

  // ---------- what an exclusion means for the finished pack ----------

  /** Each recorded reason, read off the finished pack: a candidate refused for
      the limit saw a full pack, and one refused for the budget still does not
      fit beside what was taken. */
  lemma ReasonsDescribeFinalPack(cs: seq<Candidate>, g: Setting, i: nat)
    requires i < |cs|
    ensures var mask, allowed := Greedy(cs, g), cs[i].sourceRef.kind in g.policy.allowedSourceKinds;
            match ReasonAt(cs, g, i)
            case NotExcluded => mask[i] && allowed && IntentMatches(cs[i], g)
            case SourceKindNotAllowed => !mask[i] && !allowed
            case MaxCandidatesReached =>
              !mask[i] && allowed && Count(mask) == g.policy.maxCandidates
              && (forall k :: i <= k < |cs| ==> !mask[k])
            case IntentMismatch => !mask[i] && allowed && !IntentMatches(cs[i], g)
            case BudgetExceeded =>
              !mask[i] && allowed && IntentMatches(cs[i], g)
              && Tokens(cs, mask) + cs[i].tokenEstimate > g.maxContextTokens
  {
    GreedyDecidesByReason(cs, g, i);
    UsagePrefix(cs, g, i);
    GreedyWithinLimits(cs, g);
    if ReasonAt(cs, g, i) == MaxCandidatesReached {
      forall k | i <= k < |cs|
        ensures !Greedy(cs, g)[k]
      {
        FullPackStaysFull(cs, g, i, k);
      }
    }
  }

  /** ... and as the builder meets it: each candidate is refused for the first of
      these facts about the pack so far that fails, and taken if none does. */
  lemma ReasonIsFirstFailure(cs: seq<Candidate>, g: Setting, i: nat)
    requires i < |cs|
    ensures var mask := Greedy(cs, g)[..i];
            ReasonAt(cs, g, i)
            == [SourceKindNotAllowed, MaxCandidatesReached, IntentMismatch, BudgetExceeded, NotExcluded]
                 [FirstFalse([cs[i].sourceRef.kind in g.policy.allowedSourceKinds,
                              Count(mask) < g.policy.maxCandidates,
                              IntentMatches(cs[i], g),
                              Tokens(cs[..i], mask) + cs[i].tokenEstimate <= g.maxContextTokens])]
  {
    hide Greedy, Count, Tokens, FirstFalse;
    GreedyPrefix(cs, g, i);
    var mask := Greedy(cs, g)[..i];
    FirstFalseOfFour(cs[i].sourceRef.kind in g.policy.allowedSourceKinds,
                     Count(mask) < g.policy.maxCandidates,
                     IntentMatches(cs[i], g),
                     Tokens(cs[..i], mask) + cs[i].tokenEstimate <= g.maxContextTokens);
  }

  /** Which intents a candidate meets: untagged ones all of them, tagged ones theirs,
      but those of browser and computer use only that one while the policy keeps
      them out by default. */
  lemma TagsDecideIntent(c: Candidate, g: Setting)
    ensures c.intentTags == [] ==> IntentMatches(c, g)
    ensures c.intentTags != [] && ("browser_computer_use" !in c.intentTags || !g.policy.browserComputerDefaultExcluded) ==>
              (IntentMatches(c, g) <==> g.intent in c.intentTags)
    ensures "browser_computer_use" in c.intentTags && g.policy.browserComputerDefaultExcluded ==>
              (IntentMatches(c, g) <==> g.intent == "browser_computer_use")
  {
  }

  lemma FullPackStaysFull(cs: seq<Candidate>, g: Setting, i: nat, k: nat)
    requires i <= k < |cs| && Count(Greedy(cs[..i], g)) >= g.policy.maxCandidates
    ensures !Greedy(cs, g)[k]
  {
    assert Count(Greedy(cs[..k], g)) >= g.policy.maxCandidates by {
      var run := cs[..k];
      assert run[..i] == cs[..i];
      UsagePrefix(run, g, i);
    }
    assert ReasonAt(cs, g, k) != NotExcluded;
    GreedyDecidesByReason(cs, g, k);
  }

  /** Maximality: no refused candidate can be added to the finished pack. */
  lemma {:induction false} PackIsMaximal(cs: seq<Candidate>, g: Setting, i: nat)
    requires i < |cs| && !Greedy(cs, g)[i]
    ensures !Feasible(cs, Greedy(cs, g)[i := true], g)
  {
    var mask := Greedy(cs, g);
    ReasonsDescribeFinalPack(cs, g, i);
    AddToSelection(cs, mask, i);
    assert mask[i := true][i];
  }

  lemma {:induction false} AddToSelection(cs: seq<Candidate>, mask: Mask, i: nat)
    requires |mask| == |cs| && i < |cs| && !mask[i]
    ensures Count(mask[i := true]) == Count(mask) + 1
    ensures Tokens(cs, mask[i := true]) == Tokens(cs, mask) + cs[i].tokenEstimate
  {
    var m := |cs| - 1;
    if i < m {
      AddToSelection(cs[..m], mask[..m], i);
      assert mask[i := true][..m] == mask[..m][i := true];
    } else {
      assert mask[i := true][..m] == mask[..m];
    }
  }

  // ---------- nothing is lost ----------

  lemma {:induction false} CountsOfPack(cs: seq<Candidate>, g: Setting)
    ensures |Selected(cs, Greedy(cs, g))| == Count(Greedy(cs, g))
    ensures |Exclusions(cs, g)| == |cs| - Count(Greedy(cs, g))
  {
    if cs != [] {
      var m := |cs| - 1;
      CountsOfPack(cs[..m], g);
      assert cs[..m + 1] == cs;
      OneMoreCandidate(cs, g, m);
    }
  }

  /** Included and excluded merge back to the input in order: every candidate
      stands in one of the two lists, right behind those of its kind that came
      before it, and an excluded one with the reason it was refused for. */
  lemma PackLosesNothing(cs: seq<Candidate>, g: Setting, i: nat)
    requires i < |cs|
    ensures var mask, included, excluded := Greedy(cs, g), Selected(cs, Greedy(cs, g)), Exclusions(cs, g);
            var k := Count(mask[..i]);
            && |included| + |excluded| == |cs|
            && k <= i
            && (mask[i] ==> k < |included| && included[k] == cs[i])
            && (!mask[i] ==>
                && i - k < |excluded|
                && excluded[i - k] == Exclusion(cs[i].sourceRef, ReasonAt(cs, g, i), cs[i].tokenEstimate))
  {
    CountsOfPack(cs, g);
    CountsOfPack(cs[..i], g);
    GreedyPrefix(cs, g, i);
    GreedyDecidesByReason(cs, g, i);
    OneMoreCandidate(cs, g, i);
    PackPrefix(cs, g, i + 1);
  }
}
