/** Web-search fallback: the next provider of a chain after one that failed, and
    when feeding each answer back walks the chain to its end. */
module WebFallback {
  import opened Sequences

  /** `provider_chain.index(failed)`, or -1. */
  function IndexOf(chain: seq<string>, name: string): (i: int)
    ensures -1 <= i < |chain|
    ensures i >= 0 ==> chain[i] == name && forall k :: 0 <= k < i ==> chain[k] != name
    ensures i == -1 ==> forall k :: 0 <= k < |chain| ==> chain[k] != name
  {
    if chain == [] then -1
    else if chain[0] == name then 0
    else
      var rest := IndexOf(chain[1..], name);
      if rest == -1 then -1 else rest + 1
  }

  /** The next provider to try; None is the decision `evidence_missing`. */
  function Recover(enabled: bool, chain: seq<string>, failed: string): Option<string> {
    var next := IndexOf(chain, failed) + 1;
    if enabled && next < |chain| then Some(chain[next]) else None
  }

  /** A provider is named exactly when fallback is enabled and it stands right behind
      the first occurrence of the failed one, or at the head of a chain without it. */
  lemma RecoverNamesSuccessor(enabled: bool, chain: seq<string>, failed: string, next: string)
    ensures Recover(enabled, chain, failed) == Some(next) <==>
              enabled && exists p :: 0 <= p < |chain| && chain[p] == next && Behind(chain, failed, p)
  {
    hide IndexOf;
    var i := IndexOf(chain, failed);
    if i + 1 < |chain| {
      assert Behind(chain, failed, i + 1);
    }
    forall p | 0 <= p < |chain| && Behind(chain, failed, p)
      ensures p == i + 1
    {
      if p > 0 {
        assert chain[..p][p - 1] == failed;
      }
    }
  }

  /** Position `p` is the first one behind the first occurrence of `failed`. */
  predicate Behind(chain: seq<string>, failed: string, p: nat) {
    && p < |chain|
    && if failed in chain then p > 0 && chain[p - 1] == failed && failed !in chain[..p - 1] else p == 0
  }

  /** The answer of the n-th call when each answer is reported as failed. */
  function Answer(chain: seq<string>, failed: string, n: nat): Option<string> {
    if n == 0 then Recover(true, chain, failed)
    else
      var before := Answer(chain, failed, n - 1);
      if before.None? then None else Recover(true, chain, before.value)
  }

  /** Behind the failed provider (from the head, if it is not in the chain) nobody
      occurs who already occurred before. */
  predicate FreshAhead(chain: seq<string>, failed: string) {
    forall k :: IndexOf(chain, failed) < k < |chain| ==> chain[k] !in chain[..k]
  }

  lemma FirstOccurrence(chain: seq<string>, k: nat)
    requires k < |chain| && chain[k] !in chain[..k]
    ensures IndexOf(chain, chain[k]) == k
  {
    assert forall j :: 0 <= j < k ==> chain[j] == chain[..k][j];
  }

  /** When nobody is repeated ahead, the answers are the providers behind the one
      that failed first, in order, and then evidence is missing. */
  lemma {:induction false} WalkVisitsRest(chain: seq<string>, failed: string, n: nat)
    requires FreshAhead(chain, failed)
    ensures var start := IndexOf(chain, failed) + 1;
            Answer(chain, failed, n) == if start + n < |chain| then Some(chain[start + n]) else None
  {
    hide IndexOf;
    var start := IndexOf(chain, failed) + 1;
    if n > 0 {
      WalkVisitsRest(chain, failed, n - 1);
      if start + n - 1 < |chain| {
        FirstOccurrence(chain, start + n - 1);
      }
    }
  }

  /** The walk as the caller performs it. */
  method FollowChain(chain: seq<string>, failed: string) returns (visited: seq<string>)
    requires FreshAhead(chain, failed)
    ensures visited == chain[IndexOf(chain, failed) + 1..]
  {
    hide IndexOf;
    visited := [];
    var start := IndexOf(chain, failed) + 1;
    var next := Recover(true, chain, failed);
    while next.Some?
      invariant start + |visited| <= |chain|
      invariant visited == chain[start..start + |visited|]
      invariant next == if start + |visited| < |chain| then Some(chain[start + |visited|]) else None
      decreases |chain| - |visited|
    {
      FirstOccurrence(chain, start + |visited|);
      visited := visited + [next.value];
      next := Recover(true, chain, next.value);
    }
    assert visited == chain[start..];
  }

  /** A provider at `q` ahead that occurred before sends the walk back behind its
      first occurrence, so it never gets past `q`. */
  lemma {:induction false} RepeatTrapsWalk(chain: seq<string>, failed: string, q: nat, n: nat)
    requires IndexOf(chain, failed) < q < |chain| && chain[q] in chain[..q]
    ensures Answer(chain, failed, n).Some? && Answer(chain, failed, n).value in chain[..q]
  {
    hide IndexOf;
    var x := failed;
    if n > 0 {
      RepeatTrapsWalk(chain, failed, q, n - 1);
      x := Answer(chain, failed, n - 1).value;
      var k :| 0 <= k < q && chain[..q][k] == x;
      assert chain[k] == x;
    }
    var i := IndexOf(chain, x);
    assert i < q;
    if i + 1 < q {
      assert chain[i + 1] == chain[..q][i + 1];
    }
  }

  /** The walk ends, within the chain's length, if and only if every provider behind
      the failed one occurs there for the first time. */
  lemma WalkEndsIffFreshAhead(chain: seq<string>, failed: string)
    ensures (exists n: nat :: Answer(chain, failed, n).None?) <==> FreshAhead(chain, failed)
    ensures FreshAhead(chain, failed) ==> Answer(chain, failed, |chain|).None?
  {
    hide IndexOf;
    if FreshAhead(chain, failed) {
      WalkVisitsRest(chain, failed, |chain|);
    } else {
      var q :| IndexOf(chain, failed) < q < |chain| && chain[q] in chain[..q];
      forall n: nat
        ensures Answer(chain, failed, n).Some?
      {
        RepeatTrapsWalk(chain, failed, q, n);
      }
    }
  }

  /** A chain of distinct providers is walked to its end from anywhere. */
  lemma DistinctChainsEnd(chain: seq<string>)
    ensures NoDuplicates(chain) <==> forall failed :: FreshAhead(chain, failed)
  {
    if forall failed :: FreshAhead(chain, failed) {
      var outside := Outside(chain);
      assert FreshAhead(chain, outside);
      forall i, j | 0 <= i < j < |chain|
        ensures chain[i] != chain[j]
      {
        assert chain[i] == chain[..j][i];
      }
    }
  }

  /** A name longer than all names of the chain. */
  function Outside(chain: seq<string>): (name: string)
    ensures forall k :: 0 <= k < |chain| ==> |chain[k]| < |name|
  {
    if chain == [] then ['x']
    else
      var rest := Outside(chain[1..]);
      if |chain[0]| < |rest| then rest else chain[0] + ['x']
  }
}
