/** Order-preserving sequences: first-occurrence de-duplication, the last n
    entries of a sequence, and filters.  The sync state keeps its dedup window
    and the provider rows their model lists with these operations. */
module Sequences {

  datatype Option<+T> = None | Some(value: T)

  ghost predicate NoDuplicates<T>(s: seq<T>) {
    forall i, j :: 0 <= i < j < |s| ==> s[i] != s[j]
  }

  /** The elements of `batch` that are not in `seen`, each once, where it first
      occurs: what a dictionary keyed by `seen` gains from inserting `batch`. */
  function Fresh<T(==,!new)>(seen: seq<T>, batch: seq<T>): (r: seq<T>)
    ensures NoDuplicates(r)
    ensures forall x :: x in r <==> x in batch && x !in seen
  {
    if batch == [] then []
    else
      var x := batch[|batch| - 1];
      var r := Fresh(seen, batch[..|batch| - 1]);
      assert batch == batch[..|batch| - 1] + [x];
      if x in seen || x in r then r else r + [x]
  }

  /** `dict.fromkeys(s)` read back as a list. */
  function Dedup<T(==,!new)>(s: seq<T>): (r: seq<T>)
    ensures NoDuplicates(r)
    ensures forall x :: x in r <==> x in s
  {
    Fresh([], s)
  }

  lemma {:induction false} FreshDependsOnMembers<T(!new)>(seen: seq<T>, other: seq<T>, batch: seq<T>)
    requires forall x :: x in batch ==> (x in seen <==> x in other)
    ensures Fresh(seen, batch) == Fresh(other, batch)
  {
    if batch != [] {
      FreshDependsOnMembers(seen, other, batch[..|batch| - 1]);
    }
  }

  lemma FreshOfOneMore<T(!new)>(seen: seq<T>, batch: seq<T>, x: T)
    ensures Fresh(seen, batch + [x])
            == Fresh(seen, batch) + if x in seen || x in batch then [] else [x]
  {
  }

  /** Inserting a concatenation is inserting the parts one after the other. */
  lemma {:induction false} FreshOfAppend<T(!new)>(seen: seq<T>, a: seq<T>, b: seq<T>)
    ensures Fresh(seen, a + b) == Fresh(seen, a) + Fresh(seen + a, b)
  {
    if b == [] {
      assert a + b == a;
    } else {
      var init, x := b[..|b| - 1], b[|b| - 1];
      FreshOfAppend(seen, a, init);
      assert (a + b)[..|a + b| - 1] == a + init;
      assert x in Fresh(seen, a + init) <==> (x in a + init && x !in seen);
      assert x in Fresh(seen + a, init) <==> (x in init && x !in seen + a);
    }
  }

  lemma DedupOfAppend<T(!new)>(a: seq<T>, b: seq<T>)
    ensures Dedup(a + b) == Dedup(a) + Fresh(Dedup(a), b)
  {
    FreshOfAppend([], a, b);
    FreshDependsOnMembers([] + a, Dedup(a), b);
  }

  lemma {:induction false} DedupOfDistinct<T(!new)>(s: seq<T>)
    requires NoDuplicates(s)
    ensures Dedup(s) == s
  {
    if s != [] {
      var init := s[..|s| - 1];
      DedupOfDistinct(init);
      assert s == init + [s[|s| - 1]];
    }
  }

  /** De-duplication read from the front: the head, then the rest without it. */
  lemma DedupFromFront<T(!new)>(s: seq<T>)
    requires s != []
    ensures Dedup(s) == [s[0]] + Dedup(Without(s, s[0]))
  {
    var x, rest := s[0], s[1..];
    assert s == [x] + rest;
    FreshOfAppend([], [x], rest);
    assert Fresh([], [x]) == [x] && [] + [x] == [x];
    WithoutOfAppend([x], rest, x);
    assert Without([x], x) == [];
    assert Without(s, x) == Without(rest, x);
    FreshWithout(rest, x);
  }

  function Without<T(==,!new)>(s: seq<T>, x: T): (r: seq<T>)
    ensures forall y :: y in r <==> y in s && y != x
  {
    if s == [] then []
    else
      var y := s[|s| - 1];
      assert s == s[..|s| - 1] + [y];
      Without(s[..|s| - 1], x) + if y == x then [] else [y]
  }

  lemma {:induction false} WithoutOfAppend<T(!new)>(a: seq<T>, b: seq<T>, x: T)
    ensures Without(a + b, x) == Without(a, x) + Without(b, x)
  {
    if b == [] {
      assert a + b == a;
    } else {
      assert (a + b)[..|a + b| - 1] == a + b[..|b| - 1];
      WithoutOfAppend(a, b[..|b| - 1], x);
    }
  }

  lemma {:induction false} FreshWithout<T(!new)>(s: seq<T>, x: T)
    ensures Fresh([x], s) == Dedup(Without(s, x))
  {
    if s != [] {
      var init, y := s[..|s| - 1], s[|s| - 1];
      FreshWithout(init, x);
      if y == x {
        assert Without(s, x) == Without(init, x);
      } else {
        FreshOfOneMore([], Without(init, x), y);
      }
    }
  }

  /** `s[-n:]` for a positive n. */
  function TakeLast<T>(s: seq<T>, n: nat): (r: seq<T>)
    ensures |r| == if |s| <= n then |s| else n
  {
    if |s| <= n then s else s[|s| - n..]
  }

  lemma TakeLastHolds<T(!new)>(s: seq<T>, n: nat, p: nat)
    requires p < |s|
    ensures p >= |s| - n ==> s[p] in TakeLast(s, n)
  {
  }

  /** In a duplicate-free sequence the last n entries hold no others. */
  lemma TakeLastHoldsOnlyLast<T(!new)>(s: seq<T>, n: nat, p: nat)
    requires NoDuplicates(s) && p < |s|
    ensures s[p] in TakeLast(s, n) <==> p >= |s| - n
  {
    TakeLastHolds(s, n, p);
  }

  lemma TakeLastOfAppend<T(!new)>(s: seq<T>, t: seq<T>, n: nat)
    ensures TakeLast(TakeLast(s, n) + t, n) == TakeLast(s + t, n)
  {
    if |s| > n {
      var k, kept := |s| - n, s[|s| - n..];
      assert TakeLast(kept + t, n) == (kept + t)[|t|..];
      assert (s + t)[k..] == kept + t;
      assert (s + t)[k + |t|..] == (s + t)[k..][|t|..];
    }
  }

  /** The number of leading facts that hold: where a chain of checks stops. */
  function FirstFalse(facts: seq<bool>): (k: nat)
    ensures k <= |facts| && (forall i :: 0 <= i < k ==> facts[i]) && (k < |facts| ==> !facts[k])
  {
    if facts == [] || !facts[0] then 0 else 1 + FirstFalse(facts[1..])
  }

  lemma FirstFalseOfThree(a: bool, b: bool, c: bool)
    ensures FirstFalse([a, b, c]) == if !a then 0 else if !b then 1 else if !c then 2 else 3
  {
    var facts := [a, b, c];
    assert facts[0] == a && facts[1] == b && facts[2] == c;
  }

  lemma FirstFalseOfFour(a: bool, b: bool, c: bool, d: bool)
    ensures FirstFalse([a, b, c, d]) == if !a then 0 else if !b then 1 else if !c then 2 else if !d then 3 else 4
  {
    var facts := [a, b, c, d];
    assert facts[0] == a && facts[1] == b && facts[2] == c && facts[3] == d;
  }

  lemma FirstFalseOfFive(a: bool, b: bool, c: bool, d: bool, e: bool)
    ensures FirstFalse([a, b, c, d, e])
            == if !a then 0 else if !b then 1 else if !c then 2 else if !d then 3 else if !e then 4 else 5
  {
    var facts := [a, b, c, d, e];
    assert facts[0] == a && facts[1] == b && facts[2] == c && facts[3] == d && facts[4] == e;
  }
}
