/** Browser sessions: single-use claims, sliding expiry and lazy eviction, compared
    with a history of what happened. */
module BrowserSession {
  import opened Sequences
  import opened Cookies

  datatype Lifetimes = Lifetimes(claim: real, session: real)

  datatype State = State(claims: map<string, real>, sessions: map<string, real>)

  /** One call with the tokens and clock readings it draws. */
  datatype Action =
    | Lease(token: string, now: real)
    | Redeem(claim: string, checkedAt: real, session: string, mintedAt: real)
    | Validate(session: string, now: real)

  function LeaseStep(ttl: Lifetimes, s: State, token: string, now: real): State {
    s.(claims := s.claims[token := now + ttl.claim])
  }

  /** Any attempt consumes the claim; only a timely one mints. */
  function RedeemStep(ttl: Lifetimes, s: State, claim: string, checkedAt: real, session: string, mintedAt: real)
    : (State, bool)
  {
    if claim == "" then (s, false)
    else
      var after := s.(claims := s.claims - {claim});
      if claim !in s.claims || s.claims[claim] < checkedAt then (after, false)
      else (after.(sessions := s.sessions[session := mintedAt + ttl.session]), true)
  }

  function ValidateStep(ttl: Lifetimes, s: State, session: string, now: real): (State, bool) {
    if session == "" then (s, false)
    else if session !in s.sessions || s.sessions[session] < now
    then (s.(sessions := s.sessions - {session}), false)
    else (s.(sessions := s.sessions[session := now + ttl.session]), true)
  }

  function Step(ttl: Lifetimes, s: State, a: Action): (State, bool) {
    match a
    case Lease(token, now) => (LeaseStep(ttl, s, token, now), true)
    case Redeem(claim, checkedAt, session, mintedAt) => RedeemStep(ttl, s, claim, checkedAt, session, mintedAt)
    case Validate(session, now) => ValidateStep(ttl, s, session, now)
  }

  function Run(ttl: Lifetimes, run: seq<Action>): State {
    if run == [] then State(map[], map[]) else Step(ttl, Run(ttl, run[..|run| - 1]), run[|run| - 1]).0
  }

  /** Whether the call that follows `run` succeeds. */
  predicate Succeeds(ttl: Lifetimes, run: seq<Action>, a: Action) {
    Step(ttl, Run(ttl, run), a).1
  }

  class BrowserSessionManager {
    const ttl: Lifetimes
    var claims: map<string, real>
    var sessions: map<string, real>

    function View(): State
      reads this
    {
      State(claims, sessions)
    }

    constructor (ttl: Lifetimes)
      ensures this.ttl == ttl && View() == Run(ttl, [])
    {
      this.ttl := ttl;
      claims, sessions := map[], map[];
    }

    method CreateLease(token: string, now: real)
      modifies this`claims
      ensures View() == LeaseStep(ttl, old(View()), token, now)
    {
      claims := claims[token := now + ttl.claim];
    }

    method Claim(claim: Option<string>, checkedAt: real, token: string, mintedAt: real) returns (session: Option<string>)
      modifies this
      ensures var c := if claim.Some? then claim.value else "";
              var (after, minted) := RedeemStep(ttl, old(View()), c, checkedAt, token, mintedAt);
              View() == after && session == if minted then Some(token) else None
    {
      if claim.None? || claim.value == "" {
        return None;
      }
      var known := claim.value in claims;
      var expiresAt := if known then claims[claim.value] else 0.0;
      claims := claims - {claim.value};
      if !known || expiresAt < checkedAt {
        return None;
      }
      sessions := sessions[token := mintedAt + ttl.session];
      return Some(token);
    }

    method ValidateCookieHeader(header: Option<string>, now: real) returns (valid: bool)
      modifies this`sessions
      ensures var found := if header.Some? then CookieValue(header.value, BROWSER_SESSION_COOKIE) else None;
              var (after, expected) :=
                ValidateStep(ttl, old(View()), if found.Some? then found.value else "", now);
              View() == after && valid == expected
    {
      if header.None? || header.value == "" {
        EmptyHeaderHasNoCookie();
        return false;
      }
      var found := CookieValue(header.value, BROWSER_SESSION_COOKIE);
      if found.None? || found.value == "" {
        return false;
      }
      var session := found.value;
      if session !in sessions || sessions[session] < now {
        sessions := sessions - {session};
        return false;
      }
      sessions := sessions[session := now + ttl.session];
      return true;
    }
  }

  lemma EmptyHeaderHasNoCookie()
    ensures CookieValue("", BROWSER_SESSION_COOKIE).None?
  {
  }

  // ---------- the history specification ----------

  /** When the lease of this claim that is still outstanding was issued. */
  function Leased(run: seq<Action>, claim: string): Option<real> {
    if run == [] then None
    else
      var before := Leased(run[..|run| - 1], claim);
      match run[|run| - 1]
      case Lease(token, now) => if token == claim then Some(now) else before
      case Redeem(c, _, _, _) => if c == claim then None else before
      case Validate(_, _) => before
  }

  predicate Honoured(ttl: Lifetimes, run: seq<Action>, claim: string, at: real) {
    claim != "" && Leased(run, claim).Some? && at <= Leased(run, claim).value + ttl.claim
  }

  /** When the session was minted or last validated; nothing is ever evicted. */
  function Touched(ttl: Lifetimes, run: seq<Action>, session: string): Option<real> {
    if run == [] then None
    else
      var init := run[..|run| - 1];
      var before := Touched(ttl, init, session);
      match run[|run| - 1]
      case Lease(_, _) => before
      case Redeem(claim, checkedAt, minted, mintedAt) =>
        if minted == session && Honoured(ttl, init, claim, checkedAt) then Some(mintedAt) else before
      case Validate(s, now) =>
        if s == session && s != "" && before.Some? && now <= before.value + ttl.session then Some(now) else before
  }

  predicate Fresh(ttl: Lifetimes, run: seq<Action>, session: string, at: real) {
    session != "" && Touched(ttl, run, session).Some? && at <= Touched(ttl, run, session).value + ttl.session
  }

  /** Step `k` minted this session. */
  predicate MintsAt(ttl: Lifetimes, run: seq<Action>, k: nat, session: string) {
    && k < |run|
    && run[k].Redeem? && run[k].session == session
    && Honoured(ttl, run[..k], run[k].claim, run[k].checkedAt)
  }

  /** Step `k` validated this session past its lifetime. */
  predicate LateAt(ttl: Lifetimes, run: seq<Action>, k: nat, session: string) {
    && k < |run|
    && session != "" && run[k].Validate? && run[k].session == session
    && Touched(ttl, run[..k], session).Some?
    && run[k].now > Touched(ttl, run[..k], session).value + ttl.session
  }

  /** Since the session was last minted, some validation came past its lifetime. */
  ghost predicate Gone(ttl: Lifetimes, run: seq<Action>, session: string) {
    exists k: nat :: LateAt(ttl, run, k, session) && NoMintAfter(ttl, run, k, session)
  }

  ghost predicate NoMintAfter(ttl: Lifetimes, run: seq<Action>, k: nat, session: string) {
    forall m: nat :: k < m < |run| ==> !MintsAt(ttl, run, m, session)
  }

  predicate ReadsOf(a: Action, from: real) {
    match a
    case Lease(_, now) => from <= now
    case Redeem(_, checkedAt, _, mintedAt) => from <= checkedAt <= mintedAt
    case Validate(_, now) => from <= now
  }

  function LastReading(run: seq<Action>, start: real): real {
    if run == [] then start
    else match run[|run| - 1]
      case Lease(_, now) => now
      case Redeem(_, _, _, mintedAt) => mintedAt
      case Validate(_, now) => now
  }

  /** The clock never goes back within or between calls. */
  predicate Forward(run: seq<Action>, start: real) {
    run == [] ||
    (Forward(run[..|run| - 1], start) && ReadsOf(run[|run| - 1], LastReading(run[..|run| - 1], start)))
  }

  /** The claim table is the outstanding leases, for any clock and any tokens. */
  lemma {:induction false} ClaimsFollowLeases(ttl: Lifetimes, run: seq<Action>, claim: string)
    requires claim != ""
    ensures var s := Run(ttl, run);
            && (claim in s.claims <==> Leased(run, claim).Some?)
            && (claim in s.claims ==> s.claims[claim] == Leased(run, claim).value + ttl.claim)
  {
    if run != [] {
      ClaimsFollowLeases(ttl, run[..|run| - 1], claim);
    }
  }

  /** A stored session carries the expiry of its last touch, for any clock. */
  lemma {:induction false} SessionsFollowTouches(ttl: Lifetimes, run: seq<Action>, session: string)
    ensures var s := Run(ttl, run);
            session in s.sessions ==>
              Touched(ttl, run, session).Some? && s.sessions[session] == Touched(ttl, run, session).value + ttl.session
  {
    if run != [] {
      var init := run[..|run| - 1];
      SessionsFollowTouches(ttl, init, session);
      match run[|run| - 1]
      case Redeem(claim, _, _, _) =>
        if claim != "" {
          ClaimsFollowLeases(ttl, init, claim);
        }
      case _ =>
    }
  }

  lemma LateAtPrefix(ttl: Lifetimes, run: seq<Action>, k: nat, session: string)
    requires k < |run| - 1
    ensures LateAt(ttl, run, k, session) <==> LateAt(ttl, run[..|run| - 1], k, session)
    ensures MintsAt(ttl, run, k, session) <==> MintsAt(ttl, run[..|run| - 1], k, session)
  {
    assert run[..|run| - 1][..k] == run[..k];
  }

  /** How the last step of a run decides whether the session is gone. */
  lemma GoneOneStep(ttl: Lifetimes, run: seq<Action>, session: string)
    requires run != []
    ensures var n := |run| - 1;
            Gone(ttl, run, session) <==>
              LateAt(ttl, run, n, session) || (Gone(ttl, run[..n], session) && !MintsAt(ttl, run, n, session))
  {
    hide LateAt, MintsAt;
    var n := |run| - 1;
    var init := run[..n];
    forall k: nat | k < n
      ensures LateAt(ttl, run, k, session) <==> LateAt(ttl, init, k, session)
      ensures MintsAt(ttl, run, k, session) <==> MintsAt(ttl, init, k, session)
    {
      LateAtPrefix(ttl, run, k, session);
    }
    if LateAt(ttl, run, n, session) {
      assert NoMintAfter(ttl, run, n, session);
    } else if Gone(ttl, init, session) && !MintsAt(ttl, run, n, session) {
      var k: nat :| LateAt(ttl, init, k, session) && NoMintAfter(ttl, init, k, session);
      LateAtIsInside(ttl, init, k, session);
      assert LateAt(ttl, run, k, session) && NoMintAfter(ttl, run, k, session);
    } else if Gone(ttl, run, session) {
      var k: nat :| LateAt(ttl, run, k, session) && NoMintAfter(ttl, run, k, session);
      LateAtIsInside(ttl, run, k, session);
    }
  }

  lemma LateAtIsInside(ttl: Lifetimes, run: seq<Action>, k: nat, session: string)
    requires LateAt(ttl, run, k, session)
    ensures k < |run|
  {
  }

  /** The session table is the sessions minted and not gone, for any clock and any
      tokens. */
  lemma {:induction false} SessionsFollowHistory(ttl: Lifetimes, run: seq<Action>, session: string)
    requires session != ""
    ensures session in Run(ttl, run).sessions <==> Touched(ttl, run, session).Some? && !Gone(ttl, run, session)
  {
    hide Gone;
    if run != [] {
      var n := |run| - 1;
      var init := run[..n];
      SessionsFollowHistory(ttl, init, session);
      SessionsFollowTouches(ttl, init, session);
      GoneOneStep(ttl, run, session);
      match run[n]
      case Redeem(claim, _, _, _) =>
        if claim != "" {
          ClaimsFollowLeases(ttl, init, claim);
        }
      case _ =>
    }
  }

  /** With a clock that does not go back, a session that is gone has expired by the
      last reading. */
  lemma {:induction false} GoneHaveExpired(ttl: Lifetimes, run: seq<Action>, start: real, session: string)
    requires Forward(run, start)
    ensures Gone(ttl, run, session) ==>
              && Touched(ttl, run, session).Some?
              && Touched(ttl, run, session).value + ttl.session < LastReading(run, start)
  {
    hide Gone;
    if run == [] {
      NothingIsGone(ttl, session);
    } else {
      GoneHaveExpired(ttl, run[..|run| - 1], start, session);
      GoneOneStep(ttl, run, session);
    }
  }

  lemma NothingIsGone(ttl: Lifetimes, session: string)
    ensures !Gone(ttl, [], session)
  {
  }

  /** Claims: a redemption mints exactly when the lease is outstanding and within
      its lifetime, for any clock and any tokens. */
  lemma RedemptionFollowsHistory(ttl: Lifetimes, run: seq<Action>, a: Action)
    requires a.Redeem?
    ensures Succeeds(ttl, run, a) <==> Honoured(ttl, run, a.claim, a.checkedAt)
  {
    if a.claim != "" {
      ClaimsFollowLeases(ttl, run, a.claim);
    }
  }

  /** Sessions: for any clock and any tokens, validation succeeds exactly when the
      session is within its lifetime of its mint or last success and has not been
      seen past it since the mint. */
  lemma ValidationFollowsFullHistory(ttl: Lifetimes, run: seq<Action>, a: Action)
    requires a.Validate?
    ensures Succeeds(ttl, run, a) <==> Fresh(ttl, run, a.session, a.now) && !Gone(ttl, run, a.session)
  {
    hide Gone, Touched;
    if a.session != "" {
      SessionsFollowTouches(ttl, run, a.session);
      SessionsFollowHistory(ttl, run, a.session);
    }
  }

  /** ... so that under a clock that does not go back lazy eviction cannot be seen:
      being within the lifetime decides alone. */
  lemma ValidationFollowsHistory(ttl: Lifetimes, run: seq<Action>, start: real, a: Action)
    requires a.Validate? && Forward(run + [a], start)
    ensures Succeeds(ttl, run, a) <==> Fresh(ttl, run, a.session, a.now)
  {
    hide Gone, Touched, Succeeds;
    assert (run + [a])[..|run + [a]| - 1] == run;
    ValidationFollowsFullHistory(ttl, run, a);
    GoneHaveExpired(ttl, run, start, a.session);
  }

  /** Under any clock, validation never succeeds beyond what history allows. */
  lemma ValidationNeverExceedsHistory(ttl: Lifetimes, run: seq<Action>, a: Action)
    requires a.Validate? && Succeeds(ttl, run, a)
    ensures Fresh(ttl, run, a.session, a.now)
  {
    SessionsFollowTouches(ttl, run, a.session);
  }

  /** A clock that goes back shows the eviction: one late reading ends a session
      that history would still accept at an earlier reading. */
  lemma BackwardClockShowsEviction(ttl: Lifetimes, claim: string, session: string) returns (run: seq<Action>, a: Action)
    requires claim != "" && session != "" && ttl.claim >= 0.0 && ttl.session >= 0.0
    ensures a.Validate? && !Forward(run + [a], 0.0)
    ensures Fresh(ttl, run, a.session, a.now) && !Succeeds(ttl, run, a)
  {
    var lease, redeem := Lease(claim, 0.0), Redeem(claim, 0.0, session, 0.0);
    var late := Validate(session, ttl.session + 1.0);
    a := Validate(session, 0.0);
    run := [lease, redeem, late];
    assert [lease][..0] == [] && [lease, redeem][..1] == [lease] && run[..2] == [lease, redeem];
    assert Leased([lease], claim) == Some(0.0);
    assert Touched(ttl, [lease, redeem], session) == Some(0.0);
    assert Touched(ttl, run, session) == Some(0.0);
    assert Run(ttl, [lease]).claims == map[claim := ttl.claim];
    assert session in Run(ttl, [lease, redeem]).sessions;
    assert session !in Run(ttl, run).sessions;
    assert (run + [a])[..|run + [a]| - 1] == run;
  }

  // ---------- single use ----------

  predicate Mentions(a: Action, claim: string) {
    (a.Lease? && a.token == claim) || (a.Redeem? && a.claim == claim)
  }

  lemma {:induction false} LeasedMeans(run: seq<Action>, claim: string)
    ensures Leased(run, claim).Some? <==>
              exists k :: 0 <= k < |run| && run[k].Lease? && run[k].token == claim
                          && forall m :: k < m < |run| ==> !Mentions(run[m], claim)
    ensures forall k :: 0 <= k < |run| && run[k].Lease? && run[k].token == claim
                        && (forall m :: k < m < |run| ==> !Mentions(run[m], claim))
                        ==> Leased(run, claim) == Some(run[k].now)
  {
    if run != [] {
      var n := |run| - 1;
      var init := run[..n];
      LeasedMeans(init, claim);
      if !Mentions(run[n], claim) && Leased(init, claim).Some? {
        var k :| 0 <= k < |init| && init[k].Lease? && init[k].token == claim
                 && forall m :: k < m < |init| ==> !Mentions(init[m], claim);
        assert run[k] == init[k];
        forall m | k < m < |run|
          ensures !Mentions(run[m], claim)
        {
          if m < n {
            assert run[m] == init[m];
          }
        }
      }
    }
  }

  /** Any attempt, successful or not, consumes the claim: a redemption that mints
      after an earlier attempt with the same claim needs a new lease in between, and
      comes within that lease's lifetime.  So a lease mints at most one session. */
  lemma AttemptConsumesClaim(ttl: Lifetimes, run: seq<Action>, i: nat, j: nat)
    requires i < j < |run| && run[i].Redeem? && run[j].Redeem? && run[i].claim == run[j].claim
    requires Succeeds(ttl, run[..j], run[j])
    ensures exists k :: i < k < j && run[k].Lease? && run[k].token == run[j].claim
                        && run[j].checkedAt <= run[k].now + ttl.claim
  {
    var claim, before := run[j].claim, run[..j];
    RedemptionFollowsHistory(ttl, before, run[j]);
    LeasedMeans(before, claim);
    var k :| 0 <= k < |before| && before[k].Lease? && before[k].token == claim
             && forall m :: k < m < |before| ==> !Mentions(before[m], claim);
    assert before[i] == run[i] && Mentions(before[i], claim);
    assert before[k] == run[k];
  }
}
