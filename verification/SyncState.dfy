/** The per-connection state of the auto-fetch scheduler: a daily request
    budget, a minimum interval between syncs and a 200-entry dedup window, and
    what the three decisions taken from it guarantee over every run. */
module SyncState {
  import opened Sequences

  const MICROS_PER_SECOND := 1_000_000
  const MICROS_PER_DAY := 86_400 * MICROS_PER_SECOND
  const DEDUP_WINDOW := 200
  const DEFAULT_TICK_SECS := 1200
  const NEVER_SECS := 0x8000_0000

  /** An aware clock reading: microseconds of UTC and the zone's offset. */
  datatype DateTime = DateTime(instant: int, offset: int)

  /** The calendar day of the reading in its own zone (`/` rounds down here). */
  function Date(t: DateTime): int {
    (t.instant + t.offset) / MICROS_PER_DAY
  }

  datatype State = State(
    connectorId: string,
    connectionId: string,
    lastSyncAt: Option<DateTime>,
    cursor: Option<string>,
    dailyUsed: nat,
    windowDate: Option<int>,
    dedup: seq<string>)

  function Unsynced(connectorId: string, connectionId: string): State {
    State(connectorId, connectionId, None, None, 0, None, [])
  }

  function WithSync(s: State, now: DateTime, newCursor: Option<string>, newHashes: seq<string>): State {
    var today := Date(now);
    s.(lastSyncAt := Some(now),
       cursor := if newCursor.Some? && newCursor.value != "" then newCursor else s.cursor,
       dailyUsed := if s.windowDate == Some(today) then s.dailyUsed + 1 else 1,
       windowDate := Some(today),
       dedup := TakeLast(Dedup(s.dedup + newHashes), DEDUP_WINDOW))
  }

  predicate BudgetExhausted(s: State, dailyBudget: int, now: DateTime) {
    s.windowDate == Some(Date(now)) && s.dailyUsed >= dailyBudget
  }

  predicate IntervalElapsed(s: State, intervalSecs: int, now: DateTime) {
    s.lastSyncAt.None? || now.instant - s.lastSyncAt.value.instant >= intervalSecs * MICROS_PER_SECOND
  }

  function NamedInterval(interval: string): int {
    if interval == "manual_only" then 0
    else if interval == "hourly" then 3600
    else if interval == "daily" then 86400
    else if interval == "weekly" then 604800
    else DEFAULT_TICK_SECS
  }

  function EffectiveIntervalSecs(providerMin: int, interval: string): int {
    var named := NamedInterval(interval);
    if named == 0 then NEVER_SECS
    else if providerMin >= named then providerMin else named
  }

  /** The provider minimum is a floor except for a manual-only source whose
      minimum lies beyond the "never" constant. */
  lemma ProviderMinimumIsFloor(providerMin: int, interval: string)
    ensures EffectiveIntervalSecs(providerMin, interval) >= providerMin
            <==> !(interval == "manual_only" && providerMin > NEVER_SECS)
    ensures providerMin >= 60 ==> EffectiveIntervalSecs(providerMin, interval) >= 60
  {
  }

  /** What the named intervals are, next to a day of the clock, when the provider
      asks for no more; otherwise the provider's own minimum is in force. */
  lemma NamedIntervalsAreTheirSpans(providerMin: int, interval: string)
    ensures var secs := EffectiveIntervalSecs(providerMin, interval);
            && (interval == "hourly" && providerMin <= 3600 ==> 24 * secs * MICROS_PER_SECOND == MICROS_PER_DAY)
            && (interval == "daily" && providerMin <= 86400 ==> secs * MICROS_PER_SECOND == MICROS_PER_DAY)
            && (interval == "weekly" && providerMin <= 604800 ==> secs * MICROS_PER_SECOND == 7 * MICROS_PER_DAY)
            && (interval == "manual_only" ==> secs == 0x8000_0000)
            && (interval !in {"hourly", "daily", "weekly", "manual_only"} && providerMin <= 1200 ==>
                72 * secs * MICROS_PER_SECOND == MICROS_PER_DAY)
            && (interval == "hourly" && providerMin > 3600 ==> secs == providerMin)
            && (interval == "daily" && providerMin > 86400 ==> secs == providerMin)
            && (interval == "weekly" && providerMin > 604800 ==> secs == providerMin)
            && (interval !in {"hourly", "daily", "weekly", "manual_only"} && providerMin > 1200 ==> secs == providerMin)
  {
  }

  // ---------- runs ----------

  /** One completed sync with the settings in force when it was allowed. */
  datatype Sync = Sync(now: DateTime, budget: int, interval: int, cursor: Option<string>, hashes: seq<string>)

  function After(s: State, syncs: seq<Sync>): State {
    if syncs == [] then s
    else
      var e := syncs[|syncs| - 1];
      WithSync(After(s, syncs[..|syncs| - 1]), e.now, e.cursor, e.hashes)
  }

  predicate Allowed(s: State, e: Sync) {
    !BudgetExhausted(s, e.budget, e.now) && IntervalElapsed(s, e.interval, e.now)
  }

  /** Every sync passed both guards in the state its predecessors left, under
      settings a provider configuration can hold. */
  predicate Gated(s: State, syncs: seq<Sync>) {
    syncs == [] ||
    var init, e := syncs[..|syncs| - 1], syncs[|syncs| - 1];
    Gated(s, init) && Allowed(After(s, init), e) && e.budget >= 1 && e.interval >= 60
  }

  predicate IsUnsynced(s: State) {
    s.lastSyncAt.None? && s.windowDate.None? && s.dedup == []
  }

  lemma {:induction false} GatedPrefix(s: State, syncs: seq<Sync>, n: nat)
    requires Gated(s, syncs) && n <= |syncs|
    ensures Gated(s, syncs[..n])
  {
    if n == |syncs| {
      assert syncs[..n] == syncs;
    } else {
      GatedPrefix(s, syncs[..|syncs| - 1], n);
      assert syncs[..|syncs| - 1][..n] == syncs[..n];
    }
  }

  lemma OneMoreSync(s: State, syncs: seq<Sync>, e: Sync)
    ensures After(s, syncs + [e]) == WithSync(After(s, syncs), e.now, e.cursor, e.hashes)
    ensures Gated(s, syncs + [e])
            <==> Gated(s, syncs) && Allowed(After(s, syncs), e) && e.budget >= 1 && e.interval >= 60
  {
  }

  predicate OffersCursor(e: Sync, cursor: string) {
    e.cursor == Some(cursor) && cursor != ""
  }

  /** A cursor once stored is the last non-empty one offered: later pages without
      one do not lose it. */
  lemma {:induction false} CursorIsLastOffered(s: State, syncs: seq<Sync>, i: nat, cursor: string)
    requires i < |syncs| && OffersCursor(syncs[i], cursor)
    requires forall j :: i < j < |syncs| ==> syncs[j].cursor == None || syncs[j].cursor == Some("")
    ensures After(s, syncs).cursor == Some(cursor)
  {
    if i < |syncs| - 1 {
      CursorIsLastOffered(s, syncs[..|syncs| - 1], i, cursor);
    }
  }

  // ---------- the daily budget ----------

  /** How many syncs at the end of the run carry the date of the last one. */
  function TrailingBlock(syncs: seq<Sync>): nat {
    var n := |syncs|;
    if n == 0 then 0
    else if n == 1 || Date(syncs[n - 2].now) != Date(syncs[n - 1].now) then 1
    else TrailingBlock(syncs[..n - 1]) + 1
  }

  function CountOn(syncs: seq<Sync>, day: int): nat {
    if syncs == [] then 0
    else CountOn(syncs[..|syncs| - 1], day) + if Date(syncs[|syncs| - 1].now) == day then 1 else 0
  }

  /** What the stored counters mean after any run, whatever the zones. */
  lemma {:induction false} CountersMeanTrailingBlock(s: State, syncs: seq<Sync>)
    requires IsUnsynced(s) && syncs != []
    ensures var a := After(s, syncs);
            var last := syncs[|syncs| - 1].now;
            && a.lastSyncAt == Some(last)
            && a.windowDate == Some(Date(last))
            && a.dailyUsed == TrailingBlock(syncs)
  {
    if |syncs| > 1 {
      CountersMeanTrailingBlock(s, syncs[..|syncs| - 1]);
    }
  }

  /** The run ends on this date, with its budget spent by the block of syncs there. */
  predicate Spent(syncs: seq<Sync>, budget: int, now: DateTime) {
    syncs != [] && Date(syncs[|syncs| - 1].now) == Date(now) && TrailingBlock(syncs) >= budget
  }

  /** Less than the interval has passed since the last sync of the run. */
  predicate Early(syncs: seq<Sync>, interval: int, now: DateTime) {
    syncs != [] && now.instant - syncs[|syncs| - 1].now.instant < interval * MICROS_PER_SECOND
  }

  /** What the two guards let through, read off the history, in any zones. */
  lemma GuardsFollowHistory(s: State, syncs: seq<Sync>, e: Sync)
    requires IsUnsynced(s)
    ensures BudgetExhausted(After(s, syncs), e.budget, e.now) <==> Spent(syncs, e.budget, e.now)
    ensures IntervalElapsed(After(s, syncs), e.interval, e.now) <==> !Early(syncs, e.interval, e.now)
    ensures Allowed(After(s, syncs), e) <==> !Spent(syncs, e.budget, e.now) && !Early(syncs, e.interval, e.now)
  {
    if syncs != [] {
      CountersMeanTrailingBlock(s, syncs);
    }
  }

  /** With clocks in any mix of zones: no uninterrupted block of syncs that share
      a calendar date is longer than the budget in force at its last sync. */
  lemma {:induction false} BlockWithinBudget(s: State, syncs: seq<Sync>, i: nat)
    requires IsUnsynced(s) && Gated(s, syncs) && i < |syncs|
    ensures TrailingBlock(syncs[..i + 1]) <= syncs[i].budget
  {
    GatedPrefix(s, syncs, i + 1);
    var run := syncs[..i + 1];
    assert run[..|run| - 1] == syncs[..i];
    if i > 0 {
      CountersMeanTrailingBlock(s, syncs[..i]);
    }
  }

  lemma {:induction false} IntervalSeparates(s: State, syncs: seq<Sync>, j: nat)
    requires IsUnsynced(s) && Gated(s, syncs) && 0 < j < |syncs|
    ensures syncs[j].now.instant - syncs[j - 1].now.instant >= syncs[j].interval * MICROS_PER_SECOND
    ensures syncs[j].interval >= 60
  {
    GatedPrefix(s, syncs, j + 1);
    var run := syncs[..j + 1];
    assert run[..|run| - 1] == syncs[..j];
    CountersMeanTrailingBlock(s, syncs[..j]);
  }

  /** The interval guard alone makes sync times increase, however the clock
      moves between ticks. */
  lemma {:induction false} SyncTimesIncrease(s: State, syncs: seq<Sync>, i: nat, j: nat)
    requires IsUnsynced(s) && Gated(s, syncs) && i < j < |syncs|
    ensures syncs[j].now.instant - syncs[i].now.instant >= syncs[j].interval * MICROS_PER_SECOND
    ensures syncs[i].now.instant < syncs[j].now.instant
    decreases j
  {
    hide Gated, IsUnsynced;
    IntervalSeparates(s, syncs, j);
    if i < j - 1 {
      SyncTimesIncrease(s, syncs, i, j - 1);
    }
  }

  lemma {:induction false} CountOnOtherDays(syncs: seq<Sync>, day: int)
    requires forall i :: 0 <= i < |syncs| ==> Date(syncs[i].now) != day
    ensures CountOn(syncs, day) == 0
  {
    if syncs != [] {
      CountOnOtherDays(syncs[..|syncs| - 1], day);
    }
  }

  /** No sync comes back to a calendar date after one on another date. */
  predicate DaysNeverReturn(syncs: seq<Sync>) {
    forall i, j, k :: 0 <= i < j < k < |syncs| && Date(syncs[i].now) == Date(syncs[k].now) ==>
      Date(syncs[j].now) == Date(syncs[k].now)
  }

  lemma {:induction false} DayIsTrailingBlock(syncs: seq<Sync>)
    requires DaysNeverReturn(syncs) && syncs != []
    ensures CountOn(syncs, Date(syncs[|syncs| - 1].now)) == TrailingBlock(syncs)
  {
    hide Date;
    var n := |syncs|;
    var init, day := syncs[..n - 1], Date(syncs[n - 1].now);
    if n > 1 {
      if Date(syncs[n - 2].now) == day {
        DayIsTrailingBlock(init);
      } else {
        CountOnOtherDays(init, day);
      }
    }
  }

  /** At every sync the syncs of that calendar day so far, itself included, are
      within the budget it ran under. */
  predicate KeepsBudgets(syncs: seq<Sync>) {
    forall i :: 0 <= i < |syncs| ==> CountOn(syncs[..i + 1], Date(syncs[i].now)) <= syncs[i].budget
  }

  lemma NoReturnKeepsBudgets(s: State, syncs: seq<Sync>)
    requires IsUnsynced(s) && Gated(s, syncs) && DaysNeverReturn(syncs)
    ensures KeepsBudgets(syncs)
  {
    hide Gated, IsUnsynced, Date, CountOn, TrailingBlock;
    forall i | 0 <= i < |syncs|
      ensures CountOn(syncs[..i + 1], Date(syncs[i].now)) <= syncs[i].budget
    {
      BlockWithinBudget(s, syncs, i);
      DayIsTrailingBlock(syncs[..i + 1]);
    }
  }

  /** From one sync to the next the zone's offset drops by at most the interval in
      force at the second: a daylight saving change under an hourly interval does. */
  predicate OffsetsWithinIntervals(syncs: seq<Sync>) {
    forall i :: 0 < i < |syncs| ==>
      syncs[i - 1].now.offset - syncs[i].now.offset <= syncs[i].interval * MICROS_PER_SECOND
  }

  lemma LaterIsNoEarlierDay(a: DateTime, b: DateTime)
    requires a.instant + a.offset <= b.instant + b.offset
    ensures Date(a) <= Date(b)
  {
  }

  lemma {:induction false} DatesIncrease(s: State, syncs: seq<Sync>, i: nat, j: nat)
    requires IsUnsynced(s) && Gated(s, syncs) && OffsetsWithinIntervals(syncs) && i <= j < |syncs|
    ensures Date(syncs[i].now) <= Date(syncs[j].now)
    decreases j
  {
    hide Gated, IsUnsynced, Date;
    if i < j {
      DatesIncrease(s, syncs, i, j - 1);
      IntervalSeparates(s, syncs, j);
      LaterIsNoEarlierDay(syncs[j - 1].now, syncs[j].now);
    }
  }

  /** Clocks in zones whose offset never drops by more than the interval: at every
      sync the syncs of that calendar day so far are within the budget it ran under. */
  lemma DailyBudgetHolds(s: State, syncs: seq<Sync>)
    requires IsUnsynced(s) && Gated(s, syncs) && OffsetsWithinIntervals(syncs)
    ensures KeepsBudgets(syncs)
  {
    hide Gated, IsUnsynced, Date, KeepsBudgets, OffsetsWithinIntervals;
    forall i, j, k | 0 <= i < j < k < |syncs| && Date(syncs[i].now) == Date(syncs[k].now)
      ensures Date(syncs[j].now) == Date(syncs[k].now)
    {
      DatesIncrease(s, syncs, i, j);
      DatesIncrease(s, syncs, j, k);
    }
    NoReturnKeepsBudgets(s, syncs);
  }

  lemma {:induction false} BudgetsBoundEveryDay(syncs: seq<Sync>, budget: nat, day: int)
    requires KeepsBudgets(syncs)
    requires forall i :: 0 <= i < |syncs| ==> syncs[i].budget <= budget
    ensures CountOn(syncs, day) <= budget
  {
    hide Date;
    if syncs != [] {
      var n := |syncs|;
      assert syncs[..n] == syncs;
      if Date(syncs[n - 1].now) != day {
        var init := syncs[..n - 1];
        forall i | 0 <= i < n - 1
          ensures CountOn(init[..i + 1], Date(init[i].now)) <= init[i].budget
        {
          assert init[..i + 1] == syncs[..i + 1];
        }
        BudgetsBoundEveryDay(init, budget, day);
      }
    }
  }

  lemma DailyBudgetBoundsEveryDay(s: State, syncs: seq<Sync>, budget: nat, day: int)
    requires IsUnsynced(s) && Gated(s, syncs) && OffsetsWithinIntervals(syncs)
    requires forall i :: 0 <= i < |syncs| ==> syncs[i].budget <= budget
    ensures CountOn(syncs, day) <= budget
  {
    hide Gated, IsUnsynced, KeepsBudgets, OffsetsWithinIntervals, CountOn;
    DailyBudgetHolds(s, syncs);
    BudgetsBoundEveryDay(syncs, budget, day);
  }

  // ---------- ... and exactly which offsets it needs ----------

  /** Every offset lies in the range, every interval is at least `least`. */
  predicate Over(syncs: seq<Sync>, low: int, high: int, least: int) {
    forall i :: 0 <= i < |syncs| ==> low <= syncs[i].now.offset <= high && syncs[i].interval >= least
  }

  /** How far apart offsets may be, in microseconds: one interval, or two intervals
      less a day when that is more (intervals longer than a day). */
  function Allowance(interval: int): int {
    var gap := interval * MICROS_PER_SECOND;
    if gap <= MICROS_PER_DAY then gap else 2 * gap - MICROS_PER_DAY
  }

  lemma ADayLaterIsAnotherDay(a: DateTime, b: DateTime)
    requires b.instant + b.offset >= a.instant + a.offset + MICROS_PER_DAY
    ensures Date(a) != Date(b)
  {
  }

  /** Two intervals carry a sync past the day it could return to. */
  lemma LongIntervalsNeverReturn(s: State, syncs: seq<Sync>, low: int, high: int, least: int)
    requires IsUnsynced(s) && Gated(s, syncs) && Over(syncs, low, high, least)
    requires high - low <= 2 * least * MICROS_PER_SECOND - MICROS_PER_DAY
    ensures DaysNeverReturn(syncs)
  {
    hide Gated, IsUnsynced, Date;
    forall i, k | 0 <= i && i + 1 < k < |syncs|
      ensures Date(syncs[i].now) != Date(syncs[k].now)
    {
      SyncTimesIncrease(s, syncs, i, i + 1);
      SyncTimesIncrease(s, syncs, i + 1, k);
      ADayLaterIsAnotherDay(syncs[i].now, syncs[k].now);
    }
  }

  /** A sync at midnight of the higher offset, one that the lower offset puts back
      into the day before, and one that returns. */
  function ReturningRun(high: int, low: int, interval: int): seq<Sync> {
    var gap := interval * MICROS_PER_SECOND;
    var back := DateTime(gap - high, low);
    var wait := if 2 * gap >= high - low then gap else high - low - gap;
    [Sync(DateTime(-high, high), 1, interval, None, []),
     Sync(back, 1, interval, None, []),
     Sync(back.(instant := back.instant + wait), 1, interval, None, [])]
  }

  lemma ReturnBreaksBudget(s: State, high: int, low: int, interval: int)
    requires IsUnsynced(s) && interval >= 60 && high - low > Allowance(interval)
    ensures var run := ReturningRun(high, low, interval);
            && Gated(s, run) && Over(run, low, high, interval) && !KeepsBudgets(run)
  {
    hide KeepsBudgets;
    var run := ReturningRun(high, low, interval);
    var a, b, c := run[0], run[1], run[2];
    assert Date(a.now) == 0 && Date(b.now) < 0 && Date(c.now) == 0;
    assert [] + [a] == [a] && [a] + [b] == [a, b] && [a, b] + [c] == run;
    ThreeSyncsAreGated(s, a, b, c);
    ReturnCountsTwice(run);
  }

  lemma ThreeSyncsAreGated(s: State, a: Sync, b: Sync, c: Sync)
    requires IsUnsynced(s)
    requires a.budget == b.budget == c.budget == 1 && a.interval == b.interval == c.interval >= 60
    requires Date(a.now) != Date(b.now) && Date(b.now) != Date(c.now)
    requires b.now.instant - a.now.instant >= a.interval * MICROS_PER_SECOND
    requires c.now.instant - b.now.instant >= a.interval * MICROS_PER_SECOND
    ensures Gated(s, [a, b, c])
  {
    hide Date, Dedup, TakeLast;
    assert [] + [a] == [a] && [a] + [b] == [a, b] && [a, b] + [c] == [a, b, c];
    OneMoreSync(s, [], a);
    OneMoreSync(s, [a], b);
    OneMoreSync(s, [a, b], c);
  }

  lemma ReturnCountsTwice(run: seq<Sync>)
    requires |run| == 3 && run[2].budget == 1 && Date(run[0].now) == Date(run[2].now)
    ensures !KeepsBudgets(run)
  {
    hide Date;
    var day := Date(run[2].now);
    assert run[..3] == run && run[..2][..1] == run[..1];
    assert CountOn(run[..1], day) == 1 && CountOn(run[..2], day) >= 1;
    assert CountOn(run[..3], day) == CountOn(run[..2], day) + 1;
  }

  /** The exact condition on the zones: every gated run over a range of offsets and
      intervals of at least `least` keeps its daily budgets if and only if the range
      is no wider than the allowance.  If it is wider, its two ends are enough for a
      run that returns to a date whose counter has started again, and syncs twice on
      it under budget 1. */
  lemma BudgetsHoldIffOffsetsClose(s: State, low: int, high: int, least: int)
    requires IsUnsynced(s) && least >= 60
    ensures (forall syncs :: Gated(s, syncs) && Over(syncs, low, high, least) ==> KeepsBudgets(syncs))
            <==> high - low <= Allowance(least)
  {
    hide Gated, IsUnsynced, KeepsBudgets;
    if high - low <= Allowance(least) {
      forall syncs | Gated(s, syncs) && Over(syncs, low, high, least)
        ensures KeepsBudgets(syncs)
      {
        if high - low <= least * MICROS_PER_SECOND {
          DailyBudgetHolds(s, syncs);
        } else {
          LongIntervalsNeverReturn(s, syncs, low, high, least);
          NoReturnKeepsBudgets(s, syncs);
        }
      }
    } else {
      ReturnBreaksBudget(s, high, low, least);
    }
  }

  // ---------- the rate bound ----------

  function CountBetween(syncs: seq<Sync>, from: int, to: int): nat {
    if syncs == [] then 0
    else CountBetween(syncs[..|syncs| - 1], from, to)
         + if from <= syncs[|syncs| - 1].now.instant <= to then 1 else 0
  }

  lemma {:induction false} CountBeforeWindow(syncs: seq<Sync>, from: int, to: int)
    requires forall i :: 0 <= i < |syncs| ==> syncs[i].now.instant < from
    ensures CountBetween(syncs, from, to) == 0
  {
    if syncs != [] {
      CountBeforeWindow(syncs[..|syncs| - 1], from, to);
    }
  }

  /** k gaps laid end to end. */
  function Gaps(k: nat, gap: nat): nat {
    if k == 0 then 0 else Gaps(k - 1, gap) + gap
  }

  lemma {:induction false} GapsMultiply(k: nat, gap: nat)
    ensures Gaps(k, gap) == k * gap
  {
    if k > 0 {
      GapsMultiply(k - 1, gap);
      assert (k - 1) * gap + gap == k * gap;
    }
  }

  lemma {:induction false} SpacedSyncsSpreadOut(s: State, syncs: seq<Sync>, gap: nat, from: int, to: int)
    requires IsUnsynced(s) && Gated(s, syncs)
    requires forall i {:trigger syncs[i]} :: 0 <= i < |syncs| ==> syncs[i].interval * MICROS_PER_SECOND >= gap
    ensures var c := CountBetween(syncs, from, to);
            c == 0 || from + Gaps(c - 1, gap) <= to
    ensures var c := CountBetween(syncs, from, to);
            syncs != [] && from <= syncs[|syncs| - 1].now.instant ==>
              c == 0 || from + Gaps(c - 1, gap) <= syncs[|syncs| - 1].now.instant
  {
    hide After, Allowed, IsUnsynced;
    if syncs != [] {
      var n := |syncs|;
      var init, t := syncs[..n - 1], syncs[n - 1].now.instant;
      SpacedSyncsSpreadOut(s, init, gap, from, to);
      if n > 1 {
        IntervalSeparates(s, syncs, n - 1);
        if syncs[n - 2].now.instant < from {
          NothingBeforeWindow(s, syncs, from, to);
        }
      }
    }
  }

  lemma NothingBeforeWindow(s: State, syncs: seq<Sync>, from: int, to: int)
    requires IsUnsynced(s) && Gated(s, syncs) && |syncs| > 1 && syncs[|syncs| - 2].now.instant < from
    ensures CountBetween(syncs[..|syncs| - 1], from, to) == 0
  {
    hide Gated, IsUnsynced;
    var n := |syncs|;
    var init := syncs[..n - 1];
    forall i | 0 <= i < |init|
      ensures init[i].now.instant < from
    {
      if i < n - 2 {
        SyncTimesIncrease(s, syncs, i, n - 2);
      }
    }
    CountBeforeWindow(init, from, to);
  }

  /** Any closed window of `span` microseconds contains at most span/gap + 1
      syncs when every interval in force is at least the gap. */
  lemma RateBound(s: State, syncs: seq<Sync>, gap: nat, from: int, span: nat)
    requires IsUnsynced(s) && Gated(s, syncs) && gap > 0
    requires forall i {:trigger syncs[i]} :: 0 <= i < |syncs| ==> syncs[i].interval * MICROS_PER_SECOND >= gap
    ensures CountBetween(syncs, from, from + span) <= span / gap + 1
  {
    hide Gated, CountBetween, IsUnsynced;
    var c := CountBetween(syncs, from, from + span);
    assert c == 0 || Gaps(c - 1, gap) <= span by {
      SpacedSyncsSpreadOut(s, syncs, gap, from, from + span);
    }
    if c > 0 {
      GapsMultiply(c - 1, gap);
      QuotientBound(c - 1, gap, span);
    }
  }

  lemma QuotientBound(k: nat, gap: nat, span: nat)
    requires gap > 0
    ensures k * gap <= span ==> k <= span / gap
  {
    var q := span / gap;
    assert span < q * gap + gap;
    if k > q {
      assert k * gap >= (q + 1) * gap;
    }
  }

  /** A manual-only source still syncs once, but never twice within any span
      shorter than 2^31 seconds. */
  lemma ManualOnlySyncsAtMostOnce(s: State, syncs: seq<Sync>, from: int, span: nat)
    requires IsUnsynced(s) && Gated(s, syncs)
    requires forall i :: 0 <= i < |syncs| ==> exists m :: syncs[i].interval == EffectiveIntervalSecs(m, "manual_only")
    requires span < NEVER_SECS * MICROS_PER_SECOND
    ensures CountBetween(syncs, from, from + span) <= 1
  {
    hide Gated, CountBetween, IsUnsynced;
    RateBound(s, syncs, NEVER_SECS * MICROS_PER_SECOND, from, span);
  }

  // ---------- the dedup window ----------

  function AllHashes(syncs: seq<Sync>): seq<string> {
    if syncs == [] then [] else AllHashes(syncs[..|syncs| - 1]) + syncs[|syncs| - 1].hashes
  }

  /** Everything ever entered into the window, oldest first: each sync appends
      the hashes of its batch that the window did not hold, once each. */
  function EntryLog(s: State, syncs: seq<Sync>): seq<string> {
    if syncs == [] then []
    else
      var init := syncs[..|syncs| - 1];
      EntryLog(s, init) + Fresh(After(s, init).dedup, syncs[|syncs| - 1].hashes)
  }

  lemma EntryLogOneMore(s: State, syncs: seq<Sync>, e: Sync)
    ensures EntryLog(s, syncs + [e]) == EntryLog(s, syncs) + Fresh(After(s, syncs).dedup, e.hashes)
  {
    assert (syncs + [e])[..|syncs|] == syncs;
  }

  /** The window is a FIFO queue of capacity 200 over the entry log. */
  lemma {:induction false} WindowIsFifo(s: State, syncs: seq<Sync>)
    requires IsUnsynced(s)
    ensures var w := After(s, syncs).dedup;
            && NoDuplicates(w)
            && |w| <= 200
            && w == TakeLast(EntryLog(s, syncs), 200)
  {
    if syncs != [] {
      var init, e := syncs[..|syncs| - 1], syncs[|syncs| - 1];
      WindowIsFifo(s, init);
      var w := After(s, init).dedup;
      DedupOfAppend(w, e.hashes);
      DedupOfDistinct(w);
      TakeLastOfAppend(EntryLog(s, init), Fresh(w, e.hashes), DEDUP_WINDOW);
    }
  }

  /** The window equals the plain first-occurrence dedup of every hash ever
      offered exactly while at most 200 distinct ones were. */
  lemma {:induction false} WindowIsPlainDedup(s: State, syncs: seq<Sync>)
    requires IsUnsynced(s)
    ensures After(s, syncs).dedup == Dedup(AllHashes(syncs)) <==> |Dedup(AllHashes(syncs))| <= 200
  {
    WindowIsFifo(s, syncs);
    if syncs != [] && |Dedup(AllHashes(syncs))| <= DEDUP_WINDOW {
      var init, e := syncs[..|syncs| - 1], syncs[|syncs| - 1];
      DedupOfAppend(AllHashes(init), e.hashes);
      WindowIsPlainDedup(s, init);
      var w := After(s, init).dedup;
      DedupOfAppend(w, e.hashes);
      DedupOfDistinct(w);
    }
  }

  /** A hash leaves the window only behind 200 later, pairwise distinct other
      entries: if the log holds it at p and the window no longer does, the last
      200 entries all come after p and differ from it. */
  lemma EvictionNeedsFullWindow(s: State, syncs: seq<Sync>, p: nat)
    requires IsUnsynced(s)
    requires p < |EntryLog(s, syncs)| && EntryLog(s, syncs)[p] !in After(s, syncs).dedup
    ensures var log := EntryLog(s, syncs);
            && p < |log| - DEDUP_WINDOW
            && NoDuplicates(log[|log| - DEDUP_WINDOW..])
            && log[p] !in log[|log| - DEDUP_WINDOW..]
  {
    WindowIsFifo(s, syncs);
    var log := EntryLog(s, syncs);
    TakeLastHolds(log, DEDUP_WINDOW, p);
  }

  /** Seeing a hash again does not renew it: after any run, whether an entry of the
      window survives the next sync depends only on its place and on how many new
      hashes that sync brings, not on whether the batch contains it. */
  lemma SurvivalIsByPlace(s: State, syncs: seq<Sync>, e: Sync, p: nat)
    requires IsUnsynced(s) && p < |After(s, syncs).dedup|
    ensures var w := After(s, syncs).dedup;
            w[p] in After(s, syncs + [e]).dedup <==> p >= |w| + |Fresh(w, e.hashes)| - DEDUP_WINDOW
  {
    hide IsUnsynced;
    var w := After(s, syncs).dedup;
    assert NoDuplicates(w) by {
      WindowIsFifo(s, syncs);
    }
    OneMoreSync(s, syncs, e);
    DedupOfAppend(w, e.hashes);
    DedupOfDistinct(w);
    TakeLastHoldsOnlyLast(w + Fresh(w, e.hashes), DEDUP_WINDOW, p);
  }
}
