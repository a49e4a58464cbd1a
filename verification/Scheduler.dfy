/** The scheduler tick that drives the sync states: guards, fetch, and the
    key/value store that carries the state from tick to tick. */
module Scheduler {
  import opened Sequences
  import opened SyncState

  datatype Config = Config(syncIntervalSecs: int, dailyRequestBudget: int, autoFetchEnabled: bool) {
    predicate Valid() {
      syncIntervalSecs >= 60 && dailyRequestBudget >= 1
    }
  }

  /** The user's policy for the source. */
  datatype Policy = Policy(control: string, connectorEnabled: bool, sourceEnabled: bool, interval: string) {
    predicate Active() {
      control == "enabled" && connectorEnabled && sourceEnabled
    }
  }

  datatype Page = Page(items: seq<string>, nextCursor: Option<string>)

  /** One call of `tick`: its arguments, what the fetch pipeline returns
      (None: it raised) and whether the store accepts a write. */
  datatype Request = Request(
    connectorId: string,
    connectionId: string,
    policy: Policy,
    now: DateTime,
    fetched: Option<Page>,
    writable: bool)

  datatype Status = Synced | SkippedInterval | SkippedBudget | SkippedDisabled | ErrorSwallowed

  /** The status and the external ids of the documents handed to ingestion. */
  datatype TickResult = TickResult(status: Status, documents: seq<string>)

  datatype Stored = Saved(state: State) | Unreadable

  type Store = map<string, Stored>

  function StateKey(connectorId: string, connectionId: string): string {
    "autofetch.state." + connectorId + "." + connectionId
  }

  function Load(kv: Store, connectorId: string, connectionId: string): State {
    var key := StateKey(connectorId, connectionId);
    if key in kv && kv[key].Saved? then kv[key].state else Unsynced(connectorId, connectionId)
  }

  function Save(kv: Store, s: State, writable: bool): Store {
    if writable then kv[StateKey(s.connectorId, s.connectionId) := Saved(s)] else kv
  }

  /** The page's external ids that the window does not know. */
  function Unknown(items: seq<string>, known: seq<string>): (r: seq<string>)
    ensures forall x :: x in r <==> x in items && x !in known
  {
    if items == [] then []
    else
      var x := items[|items| - 1];
      assert items == items[..|items| - 1] + [x];
      Unknown(items[..|items| - 1], known) + if x in known then [] else [x]
  }

  /** The positions of the page whose ids the window does not know. */
  function UnknownAt(items: seq<string>, known: seq<string>): set<nat> {
    set i: nat | i < |items| && items[i] !in known
  }

  /** Each of these ids is taken, behind those of the positions before it; nothing
      else is. */
  lemma {:induction false} UnknownKeepsOrder(items: seq<string>, known: seq<string>, i: nat)
    requires i <= |items|
    ensures |Unknown(items, known)| == |UnknownAt(items, known)|
    ensures var k := |UnknownAt(items[..i], known)|;
            i < |items| && items[i] !in known ==> k < |Unknown(items, known)| && Unknown(items, known)[k] == items[i]
  {
    hide UnknownAt;
    UnknownCounts(items, known);
    if i < |items| {
      var n := |items| - 1;
      if i < n {
        UnknownKeepsOrder(items[..n], known, i);
        assert items[..n][..i] == items[..i];
      } else {
        UnknownCounts(items[..n], known);
      }
    }
  }

  lemma {:induction false} UnknownCounts(items: seq<string>, known: seq<string>)
    ensures |Unknown(items, known)| == |UnknownAt(items, known)|
  {
    hide UnknownAt;
    if items == [] {
      NothingUnknown(known);
    } else {
      UnknownCounts(items[..|items| - 1], known);
      UnknownAtOneMore(items, known);
    }
  }

  lemma NothingUnknown(known: seq<string>)
    ensures UnknownAt([], known) == {}
  {
  }

  lemma UnknownAtOneMore(items: seq<string>, known: seq<string>)
    requires items != []
    ensures var n := |items| - 1;
            && n !in UnknownAt(items[..n], known)
            && UnknownAt(items, known) == UnknownAt(items[..n], known) + if items[n] in known then {} else {n}
  {
  }

  method CanonicalizePage(items: seq<string>, known: seq<string>) returns (newIds: seq<string>)
    ensures newIds == Unknown(items, known)
  {
    newIds := [];
    for i := 0 to |items|
      invariant newIds == Unknown(items[..i], known)
    {
      assert items[..i + 1][..i] == items[..i];
      if items[i] in known {
        continue;
      }
      newIds := newIds + [items[i]];
    }
    assert items[..|items|] == items;
  }

  function AsSync(config: Config, r: Request, state: State): Sync
    requires r.fetched.Some?
  {
    Sync(r.now, config.dailyRequestBudget, EffectiveIntervalSecs(config.syncIntervalSecs, r.policy.interval),
         r.fetched.value.nextCursor, Unknown(r.fetched.value.items, state.dedup))
  }

  function Outcome(config: Option<Config>, kv: Store, r: Request): Status {
    var s := Load(kv, r.connectorId, r.connectionId);
    if config.None? || !config.value.autoFetchEnabled || !r.policy.Active() then SkippedDisabled
    else if BudgetExhausted(s, config.value.dailyRequestBudget, r.now) then SkippedBudget
    else if !IntervalElapsed(s, EffectiveIntervalSecs(config.value.syncIntervalSecs, r.policy.interval), r.now)
    then SkippedInterval
    else if r.fetched.None? then ErrorSwallowed
    else Synced
  }

  /** The store after the tick: only a completed sync writes. */
  function NextStore(config: Option<Config>, kv: Store, r: Request): Store {
    if Outcome(config, kv, r) != Synced then kv
    else
      var s := Load(kv, r.connectorId, r.connectionId);
      var e := AsSync(config.value, r, s);
      Save(kv, WithSync(s, e.now, e.cursor, e.hashes), r.writable)
  }

  class AutoFetchScheduler {
    var configs: map<string, Config>
    var kv: Store

    constructor (kv: Store, configs: map<string, Config>)
      ensures this.kv == kv && this.configs == configs
    {
      this.kv := kv;
      this.configs := configs;
    }

    function ConfigOf(connectorId: string): Option<Config>
      reads this
    {
      if connectorId in configs then Some(configs[connectorId]) else None
    }

    method RegisterConfig(connectorId: string, config: Config)
      modifies this`configs
      ensures configs == old(configs)[connectorId := config]
    {
      configs := configs[connectorId := config];
    }

    method Tick(r: Request) returns (result: TickResult)
      modifies this`kv
      ensures kv == NextStore(old(ConfigOf(r.connectorId)), old(kv), r)
      ensures result.status == Outcome(old(ConfigOf(r.connectorId)), old(kv), r)
      ensures result.documents ==
        if result.status == Synced
        then Unknown(r.fetched.value.items, Load(old(kv), r.connectorId, r.connectionId).dedup)
        else []
    {
      var config := ConfigOf(r.connectorId);
      if config.None? || !config.value.autoFetchEnabled || !r.policy.Active() {
        return TickResult(SkippedDisabled, []);
      }
      var state := Load(kv, r.connectorId, r.connectionId);
      if BudgetExhausted(state, config.value.dailyRequestBudget, r.now) {
        return TickResult(SkippedBudget, []);
      }
      var intervalSecs := EffectiveIntervalSecs(config.value.syncIntervalSecs, r.policy.interval);
      if !IntervalElapsed(state, intervalSecs, r.now) {
        return TickResult(SkippedInterval, []);
      }
      if r.fetched.None? {
        return TickResult(ErrorSwallowed, []);
      }
      var newIds := CanonicalizePage(r.fetched.value.items, state.dedup);
      var next := WithSync(state, r.now, r.fetched.value.nextCursor, newIds);
      kv := Save(kv, next, r.writable);
      return TickResult(Synced, newIds);
    }
  }

  // ---------- runs of ticks ----------

  /** A tick together with the configuration registered when it runs. */
  datatype Attempt = Attempt(config: Option<Config>, request: Request)

  function StoreAfter(kv: Store, run: seq<Attempt>): Store {
    if run == [] then kv
    else
      var a := run[|run| - 1];
      NextStore(a.config, StoreAfter(kv, run[..|run| - 1]), a.request)
  }

  /** The attempt completed a sync of this key and the store took the write. */
  predicate Persisted(kv: Store, a: Attempt, key: string) {
    && StateKey(a.request.connectorId, a.request.connectionId) == key
    && Outcome(a.config, kv, a.request) == Synced
    && a.request.writable
  }

  function PersistedSyncs(kv: Store, run: seq<Attempt>, key: string): seq<Sync> {
    if run == [] then []
    else
      var init, a := run[..|run| - 1], run[|run| - 1];
      var before := StoreAfter(kv, init);
      PersistedSyncs(kv, init, key) +
      if Persisted(before, a, key)
      then [AsSync(a.config.value, a.request, Load(before, a.request.connectorId, a.request.connectionId))]
      else []
  }

  predicate ValidConfigs(run: seq<Attempt>) {
    forall i :: 0 <= i < |run| && run[i].config.Some? ==> run[i].config.value.Valid()
  }

  /** Every readable entry is filed under the key of its own ids. */
  predicate Filed(kv: Store) {
    forall key :: key in kv && kv[key].Saved? ==> StateKey(kv[key].state.connectorId, kv[key].state.connectionId) == key
  }

  function Anonymous(s: State): State {
    s.(connectorId := "", connectionId := "")
  }

  function At(kv: Store, key: string): State {
    if key in kv && kv[key].Saved? then Anonymous(kv[key].state) else Unsynced("", "")
  }

  /** Whatever ticks other keys get, what the store holds under a key is the
      state reached by a gated run of exactly the syncs persisted for that key. */
  lemma {:induction false} StoreFollowsGatedRun(kv: Store, run: seq<Attempt>, key: string)
    requires Filed(kv) && At(kv, key) == Unsynced("", "") && ValidConfigs(run)
    ensures Filed(StoreAfter(kv, run))
    ensures At(StoreAfter(kv, run), key) == After(Unsynced("", ""), PersistedSyncs(kv, run, key))
    ensures Gated(Unsynced("", ""), PersistedSyncs(kv, run, key))
  {
    if run != [] {
      var init, a := run[..|run| - 1], run[|run| - 1];
      StoreFollowsGatedRun(kv, init, key);
      StoreStep(a.config, StoreAfter(kv, init), a.request, key);
      var syncs := PersistedSyncs(kv, init, key);
      if Persisted(StoreAfter(kv, init), a, key) {
        var s := Load(StoreAfter(kv, init), a.request.connectorId, a.request.connectionId);
        var e := AsSync(a.config.value, a.request, s);
        ProviderMinimumIsFloor(a.config.value.syncIntervalSecs, a.request.policy.interval);
        OneMoreSync(Unsynced("", ""), syncs, e);
        assert PersistedSyncs(kv, run, key) == syncs + [e];
      } else {
        assert PersistedSyncs(kv, run, key) == syncs;
      }
    }
  }

  /** A tick changes at most the entry of its own key, and that entry by one
      sync both guards allowed. */
  lemma {:induction false} StoreStep(config: Option<Config>, kv: Store, r: Request, key: string)
    requires Filed(kv)
    ensures Filed(NextStore(config, kv, r))
    ensures var persisted := Persisted(kv, Attempt(config, r), key);
            var s := At(kv, key);
            && (!persisted ==> At(NextStore(config, kv, r), key) == s)
            && (persisted ==>
                var e := AsSync(config.value, r, Load(kv, r.connectorId, r.connectionId));
                && Allowed(s, e)
                && At(NextStore(config, kv, r), key) == WithSync(s, e.now, e.cursor, e.hashes))
  {
    var s := Load(kv, r.connectorId, r.connectionId);
    if StateKey(r.connectorId, r.connectionId) == key {
      assert Anonymous(s) == At(kv, key);
    }
  }

  predicate OfKey(a: Attempt, key: string) {
    StateKey(a.request.connectorId, a.request.connectionId) == key
  }

  predicate FromAttempt(e: Sync, a: Attempt, key: string) {
    && OfKey(a, key)
    && a.config.Some? && a.request.fetched.Some?
    && e.now == a.request.now
    && e.cursor == a.request.fetched.value.nextCursor
    && e.budget == a.config.value.dailyRequestBudget
    && e.interval == EffectiveIntervalSecs(a.config.value.syncIntervalSecs, a.request.policy.interval)
  }

  lemma {:induction false} SyncsComeFromAttempts(kv: Store, run: seq<Attempt>, key: string, i: nat)
    requires i < |PersistedSyncs(kv, run, key)|
    ensures exists j :: 0 <= j < |run| && FromAttempt(PersistedSyncs(kv, run, key)[i], run[j], key)
                        && PersistedSyncs(kv, run[..j], key) == PersistedSyncs(kv, run, key)[..i]
  {
    hide FromAttempt, StateKey, NextStore, StoreAfter, Persisted, AsSync;
    var init := run[..|run| - 1];
    var before, all := PersistedSyncs(kv, init, key), PersistedSyncs(kv, run, key);
    if i < |before| {
      SyncsComeFromAttempts(kv, init, key, i);
      var j :| 0 <= j < |init| && FromAttempt(before[i], init[j], key) && PersistedSyncs(kv, init[..j], key) == before[..i];
      assert init[..j] == run[..j] && before[..i] == all[..i];
      assert FromAttempt(all[i], run[j], key);
    } else {
      LastComesFromAttempt(kv, run, key);
      assert FromAttempt(all[i], run[|run| - 1], key) && before == all[..i];
    }
  }

  lemma LastComesFromAttempt(kv: Store, run: seq<Attempt>, key: string)
    requires run != []
    ensures var before, all := PersistedSyncs(kv, run[..|run| - 1], key), PersistedSyncs(kv, run, key);
            all == before || (|all| == |before| + 1 && all[..|before|] == before
                              && FromAttempt(all[|before|], run[|run| - 1], key))
  {
    hide StateKey, NextStore, StoreAfter, EffectiveIntervalSecs, Unknown, Load, BudgetExhausted, IntervalElapsed;
  }

  /** Between any two ticks of the key the offset drops by at most the interval in
      force at the later one. */
  predicate OffsetsWithin(run: seq<Attempt>, key: string) {
    forall i, j :: 0 <= i < j < |run| && OfKey(run[i], key) && OfKey(run[j], key) && run[j].config.Some? ==>
      run[i].request.now.offset - run[j].request.now.offset
        <= EffectiveIntervalSecs(run[j].config.value.syncIntervalSecs, run[j].request.policy.interval) * MICROS_PER_SECOND
  }

  /** Then it does from one persisted sync to the next. */
  lemma PersistedOffsetsWithin(kv: Store, run: seq<Attempt>, key: string)
    requires OffsetsWithin(run, key)
    ensures OffsetsWithinIntervals(PersistedSyncs(kv, run, key))
  {
    hide StateKey, PersistedSyncs, EffectiveIntervalSecs;
    var syncs := PersistedSyncs(kv, run, key);
    forall i | 0 < i < |syncs|
      ensures syncs[i - 1].now.offset - syncs[i].now.offset <= syncs[i].interval * MICROS_PER_SECOND
    {
      SyncsComeFromAttempts(kv, run, key, i);
      var j :| 0 <= j < |run| && FromAttempt(syncs[i], run[j], key) && PersistedSyncs(kv, run[..j], key) == syncs[..i];
      SyncsComeFromAttempts(kv, run[..j], key, i - 1);
      var k :| 0 <= k < j && FromAttempt(syncs[..i][i - 1], run[..j][k], key);
      assert run[..j][k] == run[k];
    }
  }

  /** Over any run of ticks, with settings, other connections and store failures
      changing at will, the syncs persisted for a key on any one day never outnumber
      the largest daily budget its ticks ran under, when from one persisted sync to
      the next the offset drops by at most the interval. */
  lemma TicksKeepDailyBudget(kv: Store, run: seq<Attempt>, key: string, budget: nat, day: int)
    requires Filed(kv) && At(kv, key) == Unsynced("", "") && ValidConfigs(run)
    requires OffsetsWithinIntervals(PersistedSyncs(kv, run, key))
    requires forall i :: 0 <= i < |run| && OfKey(run[i], key) && run[i].config.Some? ==>
               run[i].config.value.dailyRequestBudget <= budget
    ensures CountOn(PersistedSyncs(kv, run, key), day) <= budget
  {
    hide StateKey, PersistedSyncs, StoreAfter, OffsetsWithinIntervals;
    StoreFollowsGatedRun(kv, run, key);
    var syncs := PersistedSyncs(kv, run, key);
    forall i | 0 <= i < |syncs|
      ensures syncs[i].budget <= budget
    {
      SyncsComeFromAttempts(kv, run, key, i);
    }
    DailyBudgetBoundsEveryDay(Unsynced("", ""), syncs, budget, day);
  }

  /** Over any run of ticks, a closed window of `span` microseconds holds at most
      span/gap + 1 persisted syncs of a key, when the effective intervals of its
      ticks are at least the gap. */
  lemma TicksKeepRate(kv: Store, run: seq<Attempt>, key: string, gap: nat, from: int, span: nat)
    requires Filed(kv) && At(kv, key) == Unsynced("", "") && ValidConfigs(run) && gap > 0
    requires forall i :: 0 <= i < |run| && OfKey(run[i], key) && run[i].config.Some? ==>
               EffectiveIntervalSecs(run[i].config.value.syncIntervalSecs, run[i].request.policy.interval)
                 * MICROS_PER_SECOND >= gap
    ensures CountBetween(PersistedSyncs(kv, run, key), from, from + span) <= span / gap + 1
  {
    StoreFollowsGatedRun(kv, run, key);
    var syncs := PersistedSyncs(kv, run, key);
    forall i | 0 <= i < |syncs|
      ensures syncs[i].interval * MICROS_PER_SECOND >= gap
    {
      SyncsComeFromAttempts(kv, run, key, i);
    }
    RateBound(Unsynced("", ""), syncs, gap, from, span);
  }

  /** A document that an earlier persisted sync entered into the log is handed to
      ingestion again only after 200 pairwise distinct other ids were entered
      behind it. */
  lemma ReingestionNeedsFullWindow(kv: Store, run: seq<Attempt>, config: Option<Config>, r: Request, x: string, p: nat)
    requires Filed(kv) && ValidConfigs(run)
    requires At(kv, StateKey(r.connectorId, r.connectionId)) == Unsynced("", "")
    requires Outcome(config, StoreAfter(kv, run), r) == Synced
    requires x in Unknown(r.fetched.value.items, Load(StoreAfter(kv, run), r.connectorId, r.connectionId).dedup)
    requires var log := EntryLog(Unsynced("", ""), PersistedSyncs(kv, run, StateKey(r.connectorId, r.connectionId)));
             p < |log| && log[p] == x
    ensures var log := EntryLog(Unsynced("", ""), PersistedSyncs(kv, run, StateKey(r.connectorId, r.connectionId)));
            && p < |log| - DEDUP_WINDOW
            && NoDuplicates(log[|log| - DEDUP_WINDOW..])
            && x !in log[|log| - DEDUP_WINDOW..]
  {
    var key := StateKey(r.connectorId, r.connectionId);
    StoreFollowsGatedRun(kv, run, key);
    EvictionNeedsFullWindow(Unsynced("", ""), PersistedSyncs(kv, run, key), p);
  }

  /** What the next tick answers, read off the syncs persisted for its key so far:
      each status is the first of these facts that fails, in this order. */
  lemma TickAnswersFromHistory(kv: Store, run: seq<Attempt>, config: Option<Config>, r: Request)
    requires Filed(kv) && ValidConfigs(run)
    requires At(kv, StateKey(r.connectorId, r.connectionId)) == Unsynced("", "")
    ensures var syncs := PersistedSyncs(kv, run, StateKey(r.connectorId, r.connectionId));
            var enabled := && config.Some? && config.value.autoFetchEnabled
                           && r.policy.control == "enabled" && r.policy.connectorEnabled && r.policy.sourceEnabled;
            var spent := enabled && Spent(syncs, config.value.dailyRequestBudget, r.now);
            var early := enabled && Early(syncs, EffectiveIntervalSecs(config.value.syncIntervalSecs, r.policy.interval),
                                          r.now);
            Outcome(config, StoreAfter(kv, run), r)
            == [SkippedDisabled, SkippedBudget, SkippedInterval, ErrorSwallowed, Synced]
                 [FirstFalse([enabled, !spent, !early, r.fetched.Some?])]
  {
    hide StateKey, EffectiveIntervalSecs, Spent, Early, BudgetExhausted, IntervalElapsed, NextStore, StoreAfter, FirstFalse;
    var key := StateKey(r.connectorId, r.connectionId);
    StoreFollowsGatedRun(kv, run, key);
    var syncs, store := PersistedSyncs(kv, run, key), StoreAfter(kv, run);
    var state := Load(store, r.connectorId, r.connectionId);
    if config.Some? {
      var budget := config.value.dailyRequestBudget;
      var secs := EffectiveIntervalSecs(config.value.syncIntervalSecs, r.policy.interval);
      GuardsFollowHistory(Unsynced("", ""), syncs, Sync(r.now, budget, secs, None, []));
      GuardsIgnoreIds(state, budget, secs, r.now);
      assert Anonymous(state) == At(store, key);
      FirstFalseOfFour(config.value.autoFetchEnabled && r.policy.Active(), !Spent(syncs, budget, r.now),
                       !Early(syncs, secs, r.now), r.fetched.Some?);
      FirstFalseOfFour(false, true, true, r.fetched.Some?);
    } else {
      FirstFalseOfFour(false, true, true, r.fetched.Some?);
    }
  }

  lemma GuardsIgnoreIds(s: State, budget: int, interval: int, now: DateTime)
    ensures BudgetExhausted(Anonymous(s), budget, now) == BudgetExhausted(s, budget, now)
    ensures IntervalElapsed(Anonymous(s), interval, now) == IntervalElapsed(s, interval, now)
  {
  }

  /** ... and what it hands to ingestion: the ids of the page that are not among the
      last 200 its key has logged. */
  lemma DocumentsAreNew(kv: Store, run: seq<Attempt>, r: Request, x: string)
    requires Filed(kv) && ValidConfigs(run) && r.fetched.Some?
    requires At(kv, StateKey(r.connectorId, r.connectionId)) == Unsynced("", "")
    ensures var log := EntryLog(Unsynced("", ""), PersistedSyncs(kv, run, StateKey(r.connectorId, r.connectionId)));
            x in Unknown(r.fetched.value.items, Load(StoreAfter(kv, run), r.connectorId, r.connectionId).dedup)
            <==> x in r.fetched.value.items && x !in TakeLast(log, 200)
  {
    hide StateKey, NextStore, StoreAfter, PersistedSyncs, EntryLog;
    var key := StateKey(r.connectorId, r.connectionId);
    StoreFollowsGatedRun(kv, run, key);
    WindowIsFifo(Unsynced("", ""), PersistedSyncs(kv, run, key));
    assert Anonymous(Load(StoreAfter(kv, run), r.connectorId, r.connectionId)) == At(StoreAfter(kv, run), key);
  }

  /** What a persisted tick hands to ingestion is in the log of its key from then on. */
  lemma IngestedIsLogged(kv: Store, run: seq<Attempt>, a: Attempt, x: string)
    requires Filed(kv) && ValidConfigs(run)
    requires var key := StateKey(a.request.connectorId, a.request.connectionId);
             At(kv, key) == Unsynced("", "") && Persisted(StoreAfter(kv, run), a, key)
    requires x in Unknown(a.request.fetched.value.items,
                          Load(StoreAfter(kv, run), a.request.connectorId, a.request.connectionId).dedup)
    ensures var key := StateKey(a.request.connectorId, a.request.connectionId);
            x in EntryLog(Unsynced("", ""), PersistedSyncs(kv, run + [a], key))
  {
    hide StateKey, NextStore, StoreAfter, EffectiveIntervalSecs, Unknown, Outcome, PersistedSyncs, EntryLog, Fresh;
    var key := StateKey(a.request.connectorId, a.request.connectionId);
    var store, syncs := StoreAfter(kv, run), PersistedSyncs(kv, run, key);
    var state := Load(store, a.request.connectorId, a.request.connectionId);
    StoreFollowsGatedRun(kv, run, key);
    OutcomeHasConfig(a.config, store, a.request);
    PersistedGrows(kv, run, a, key);
    EntryLogOneMore(Unsynced("", ""), syncs, AsSync(a.config.value, a.request, state));
    assert Anonymous(state) == At(store, key);
    UnknownIsUnknown(a.request.fetched.value.items, state.dedup, x);
    FreshHolds(state.dedup, Unknown(a.request.fetched.value.items, state.dedup), x);
  }

  lemma FreshHolds(seen: seq<string>, batch: seq<string>, x: string)
    ensures x in Fresh(seen, batch) <==> x in batch && x !in seen
  {
  }

  lemma PersistedGrows(kv: Store, run: seq<Attempt>, a: Attempt, key: string)
    requires Persisted(StoreAfter(kv, run), a, key)
    ensures a.config.Some? && a.request.fetched.Some?
    ensures var state := Load(StoreAfter(kv, run), a.request.connectorId, a.request.connectionId);
            PersistedSyncs(kv, run + [a], key) == PersistedSyncs(kv, run, key) + [AsSync(a.config.value, a.request, state)]
  {
    hide StateKey, NextStore, StoreAfter, EffectiveIntervalSecs, Unknown;
    assert (run + [a])[..|run|] == run;
  }

  lemma UnknownIsUnknown(items: seq<string>, known: seq<string>, x: string)
    ensures x in Unknown(items, known) <==> x in items && x !in known
  {
  }

  /** The interval never holds back a first sync, not even that of a manual-only
      source: an enabled tick on a key without a readable state syncs as soon as
      the fetch succeeds. */
  lemma FirstTickSyncs(config: Config, kv: Store, r: Request)
    requires config.Valid() && config.autoFetchEnabled && r.policy.Active() && r.fetched.Some?
    requires At(kv, StateKey(r.connectorId, r.connectionId)) == Unsynced("", "")
    ensures Outcome(Some(config), kv, r) == Synced
  {
  }

  // ---------- fetches ----------

  predicate ReachesFetch(config: Option<Config>, kv: Store, r: Request) {
    Outcome(config, kv, r) == Synced || Outcome(config, kv, r) == ErrorSwallowed
  }

  /** The fetch raised, or the store refused the state it led to. */
  predicate LeavesNoTrace(r: Request) {
    r.fetched.None? || !r.writable
  }

  /** The budget and the interval count saved syncs: after a tick that reached the
      fetch, the same call at the same reading, whatever its own fetch and write
      will do, fetches again if and only if the first one left no trace. */
  lemma RefetchIffNoTrace(config: Config, kv: Store, r: Request, again: Request)
    requires config.Valid() && Filed(kv) && ReachesFetch(Some(config), kv, r)
    requires again == r.(fetched := again.fetched, writable := again.writable)
    ensures ReachesFetch(Some(config), NextStore(Some(config), kv, r), again) <==> LeavesNoTrace(r)
  {
    hide StateKey, Dedup, TakeLast;
    ProviderMinimumIsFloor(config.syncIntervalSecs, r.policy.interval);
  }

  /** The ticks of the key that fetched on this day. */
  function FetchesOn(kv: Store, run: seq<Attempt>, key: string, day: int): nat {
    if run == [] then 0
    else
      var init, a := run[..|run| - 1], run[|run| - 1];
      FetchesOn(kv, init, key, day) +
      if OfKey(a, key) && Date(a.request.now) == day && ReachesFetch(a.config, StoreAfter(kv, init), a.request)
      then 1 else 0
  }

  /** ... and those among them that left no trace. */
  function UncountedOn(kv: Store, run: seq<Attempt>, key: string, day: int): nat {
    if run == [] then 0
    else
      var init, a := run[..|run| - 1], run[|run| - 1];
      UncountedOn(kv, init, key, day) +
      if && OfKey(a, key) && Date(a.request.now) == day && LeavesNoTrace(a.request)
         && ReachesFetch(a.config, StoreAfter(kv, init), a.request)
      then 1 else 0
  }

  lemma OneMorePersisted(kv: Store, run: seq<Attempt>, key: string, day: int)
    requires run != []
    ensures var init, a := run[..|run| - 1], run[|run| - 1];
            CountOn(PersistedSyncs(kv, run, key), day) == CountOn(PersistedSyncs(kv, init, key), day)
              + if Persisted(StoreAfter(kv, init), a, key) && Date(a.request.now) == day then 1 else 0
  {
    hide Date, NextStore, StoreAfter, Outcome, OfKey, StateKey, EffectiveIntervalSecs, Unknown;
    var init, a := run[..|run| - 1], run[|run| - 1];
    var before, syncs := StoreAfter(kv, init), PersistedSyncs(kv, init, key);
    if Persisted(before, a, key) {
      OutcomeHasConfig(a.config, before, a.request);
      var e := AsSync(a.config.value, a.request, Load(before, a.request.connectorId, a.request.connectionId));
      assert PersistedSyncs(kv, run, key) == syncs + [e];
      OneMoreOn(syncs, e, day);
    } else {
      assert PersistedSyncs(kv, run, key) == syncs;
    }
  }

  lemma OutcomeHasConfig(config: Option<Config>, kv: Store, r: Request)
    requires Outcome(config, kv, r) == Synced
    ensures config.Some? && r.fetched.Some?
  {
  }

  lemma OneMoreOn(syncs: seq<Sync>, e: Sync, day: int)
    ensures CountOn(syncs + [e], day) == CountOn(syncs, day) + if Date(e.now) == day then 1 else 0
  {
  }

  /** Every fetch of a day is a persisted sync of that day or left no trace. */
  lemma {:induction false} FetchesBalance(kv: Store, run: seq<Attempt>, key: string, day: int)
    ensures FetchesOn(kv, run, key, day) == CountOn(PersistedSyncs(kv, run, key), day) + UncountedOn(kv, run, key, day)
  {
    hide Date, PersistedSyncs, StoreAfter, StateKey;
    if run == [] {
      NothingPersisted(kv, key, day);
    } else {
      FetchesBalance(kv, run[..|run| - 1], key, day);
      OneMorePersisted(kv, run, key, day);
    }
  }

  lemma NothingPersisted(kv: Store, key: string, day: int)
    ensures CountOn(PersistedSyncs(kv, [], key), day) == 0
  {
  }

  /** What the daily budget bounds: the fetches of a day beyond it are exactly paid
      for by fetches that raised or whose state was not written. */
  lemma FetchesWithinBudgetAndUncounted(kv: Store, run: seq<Attempt>, key: string, budget: nat, day: int)
    requires Filed(kv) && At(kv, key) == Unsynced("", "") && ValidConfigs(run)
    requires OffsetsWithinIntervals(PersistedSyncs(kv, run, key))
    requires forall i :: 0 <= i < |run| && OfKey(run[i], key) && run[i].config.Some? ==>
               run[i].config.value.dailyRequestBudget <= budget
    ensures FetchesOn(kv, run, key, day) <= budget + UncountedOn(kv, run, key, day)
  {
    hide FetchesOn, UncountedOn, PersistedSyncs, OffsetsWithinIntervals, CountOn;
    TicksKeepDailyBudget(kv, run, key, budget, day);
    FetchesBalance(kv, run, key, day);
  }

  /** Two connections share one stored state exactly when a dot in either id
      lets the joined key be split elsewhere. */
  lemma SharedKeys(connectorId: string, connectionId: string)
    ensures (exists c, n :: (c != connectorId || n != connectionId)
                            && StateKey(c, n) == StateKey(connectorId, connectionId))
            <==> '.' in connectorId || '.' in connectionId
  {
    var prefix, body := "autofetch.state.", connectorId + "." + connectionId;
    assert StateKey(connectorId, connectionId) == prefix + body;
    if '.' in connectorId {
      var k :| 0 <= k < |connectorId| && connectorId[k] == '.';
      var c, n := connectorId[..k], connectorId[k + 1..] + "." + connectionId;
      assert c + "." + n == body;
      assert StateKey(c, n) == prefix + (c + "." + n);
    } else if '.' in connectionId {
      var k :| 0 <= k < |connectionId| && connectionId[k] == '.';
      var c, n := connectorId + "." + connectionId[..k], connectionId[k + 1..];
      assert c + "." + n == body;
      assert StateKey(c, n) == prefix + (c + "." + n);
    } else {
      forall c, n | StateKey(c, n) == StateKey(connectorId, connectionId)
        ensures c == connectorId && n == connectionId
      {
        UndottedSplit(connectorId, connectionId, c, n);
      }
    }
  }

  /** Which pairs share it: exactly those that split the joined key at two of its
      dots. */
  lemma SharedKeysSplitElsewhere(c: string, n: string, other: string, m: string)
    requires |c| <= |other|
    ensures StateKey(c, n) == StateKey(other, m)
            <==> (c == other && n == m) || (exists x :: other == c + "." + x && n == x + "." + m)
  {
    var prefix, one, two := "autofetch.state.", c + "." + n, other + "." + m;
    assert StateKey(c, n) == prefix + one && StateKey(other, m) == prefix + two;
    assert (prefix + one)[|prefix|..] == one && (prefix + two)[|prefix|..] == two;
    if one == two {
      assert c == one[..|c|] == two[..|c|] && n == one[|c| + 1..] && m == two[|other| + 1..];
      if |c| < |other| {
        var x := other[|c| + 1..];
        assert other[|c|] == two[|c|] == one[|c|] == '.';
        assert other == c + "." + x;
        assert n == two[|c| + 1..] == x + "." + m;
      } else {
        assert other == two[..|c|];
      }
    }
    forall x | other == c + "." + x && n == x + "." + m
      ensures one == two
    {
      assert c + "." + (x + "." + m) == c + "." + x + "." + m;
    }
  }

  lemma UndottedSplit(connectorId: string, connectionId: string, c: string, n: string)
    requires '.' !in connectorId && '.' !in connectionId
    requires StateKey(c, n) == StateKey(connectorId, connectionId)
    ensures c == connectorId && n == connectionId
  {
    var prefix := "autofetch.state.";
    var body, other := connectorId + "." + connectionId, c + "." + n;
    assert StateKey(connectorId, connectionId) == prefix + body;
    assert StateKey(c, n) == prefix + other;
    assert body == (prefix + body)[|prefix|..] == (prefix + other)[|prefix|..] == other;
    assert other[|c|] == '.';
    assert body[|connectorId|] == '.';
    assert |c| == |connectorId|;
    assert c == other[..|c|] && n == other[|c| + 1..];
    assert connectorId == body[..|c|] && connectionId == body[|c| + 1..];
  }
}
