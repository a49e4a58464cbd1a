/** Runs of provider operations that contain restarts: the control is constructed
    again from its first rows and from what the file holds.  What a restart shows,
    and the invariant that every such run keeps. */
module ProviderRestart {
  import opened Sequences
  import opened Text
  import opened Providers
  import opened ProviderSnapshot
  import opened ProviderControl
  import opened ProviderRuns
  import opened ProviderRestore

  datatype Call = Do(op: Op) | Restart

  /** The control in memory and the one the file was last written from. */
  datatype Live = Live(memory: Control, saved: Option<Control>)

  ghost predicate Shaped(base: Control, c: Control) {
    c.order == base.order && NamesRows(c)
  }

  ghost function Reloaded(rules: Rules, base: Control, saved: Option<Control>): (r: Control)
    requires NamesRows(base) && (saved.Some? ==> Shaped(base, saved.value))
    ensures Shaped(base, r)
  {
    if saved.None? then base else Load(rules, base, Save(saved.value))
  }

  ghost function After(rules: Rules, base: Control, calls: seq<Call>): (l: Live)
    requires NamesRows(base)
    ensures Shaped(base, l.memory) && (l.saved.Some? ==> Shaped(base, l.saved.value))
  {
    if calls == [] then Live(base, None)
    else
      var l := After(rules, base, calls[..|calls| - 1]);
      match calls[|calls| - 1]
      case Restart => Live(Reloaded(rules, base, l.saved), l.saved)
      case Do(op) =>
        var (after, reply) := Apply(rules, l.memory, op);
        Live(after, if reply.Done? then Some(after) else l.saved)
  }

  /** The run up to its last accepted operation. */
  function Accepted(rules: Rules, base: Control, ops: seq<Op>): seq<Op> {
    if ops == [] || Apply(rules, Run(rules, base, ops[..|ops| - 1]), ops[|ops| - 1]).1.Done? then ops
    else Accepted(rules, base, ops[..|ops| - 1])
  }

  /** The operations that count: a restart drops those refused since the last
      accepted one. */
  function Surviving(rules: Rules, base: Control, calls: seq<Call>): seq<Op> {
    if calls == [] then []
    else
      var before := Surviving(rules, base, calls[..|calls| - 1]);
      match calls[|calls| - 1]
      case Do(op) => before + [op]
      case Restart => Accepted(rules, base, before)
  }

  /** The same run with its restarts left out. */
  function OpsOf(calls: seq<Call>): seq<Op> {
    if calls == [] then []
    else OpsOf(calls[..|calls| - 1]) + match calls[|calls| - 1] case Do(op) => [op] case Restart => []
  }

  // ---------- what a restart forgets ----------

  /** The row without the two fields that are not written to the file. */
  function Written(row: Row): Row {
    row.(healthy := false, supportsCustomBaseUrl := false)
  }

  /** Equal in everything the file keeps. */
  ghost predicate SameWritten(a: Control, b: Control) {
    && a.active == b.active
    && a.order == b.order
    && a.rows.Keys == b.rows.Keys
    && forall id :: id in a.rows ==> Written(a.rows[id]) == Written(b.rows[id])
  }

  lemma NormalizedIgnoresUnwritten(a: Row, b: Row)
    requires Written(a) == Written(b)
    ensures Written(Normalized(a)) == Written(Normalized(b))
  {
    hide NormalizeEffort, NormalizeMetadata, ChooseEffort, Strip, Lower;
    assert b == a.(healthy := b.healthy, supportsCustomBaseUrl := b.supportsCustomBaseUrl);
    assert ActiveMetadata(a) == ActiveMetadata(b);
  }

  lemma DiscoveryIgnoresUnwritten(a: Row, b: Row, discovered: seq<string>, metadata: map<string, Metadata>)
    requires Written(a) == Written(b)
    ensures Written(WithDiscovered(a, discovered, metadata)) == Written(WithDiscovered(b, discovered, metadata))
  {
    hide Normalized, CleanAll, Dedup;
    var found := Dedup(CleanAll(discovered));
    if found != [] {
      var models := Dedup(CleanAll(found + a.models));
      NormalizedIgnoresUnwritten(Discovered(a, models, metadata), Discovered(b, models, metadata));
    }
  }

  lemma ActiveModelIgnoresUnwritten(a: Row, b: Row, model: string)
    requires Written(a) == Written(b)
    ensures Written(WithActiveModel(a, model)) == Written(WithActiveModel(b, model))
  {
    hide Normalized;
    var models := if model != "" && model !in a.models then a.models + [model] else a.models;
    NormalizedIgnoresUnwritten(a.(activeModel := model, configured := true, models := models),
                               b.(activeModel := model, configured := true, models := models));
  }

  lemma FieldsStayWritten(a: Row, b: Row, url: string, mode: string)
    requires Written(a) == Written(b)
    ensures Written(a.(baseUrl := url)) == Written(b.(baseUrl := url))
    ensures Written(a.(baseUrl := url, mode := mode, supportsCustomBaseUrl := true, configured := true))
            == Written(b.(baseUrl := url, mode := mode, supportsCustomBaseUrl := true, configured := true))
    ensures a.mode == b.mode
  {
  }

  lemma ConnectionIgnoresUnwritten(rules: Rules, id: string, a: Row, b: Row, baseUrl: string, mode: Option<string>)
    requires Written(a) == Written(b)
    ensures Written(WithConnection(rules, id, a, baseUrl, mode).0) == Written(WithConnection(rules, id, b, baseUrl, mode).0)
    ensures WithConnection(rules, id, a, baseUrl, mode).1 == WithConnection(rules, id, b, baseUrl, mode).1
  {
    hide Strip, CleanMode, ResolveConnection, Written;
    var (url, chosen) := ResolveConnection(rules, id, Strip(baseUrl), mode);
    FieldsStayWritten(a, b, url, if chosen.Some? then CleanMode(chosen.value) else a.mode);
  }

  lemma EffortIgnoresUnwritten(a: Row, b: Row, effort: string)
    requires Written(a) == Written(b)
    ensures Written(WithEffort(a, effort).0) == Written(WithEffort(b, effort).0)
    ensures WithEffort(a, effort).1 == WithEffort(b, effort).1
  {
    hide NormalizeEffort, EffortOptions;
    assert ActiveMetadata(a) == ActiveMetadata(b);
  }

  /** No operation looks at those two fields. */
  lemma EditIgnoresUnwritten(rules: Rules, a: Row, b: Row, op: Op)
    requires Written(a) == Written(b)
    ensures Written(Edit(rules, a, op).0) == Written(Edit(rules, b, op).0)
    ensures Edit(rules, a, op).1 == Edit(rules, b, op).1
  {
    hide Strip, Blank, CleanAll, Fresh, WithConnection, WithEffort, WithDiscovered, WithActiveModel;
    match op
    case SetActiveProvider(_) =>
    case SetActiveModel(_, model) => ActiveModelIgnoresUnwritten(a, b, model);
    case SetReasoningEffort(_, effort) => EffortIgnoresUnwritten(a, b, effort);
    case SetMultiModels(_, models) =>
    case SetConnection(id, baseUrl, mode) => ConnectionIgnoresUnwritten(rules, id, a, b, baseUrl, mode);
    case SetAutomationModel(_, _, _, _) =>
    case RefreshModels(_, discovered, metadata) => DiscoveryIgnoresUnwritten(a, b, discovered, metadata);
  }

  lemma RowsStaySame(a: Control, b: Control, id: string, rowA: Row, rowB: Row, active: string)
    requires SameWritten(a, b) && id in a.rows && Written(rowA) == Written(rowB)
    ensures SameWritten(Control(active, a.order, a.rows[id := rowA]), Control(active, b.order, b.rows[id := rowB]))
  {
    hide Written;
  }

  lemma ApplyIgnoresUnwritten(rules: Rules, a: Control, b: Control, op: Op)
    requires SameWritten(a, b)
    ensures SameWritten(Apply(rules, a, op).0, Apply(rules, b, op).0)
    ensures Apply(rules, a, op).1 == Apply(rules, b, op).1
  {
    assert a.active == b.active && (op.id in a.rows <==> op.id in b.rows);
    if op.id in a.rows {
      assert Written(a.rows[op.id]) == Written(b.rows[op.id]);
      hide Edit, Written, SameWritten;
      EditIgnoresUnwritten(rules, a.rows[op.id], b.rows[op.id], op);
      RowsStaySame(a, b, op.id, Edit(rules, a.rows[op.id], op).0, Edit(rules, b.rows[op.id], op).0,
                   if op.SetActiveProvider? then op.id else a.active);
    }
  }

  lemma RowFactsIgnoreUnwritten(rules: Rules, id: string, base: Row, a: Row, b: Row)
    requires Written(a) == Written(b)
    ensures RowInvariant(a) <==> RowInvariant(b)
    ensures Restorable(rules, id, base, a) <==> Restorable(rules, id, base, b)
  {
    hide Strip, Blank, Trimmed, IsMode, NormalizeEffort, NormalizeMetadata, ChooseEffort, EffortOptions, UrlReloads,
      NeedsProxy;
    assert b == a.(healthy := b.healthy, supportsCustomBaseUrl := b.supportsCustomBaseUrl);
  }

  lemma FactsIgnoreUnwritten(rules: Rules, base: Control, a: Control, b: Control)
    requires SameWritten(a, b) && NamesRows(a) && Invariant(b) && AllRestorable(rules, base, b)
    ensures Invariant(a) && AllRestorable(rules, base, a)
  {
    hide RowInvariant, Restorable, Written;
    forall id | id in a.rows
      ensures RowInvariant(a.rows[id])
      ensures id in base.rows ==> Restorable(rules, id, base.rows[id], a.rows[id])
    {
      RowFactsIgnoreUnwritten(rules, id, if id in base.rows then base.rows[id] else a.rows[id], a.rows[id], b.rows[id]);
    }
  }

  // ---------- what a restart shows ----------

  lemma SameWrittenIsReflexive(c: Control)
    ensures SameWritten(c, c)
  {
  }

  lemma SameWrittenIsTransitive(a: Control, b: Control, c: Control)
    requires SameWritten(a, b) && SameWritten(b, c)
    ensures SameWritten(a, c)
  {
  }

  lemma LoadKeepsUnwritten(rules: Rules, id: string, base: Row, d: RowData)
    ensures LoadRow(rules, id, base, d).healthy == base.healthy
    ensures LoadRow(rules, id, base, d).supportsCustomBaseUrl == base.supportsCustomBaseUrl
  {
    hide LoadConnection, LoadText, NonBlank, NormalizeEffort, NormalizeMetadata, ChooseEffort, Lower, Strip;
  }

  lemma LoadedRow(rules: Rules, base: Control, c: Control, id: string)
    requires NamesRows(c) && NamesRows(base) && base.order == c.order && id in c.rows
    ensures id in base.rows && id in Load(rules, base, Save(c)).rows
    ensures Load(rules, base, Save(c)).rows[id] == LoadRow(rules, id, base.rows[id], Record(id, c.rows[id]))
  {
    hide LoadRow, Record;
    assert id in c.order;
    RecordsLoadEachRow(rules, base.rows, c.order, c.rows);
  }

  lemma WrittenAndUnwritten(base: Row, row: Row, loaded: Row)
    requires loaded.healthy == base.healthy && loaded.supportsCustomBaseUrl == base.supportsCustomBaseUrl
    ensures Written(loaded) == Written(row) <==> loaded == OnTopOf(base, row)
  {
  }

  ghost predicate UnwrittenOf(loaded: Control, base: Control) {
    && loaded.rows.Keys == base.rows.Keys
    && forall id :: id in loaded.rows ==>
         && loaded.rows[id].healthy == base.rows[id].healthy
         && loaded.rows[id].supportsCustomBaseUrl == base.rows[id].supportsCustomBaseUrl
  }

  lemma UnwrittenDecides(loaded: Control, base: Control, c: Control)
    requires UnwrittenOf(loaded, base) && loaded.rows.Keys == c.rows.Keys
    requires loaded.order == c.order && loaded.active == c.active
    ensures SameWritten(loaded, c) <==> Restores(loaded, base, c)
  {
    hide Written, OnTopOf;
    forall id | id in c.rows
      ensures Written(loaded.rows[id]) == Written(c.rows[id]) <==> loaded.rows[id] == OnTopOf(base.rows[id], c.rows[id])
    {
      WrittenAndUnwritten(base.rows[id], c.rows[id], loaded.rows[id]);
    }
  }

  lemma LoadedIsUnwrittenOf(rules: Rules, base: Control, c: Control)
    requires NamesRows(c) && NamesRows(base) && base.order == c.order
    ensures UnwrittenOf(Load(rules, base, Save(c)), base) && base.rows.Keys == c.rows.Keys
  {
    hide LoadRow, Record;
    assert forall id :: id in base.rows <==> id in c.rows;
    var loaded := Load(rules, base, Save(c));
    forall id | id in c.rows
      ensures id in loaded.rows
      ensures loaded.rows[id].healthy == base.rows[id].healthy
      ensures loaded.rows[id].supportsCustomBaseUrl == base.rows[id].supportsCustomBaseUrl
    {
      LoadedRow(rules, base, c, id);
      LoadKeepsUnwritten(rules, id, base.rows[id], Record(id, c.rows[id]));
    }
  }

  /** Saving a catalogue and loading it shows it again, in everything the file keeps,
      exactly when its rows are restorable. */
  lemma ReloadShowsSavedIffRestorable(rules: Rules, base: Control, c: Control)
    requires Invariant(c) && NamesRows(base) && base.order == c.order && !rules.googleUrl("")
    requires Trimmed(c.active) && c.active != ""
    ensures SameWritten(Load(rules, base, Save(c)), c) <==> AllRestorable(rules, base, c)
  {
    hide RowInvariant, AllRestorable, Trimmed, UnwrittenOf, SameWritten, Restores, LoadRows, Save, NoDuplicates;
    CatalogueIsRestored(rules, base, c);
    LoadedIsUnwrittenOf(rules, base, c);
    UnwrittenDecides(Load(rules, base, Save(c)), base, c);
  }

  /** A restart puts the control back to what the file holds. */
  lemma ReloadKeepsWritten(rules: Rules, base: Control, saved: Option<Control>, c: Control)
    requires Invariant(base) && !rules.googleUrl("") && forall id :: id in base.rows ==> Trimmed(id) && id != ""
    requires saved.Some? ==> Shaped(base, saved.value)
    requires SameWritten(if saved.Some? then saved.value else base, c)
    requires Invariant(c) && AllRestorable(rules, base, c)
    ensures SameWritten(Reloaded(rules, base, saved), c)
  {
    hide RowInvariant, AllRestorable, Trimmed, Written, Load;
    if saved.Some? {
      var s := saved.value;
      FactsIgnoreUnwritten(rules, base, s, c);
      assert s.active in s.order && s.active in base.rows;
      ReloadShowsSavedIffRestorable(rules, base, s);
      SameWrittenIsTransitive(Load(rules, base, Save(s)), s, c);
    }
  }

  lemma {:induction false} AcceptedIsSaved(rules: Rules, base: Control, ops: seq<Op>)
    ensures Run(rules, base, Accepted(rules, base, ops)) == SavedState(rules, base, ops)
    ensures SavedState(rules, base, Accepted(rules, base, ops)) == SavedState(rules, base, ops)
  {
    hide Apply;
    if ops != [] {
      AcceptedIsSaved(rules, base, ops[..|ops| - 1]);
    }
  }

  lemma {:induction false} AcceptedLeavesNothingUnsaved(rules: Rules, base: Control, ops: seq<Op>, id: string)
    ensures Unsaved(rules, base, Accepted(rules, base, ops), id).None?
  {
    hide Apply;
    if ops != [] {
      AcceptedLeavesNothingUnsaved(rules, base, ops[..|ops| - 1], id);
    }
  }

  lemma SavedKeepsInvariant(rules: Rules, base: Control, ops: seq<Op>)
    requires Invariant(base)
    ensures Invariant(SavedState(rules, base, ops))
  {
    hide Invariant;
    AcceptedIsSaved(rules, base, ops);
    RunKeepsInvariant(rules, base, Accepted(rules, base, ops));
  }

  /** What the file holds at every restart can be restored. */
  ghost predicate RestorableAtRestarts(rules: Rules, base: Control, calls: seq<Call>) {
    calls == [] ||
    var init := calls[..|calls| - 1];
    && RestorableAtRestarts(rules, base, init)
    && (calls[|calls| - 1].Restart? ==>
        AllRestorable(rules, base, SavedState(rules, base, Surviving(rules, base, init))))
  }

  /** Restarts anywhere in a run: in everything the file keeps, memory agrees with
      the run of the surviving operations without restarts, and the file with what
      that run saved last. */
  lemma {:induction false} RestartsDropRefusedCalls(rules: Rules, base: Control, calls: seq<Call>)
    requires Invariant(base) && !rules.googleUrl("") && forall id :: id in base.rows ==> Trimmed(id) && id != ""
    requires RestorableAtRestarts(rules, base, calls)
    ensures var l, ops := After(rules, base, calls), Surviving(rules, base, calls);
            && SameWritten(l.memory, Run(rules, base, ops))
            && SameWritten(if l.saved.Some? then l.saved.value else base, SavedState(rules, base, ops))
  {
    hide RowInvariant, AllRestorable, SameWritten, Apply, Load, Trimmed;
    if calls == [] {
      SameWrittenIsReflexive(base);
    } else {
      var init := calls[..|calls| - 1];
      var before := Surviving(rules, base, init);
      RestartsDropRefusedCalls(rules, base, init);
      match calls[|calls| - 1]
      case Restart =>
        AcceptedIsSaved(rules, base, before);
        SavedKeepsInvariant(rules, base, before);
        ReloadKeepsWritten(rules, base, After(rules, base, init).saved, SavedState(rules, base, before));
      case Do(op) =>
        assert (before + [op])[..|before|] == before;
        ApplyIgnoresUnwritten(rules, After(rules, base, init).memory, Run(rules, base, before), op);
    }
  }

  lemma LagIsWritten(rules: Rules, base: Control, ops: seq<Op>)
    ensures SameWritten(SavedState(rules, base, ops), Run(rules, base, ops)) <==> !FileLags(rules, base, ops)
  {
    hide SavedState, Run, Unsaved;
    FileLagsIffUrlUnsaved(rules, base, ops);
    if FileLags(rules, base, ops) {
      var saved := SavedState(rules, base, ops);
      var id :| id in saved.rows && Unsaved(rules, base, ops, id).Some?
                && Unsaved(rules, base, ops, id).value != saved.rows[id].baseUrl;
      MemoryIsSavedPlusUnsaved(rules, base, ops, id);
      assert Written(saved.rows[id]).baseUrl != Written(Run(rules, base, ops).rows[id]).baseUrl;
    }
  }

  /** A restart changes what memory shows if and only if a mode refused since the
      last accepted call left a URL other than the saved one. */
  lemma RestartIsVisibleIffFileLags(rules: Rules, base: Control, calls: seq<Call>)
    requires Invariant(base) && !rules.googleUrl("") && forall id :: id in base.rows ==> Trimmed(id) && id != ""
    requires RestorableAtRestarts(rules, base, calls + [Restart])
    ensures SameWritten(After(rules, base, calls + [Restart]).memory, After(rules, base, calls).memory)
            <==> !FileLags(rules, base, Surviving(rules, base, calls))
  {
    hide RowInvariant, AllRestorable, SameWritten, Apply, Load, Trimmed, FileLags;
    assert (calls + [Restart])[..|calls|] == calls;
    var ops := Surviving(rules, base, calls);
    var before, after := After(rules, base, calls).memory, After(rules, base, calls + [Restart]).memory;
    var saved, memory := SavedState(rules, base, ops), Run(rules, base, ops);
    RestartsDropRefusedCalls(rules, base, calls);
    RestartsDropRefusedCalls(rules, base, calls + [Restart]);
    AcceptedIsSaved(rules, base, ops);
    LagIsWritten(rules, base, ops);
    SameWrittenIsTheSame(after, saved, before, memory);
  }

  lemma SameWrittenIsTheSame(a: Control, b: Control, c: Control, d: Control)
    requires SameWritten(a, b) && SameWritten(c, d)
    ensures SameWritten(a, c) <==> SameWritten(b, d)
  {
    hide Written;
  }

  /** No restart comes while the file lags. */
  ghost predicate FileCurrentAtRestarts(rules: Rules, base: Control, calls: seq<Call>) {
    calls == [] ||
    var init := calls[..|calls| - 1];
    && FileCurrentAtRestarts(rules, base, init)
    && (calls[|calls| - 1].Restart? ==> !FileLags(rules, base, Surviving(rules, base, init)))
  }

  /** Then the restarts cannot be seen at all: memory agrees with the same run
      without them. */
  lemma {:induction false} RestartsAreInvisible(rules: Rules, base: Control, calls: seq<Call>)
    requires Invariant(base) && !rules.googleUrl("") && forall id :: id in base.rows ==> Trimmed(id) && id != ""
    requires RestorableAtRestarts(rules, base, calls) && FileCurrentAtRestarts(rules, base, calls)
    ensures SameWritten(After(rules, base, calls).memory, Run(rules, base, OpsOf(calls)))
  {
    hide Invariant, RestorableAtRestarts, SameWritten, FileLags;
    RestartsDropRefusedCalls(rules, base, calls);
    SurvivingRunIsWholeRun(rules, base, calls);
  }

  lemma {:induction false} SurvivingRunIsWholeRun(rules: Rules, base: Control, calls: seq<Call>)
    requires FileCurrentAtRestarts(rules, base, calls)
    ensures Run(rules, base, Surviving(rules, base, calls)) == Run(rules, base, OpsOf(calls))
  {
    hide Apply, FileLags;
    if calls != [] {
      var init := calls[..|calls| - 1];
      var before := Surviving(rules, base, init);
      SurvivingRunIsWholeRun(rules, base, init);
      match calls[|calls| - 1]
      case Restart =>
        AcceptedIsSaved(rules, base, before);
        FileLagsIffUrlUnsaved(rules, base, before);
        assert OpsOf(calls) == OpsOf(init);
      case Do(op) =>
        assert (before + [op])[..|before|] == before;
        assert OpsOf(calls)[..|OpsOf(calls)| - 1] == OpsOf(init);
    }
  }

  /** No mode was refused after its URL had been written. */
  ghost predicate NoLateRefusals(rules: Rules, base: Control, calls: seq<Call>)
    requires NamesRows(base)
  {
    calls == [] ||
    var init := calls[..|calls| - 1];
    && NoLateRefusals(rules, base, init)
    && (calls[|calls| - 1].Do? ==>
        Apply(rules, After(rules, base, init).memory, calls[|calls| - 1].op).1 != Refused(InvalidMode))
  }

  /** Without a late refusal nothing is ever unsaved, and the file never lags. */
  lemma {:induction false} FileStaysCurrent(rules: Rules, base: Control, calls: seq<Call>)
    requires Invariant(base) && !rules.googleUrl("") && forall id :: id in base.rows ==> Trimmed(id) && id != ""
    requires RestorableAtRestarts(rules, base, calls) && NoLateRefusals(rules, base, calls)
    ensures forall id :: Unsaved(rules, base, Surviving(rules, base, calls), id).None?
    ensures FileCurrentAtRestarts(rules, base, calls)
  {
    hide RowInvariant, AllRestorable, SameWritten, Apply, Load, Trimmed;
    if calls != [] {
      var init := calls[..|calls| - 1];
      var before := Surviving(rules, base, init);
      FileStaysCurrent(rules, base, init);
      match calls[|calls| - 1]
      case Restart =>
        forall id
          ensures Unsaved(rules, base, Accepted(rules, base, before), id).None?
        {
          AcceptedLeavesNothingUnsaved(rules, base, before, id);
        }
      case Do(op) =>
        assert (before + [op])[..|before|] == before;
        RestartsDropRefusedCalls(rules, base, init);
        ApplyIgnoresUnwritten(rules, After(rules, base, init).memory, Run(rules, base, before), op);
    }
  }

  lemma {:induction false} AcceptedKeepsRestorable(rules: Rules, base: Control, ops: seq<Op>)
    requires RunKeepsRestorable(rules, base, ops)
    ensures RunKeepsRestorable(rules, base, Accepted(rules, base, ops))
  {
    hide Apply, KeepsRestorable;
    if ops != [] {
      AcceptedKeepsRestorable(rules, base, ops[..|ops| - 1]);
    }
  }

  lemma {:induction false} AcceptedTwice(rules: Rules, base: Control, ops: seq<Op>)
    ensures Accepted(rules, base, Accepted(rules, base, ops)) == Accepted(rules, base, ops)
  {
    hide Apply;
    if ops != [] {
      AcceptedTwice(rules, base, ops[..|ops| - 1]);
    }
  }

  /** It is enough that the operations that survive and are saved keep rows
      restorable; what was refused and dropped does not matter. */
  lemma {:induction false} SavedOperationsDecide(rules: Rules, base: Control, calls: seq<Call>)
    requires Invariant(base) && AllRestorable(rules, base, base) && !rules.googleUrl("")
    requires RunKeepsRestorable(rules, base, Accepted(rules, base, Surviving(rules, base, calls)))
    ensures RestorableAtRestarts(rules, base, calls)
    ensures AllRestorable(rules, base, SavedState(rules, base, Surviving(rules, base, calls)))
  {
    hide Invariant, AllRestorable, Apply, KeepsRestorable;
    var ops := Surviving(rules, base, calls);
    AcceptedIsSaved(rules, base, ops);
    RunStaysRestorable(rules, base, Accepted(rules, base, ops));
    if calls != [] {
      var before := Surviving(rules, base, calls[..|calls| - 1]);
      if calls[|calls| - 1].Restart? {
        AcceptedTwice(rules, base, before);
        AcceptedIsSaved(rules, base, before);
      } else {
        assert ops[..|ops| - 1] == before;
        if Accepted(rules, base, ops) == ops {
          AcceptedKeepsRestorable(rules, base, before);
        }
      }
      SavedOperationsDecide(rules, base, calls[..|calls| - 1]);
    }
  }

  // ---------- what every run with restarts keeps ----------

  ghost predicate CleanModels(row: Row) {
    forall m :: m in row.models ==> Trimmed(m) && m != ""
  }

  /** A row's invariant in a form that reloading keeps: its models are clean, and
      those it started with stay listed. */
  ghost predicate RowKept(base: Row, row: Row) {
    && RowInvariant(row)
    && CleanModels(row)
    && forall m :: m in base.models ==> m in row.models
  }

  ghost predicate Kept(base: Control, c: Control) {
    && Shaped(base, c)
    && c.active in c.rows
    && forall id :: id in c.rows && id in base.rows ==> RowKept(base.rows[id], c.rows[id])
  }

  lemma DiscoveryKeepsModels(row: Row, discovered: seq<string>, metadata: map<string, Metadata>)
    requires CleanModels(row)
    ensures var after := WithDiscovered(row, discovered, metadata);
            CleanModels(after) && forall m :: m in row.models ==> m in after.models
  {
    hide Trimmed, Strip, CleanAll, NormalizeEffort, NormalizeMetadata, ChooseEffort;
    var found := Dedup(CleanAll(discovered));
    if found != [] {
      CleanAllIsClean(found + row.models);
      forall m | m in row.models
        ensures m in Dedup(CleanAll(found + row.models))
      {
        MergedListKeeps(found, row.models, m);
      }
    }
  }

  lemma EditKeepsModels(rules: Rules, row: Row, op: Op)
    requires CleanModels(row) && (op.SetActiveModel? ==> Trimmed(op.model))
    ensures var after := Edit(rules, row, op).0;
            CleanModels(after) && forall m :: m in row.models ==> m in after.models
  {
    hide Trimmed, Strip, CleanAll, NormalizeEffort, NormalizeMetadata, ChooseEffort, CleanMode, WithDiscovered;
    match op
    case RefreshModels(_, discovered, metadata) => DiscoveryKeepsModels(row, discovered, metadata);
    case SetMultiModels(_, models) => CleanAllIsClean(models);
    case SetAutomationModel(_, model, _, _) =>
      assert Trimmed(Strip(model));
    case _ =>
  }

  lemma ApplyKeepsKept(rules: Rules, base: Control, c: Control, op: Op)
    requires Kept(base, c) && NamesRows(base) && (op.SetActiveModel? ==> Trimmed(op.model))
    ensures Kept(base, Apply(rules, c, op).0)
  {
    hide RowInvariant, Edit, CleanModels, Trimmed;
    if op.id in c.rows {
      assert op.id in c.order && op.id in base.rows;
      assert RowKept(base.rows[op.id], c.rows[op.id]);
      EditKeepsInvariant(rules, c.rows[op.id], op);
      EditKeepsModels(rules, c.rows[op.id], op);
    }
  }

  lemma ReloadedTextIsListed(data: string, current: string, models: seq<string>)
    requires (data != "" ==> Trimmed(data) && data in models) && (current != "" ==> current in models)
    ensures var text := LoadText(Some(data), current); text != "" ==> text in models
    ensures (current != "" ==> Trimmed(current)) ==> Trimmed(LoadText(Some(data), current))
  {
    hide Strip, Trimmed;
    BlankEmpty();
    TrimmedIsKept(data);
    EmptyIsTrimmed();
  }

  lemma EmptyIsTrimmed()
    ensures Trimmed("")
  {
  }

  lemma ReloadedMode(rules: Rules, id: string, base: Row, row: Row)
    requires IsMode(base.mode)
    ensures IsMode(LoadConnection(rules, id, base, Record(id, row)).1)
  {
    hide Strip;
  }

  /** Reading a kept row back on top of the one it started from gives a kept row. */
  lemma ReloadKeepsRow(rules: Rules, id: string, base: Row, row: Row)
    requires RowKept(base, base) && RowKept(base, row)
    ensures RowKept(base, LoadRow(rules, id, base, Record(id, row)))
  {
    hide Trimmed, Strip, Blank, LoadConnection, LoadText, NonBlank, Normalized, NormalizeEffort, IsMode, Lower, LoadRow,
      EffortNormal, NoDuplicates;
    var reread := Reread(rules, id, base, row);
    LoadRowNormalizesReread(rules, id, base, row);
    forall m | m in row.models
      ensures !Blank(m)
    {
      TrimmedIsKept(m);
    }
    NonBlankSpec(row.models);
    NonBlankSpec(row.multiModels);
    ReloadedTextIsListed(row.activeModel, base.activeModel, row.models);
    ReloadedTextIsListed(row.automationModel, base.automationModel, row.models);
    ReloadedMode(rules, id, base, row);
    assert Coherent(reread);
    NormalizedKeepsRest(reread);
    NormalizedKeepsModels(reread);
  }

  lemma NormalizedKeepsModels(row: Row)
    ensures Normalized(row).models == row.models && Normalized(row).activeModel == row.activeModel
  {
  }

  lemma ReloadKeepsKept(rules: Rules, base: Control, c: Control)
    requires Kept(base, base) && Kept(base, c) && forall id :: id in base.rows ==> Trimmed(id)
    ensures Kept(base, Load(rules, base, Save(c)))
  {
    hide RowKept, LoadRow, Trimmed, Strip, Record;
    var loaded := Load(rules, base, Save(c));
    forall id | id in loaded.rows && id in base.rows
      ensures RowKept(base.rows[id], loaded.rows[id])
    {
      assert id in c.order;
      LoadedRow(rules, base, c, id);
      ReloadKeepsRow(rules, id, base.rows[id], c.rows[id]);
    }
    assert c.active in c.order && c.active in base.rows;
    TrimmedIsKept(c.active);
  }

  lemma KeptIsInvariant(base: Control, c: Control)
    requires Kept(base, c) && NamesRows(base)
    ensures Invariant(c)
  {
    hide RowInvariant, CleanModels;
    assert forall id :: id in c.rows ==> id in base.rows && RowKept(base.rows[id], c.rows[id]);
  }

  predicate ModelsTrimmed(calls: seq<Call>) {
    forall i :: 0 <= i < |calls| && calls[i].Do? && calls[i].op.SetActiveModel? ==> Trimmed(calls[i].op.model)
  }

  /** Over every run, whatever is refused and wherever the restarts stand, memory
      and file keep the invariant: the active provider names a row, and every row
      lists, once and clean, each model it refers to, with a listed effort and a
      known mode. */
  lemma {:induction false} InvariantThroughRestarts(rules: Rules, base: Control, calls: seq<Call>)
    requires Kept(base, base) && (forall id :: id in base.rows ==> Trimmed(id)) && ModelsTrimmed(calls)
    ensures var l := After(rules, base, calls);
            && Kept(base, l.memory) && Invariant(l.memory)
            && (l.saved.Some? ==> Kept(base, l.saved.value) && Invariant(l.saved.value))
  {
    hide RowKept, Apply, Load, Trimmed, RowInvariant;
    if calls != [] {
      var init := calls[..|calls| - 1];
      var l := After(rules, base, init);
      InvariantThroughRestarts(rules, base, init);
      match calls[|calls| - 1]
      case Restart =>
        if l.saved.Some? {
          ReloadKeepsKept(rules, base, l.saved.value);
        }
      case Do(op) =>
        assert calls[|calls| - 1].Do?;
        ApplyKeepsKept(rules, base, l.memory, op);
    }
    KeptIsInvariant(base, After(rules, base, calls).memory);
    if After(rules, base, calls).saved.Some? {
      KeptIsInvariant(base, After(rules, base, calls).saved.value);
    }
  }

  /** The control plane's own start is such a one, whatever the environment's URLs. */
  lemma DefaultKeepsInvariant(rules: Rules, lmstudioUrl: string, litellmUrl: string, calls: seq<Call>)
    requires ModelsTrimmed(calls)
    ensures NamesRows(DefaultControl(lmstudioUrl, litellmUrl))
    ensures Invariant(After(rules, DefaultControl(lmstudioUrl, litellmUrl), calls).memory)
  {
    hide RowInvariant, After, Trimmed;
    DefaultNamesRows(lmstudioUrl, litellmUrl);
    DefaultIsInvariant(lmstudioUrl, litellmUrl);
    InvariantThroughRestarts(rules, DefaultControl(lmstudioUrl, litellmUrl), calls);
  }

  lemma ModelsAfterSetting(row: Row, model: string)
    ensures var after := WithActiveModel(row, model);
            && after.activeModel == model
            && after.models == if model != "" && model !in row.models then row.models + [model] else row.models
  {
    hide NormalizeEffort, NormalizeMetadata, ChooseEffort;
  }

  lemma NonBlankOfOneMore(models: seq<string>, model: string)
    ensures NonBlank(models + [model]) == NonBlank(models) + if Blank(model) then [] else [model]
  {
    hide Blank;
    assert (models + [model])[..|models|] == models;
  }

  /** ... which is about trimmed models: one set with surrounding white space is read
      back trimmed, and then listed only if its trimmed form was. */
  lemma ReloadListsActiveModelIff(rules: Rules, id: string, base: Row, row: Row, model: string)
    requires RowKept(base, base) && RowKept(base, row)
    ensures var loaded := LoadRow(rules, id, base, Record(id, WithActiveModel(row, model)));
            (loaded.activeModel != "" ==> loaded.activeModel in loaded.models)
            <==> Blank(model) || Trimmed(model) || Strip(model) in row.models
  {
    hide Trimmed, Strip, Blank, LoadConnection, NonBlank, Normalized, IsMode, Lower, LoadRow, EffortNormal, NoDuplicates,
      WithActiveModel;
    var after := WithActiveModel(row, model);
    var reread := Reread(rules, id, base, after);
    LoadRowNormalizesReread(rules, id, base, after);
    NormalizedKeepsModels(reread);
    ModelsAfterSetting(row, model);
    forall m | m in row.models
      ensures !Blank(m)
    {
      TrimmedIsKept(m);
    }
    NonBlankSpec(row.models);
    NonBlankOfOneMore(row.models, model);
    TrimmedIsKept(model);
    BlankMeans(model);
    BlankEmpty();
    assert Trimmed(Strip(model));
  }
}
