/** When saving the catalogue and loading it into a fresh control restores it. */
module ProviderRestore {
  import opened Sequences
  import opened Text
  import opened Providers
  import opened ProviderSnapshot
  import opened ProviderControl
  import opened ProviderRuns

  /** A LiteLLM row with a base URL is in a proxy-capable mode. */
  predicate ProxyNormal(id: string, row: Row) {
    !(id == LITELLM && row.baseUrl != "" && NeedsProxy(row.mode))
  }

  /** The loader takes the row's base URL as it is: trimmed if it takes it at all,
      and otherwise the one `base` has anyway. */
  predicate UrlReloads(rules: Rules, id: string, base: string, url: string) {
    && (if Blank(url) || rules.safeUrl(url) then Trimmed(url) else base == url)
    && !(id == LITELLM && rules.googleUrl(url))
  }

  /** The row can be rebuilt from its record on top of `base`: six facts that can
      be read off the two rows. */
  ghost predicate Restorable(rules: Rules, id: string, base: Row, row: Row) {
    && (if Blank(row.activeModel) then base.activeModel == row.activeModel else Trimmed(row.activeModel))
    && (row.automationModel == "" ==> base.automationModel == "")
    && (forall m :: m in row.models ==> !Blank(m))
    && UrlReloads(rules, id, base.baseUrl, row.baseUrl)
    && ProxyNormal(id, row)
    && (base.configured ==> row.configured)
  }

  /** `row` as far as it is persisted; the other two fields stay those of `base`. */
  function OnTopOf(base: Row, row: Row): Row {
    row.(healthy := base.healthy, supportsCustomBaseUrl := base.supportsCustomBaseUrl)
  }

  lemma {:induction false} NonBlankSpec(models: seq<string>)
    ensures forall m :: m in NonBlank(models) ==> !Blank(m)
    ensures (forall m :: m in models ==> !Blank(m)) ==> NonBlank(models) == models
  {
    hide Blank;
    if models != [] {
      var init, last := models[..|models| - 1], models[|models| - 1];
      NonBlankSpec(init);
      assert models == init + [last];
      assert last in models;
      assert forall m :: m in init ==> m in models;
    }
  }

  lemma ModesAreTrimmed(mode: string)
    requires IsMode(mode)
    ensures Trimmed(mode) && mode != ""
  {
  }

  lemma ModesAreClean(mode: string)
    requires IsMode(mode)
    ensures CleanMode(mode) == mode && mode != ""
  {
    hide IsMode, Trimmed, Strip;
    ModesAreTrimmed(mode);
  }

  lemma NormalEffortIsClean(row: Row)
    requires EffortNormal(row)
    ensures Lower(Strip(row.effort)) == row.effort
  {
    hide Normalized, NormalizeEffort, IsEffort, Strip, Trimmed, Lower, Allowed;
    NormalizedEffortIsListed(row);
    EffortsAreClean(row.effort);
  }

  lemma TrimmedIsKept(s: string)
    ensures Trimmed(s) && s != "" ==> !Blank(s)
    ensures Trimmed(s) ==> Strip(s) == s
  {
  }

  /** The row before its last normalisation. */
  function Reread(rules: Rules, id: string, base: Row, row: Row): Row {
    var (url, mode) := LoadConnection(rules, id, base, Record(id, row));
    base.(
      activeModel := LoadText(Some(row.activeModel), base.activeModel),
      automationModel := LoadText(Some(row.automationModel), base.automationModel),
      baseUrl := url,
      mode := mode,
      models := NonBlank(row.models),
      metadata := row.metadata,
      multiModels := NonBlank(row.multiModels),
      capabilities := row.capabilities,
      policy := row.policy,
      configured := base.configured || row.configured,
      effort := Lower(Strip(row.effort)))
  }

  lemma LoadRowNormalizesReread(rules: Rules, id: string, base: Row, row: Row)
    ensures LoadRow(rules, id, base, Record(id, row)) == Normalized(Reread(rules, id, base, row))
  {
  }

  lemma ConnectionIsReread(rules: Rules, id: string, base: Row, row: Row)
    requires IsMode(row.mode) && !rules.googleUrl("")
    ensures UrlReloads(rules, id, base.baseUrl, row.baseUrl) && ProxyNormal(id, row)
            <==> LoadConnection(rules, id, base, Record(id, row)) == (row.baseUrl, row.mode)
  {
    hide IsMode, Strip, Trimmed, CleanMode;
    TrimmedIsKept(row.baseUrl);
    BlankEmpty();
    ModesAreClean(row.mode);
    FixedModesAreClean();
  }

  lemma TextIsReread(text: string, current: string)
    ensures LoadText(Some(text), current) == text <==> if Blank(text) then current == text else Trimmed(text)
  {
  }

  lemma RereadAgrees(rules: Rules, id: string, base: Row, row: Row)
    requires RowInvariant(row) && !rules.googleUrl("")
    ensures Restorable(rules, id, base, row) <==> Reread(rules, id, base, row) == OnTopOf(base, row)
  {
    hide Trimmed, Strip, Blank, LoadConnection, LoadText, NonBlank, Normalized, IsMode, Lower;
    ConnectionIsReread(rules, id, base, row);
    TextIsReread(row.activeModel, base.activeModel);
    TextIsReread(row.automationModel, base.automationModel);
    TrimmedIsKept(row.automationModel);
    NonBlankSpec(row.models);
    forall m | m in row.multiModels
      ensures !Blank(m)
    {
      TrimmedIsKept(m);
    }
    NonBlankSpec(row.multiModels);
    NormalEffortIsClean(row);
    assert Blank("") by {
      BlankEmpty();
    }
  }

  lemma BlankEmpty()
    ensures Blank("")
  {
  }

  /** Exactly the restorable rows survive being saved and loaded. */
  lemma RowIsRestored(rules: Rules, id: string, base: Row, row: Row)
    requires RowInvariant(row) && !rules.googleUrl("")
    ensures LoadRow(rules, id, base, Record(id, row)) == OnTopOf(base, row) <==> Restorable(rules, id, base, row)
  {
    hide Restorable, Coherent, IsMode, NormalizeEffort, NormalizeMetadata, ChooseEffort, Reread, LoadRow;
    RereadAgrees(rules, id, base, row);
    LoadRowNormalizesReread(rules, id, base, row);
    var reread := Reread(rules, id, base, row);
    EffortNormalLooksAt(row, OnTopOf(base, row));
    if Normalized(reread) == OnTopOf(base, row) {
      RereadFromNormalized(rules, id, base, row);
    }
  }

  lemma RereadFromNormalized(rules: Rules, id: string, base: Row, row: Row)
    requires RowInvariant(row)
    requires Normalized(Reread(rules, id, base, row)) == OnTopOf(base, row)
    ensures Reread(rules, id, base, row) == OnTopOf(base, row)
  {
    hide Trimmed, Strip, Blank, LoadConnection, LoadText, NonBlank, IsMode, Lower, NormalizeEffort, NormalizeMetadata,
      ChooseEffort;
    NormalEffortIsClean(row);
    var reread := Reread(rules, id, base, row);
    assert reread.metadata == row.metadata && reread.effort == row.effort;
  }

  // ---------- any file ----------

  /** What any record does to a row, written by this control or not: a field that is
      missing, blank where blank means nothing, or no usable value leaves the row's. */
  lemma AnyRecordIsRead(rules: Rules, id: string, row: Row, d: RowData)
    ensures var after := LoadRow(rules, id, row, d);
            && after.models == (if d.models.Some? then NonBlank(d.models.value) else row.models)
            && after.multiModels == (if d.multiModels.Some? then NonBlank(d.multiModels.value) else row.multiModels)
            && after.capabilities == (if d.capabilities.Some? then d.capabilities.value else row.capabilities)
            && after.policy == (if d.policy.Some? then d.policy.value else row.policy)
            && (after.configured <==> row.configured || d.configured == Some(true))
            && after.metadata.Keys == (if d.metadata.Some? then d.metadata.value else row.metadata).Keys
            && after.healthy == row.healthy && after.supportsCustomBaseUrl == row.supportsCustomBaseUrl
            && after.activeModel == (if d.activeModel.Some? && Strip(d.activeModel.value) != ""
                                     then Strip(d.activeModel.value) else row.activeModel)
            && after.automationModel == (if d.automationModel.Some? && Strip(d.automationModel.value) != ""
                                         then Strip(d.automationModel.value) else row.automationModel)
  {
    hide Strip, LoadConnection, NonBlank, NormalizeEffort, NormalizeMetadata, ChooseEffort, Lower;
  }

  /** ... and to its connection: an unsafe URL and an unknown mode are passed over,
      and LiteLLM is put into its normal form. */
  lemma AnyConnectionIsRead(rules: Rules, id: string, row: Row, d: RowData)
    ensures var after := LoadRow(rules, id, row, d);
            var taken := d.baseUrl.Some? && (Strip(d.baseUrl.value) == "" || rules.safeUrl(d.baseUrl.value));
            var known := d.mode.Some? && IsMode(Strip(d.mode.value));
            var url := if taken then Strip(d.baseUrl.value) else row.baseUrl;
            var mode := if known then Strip(d.mode.value) else row.mode;
            && (id != LITELLM ==> after.baseUrl == url && after.mode == mode)
            && (id == LITELLM && rules.googleUrl(url) ==> after.baseUrl == "" && after.mode == "litellm_sdk")
            && (id == LITELLM && !rules.googleUrl(url) ==>
                && after.baseUrl == url
                && after.mode == if url != "" && (mode == "native" || mode == "litellm_sdk") then "litellm_proxy"
                                 else mode)
  {
    hide Strip, NonBlank, NormalizeEffort, NormalizeMetadata, ChooseEffort, Lower, LoadText, IsMode;
    EmptyIsNoMode();
  }

  lemma EmptyIsNoMode()
    ensures !IsMode("")
  {
  }

  /** A row without a record in the file stays; one with a single record is read from
      it; records of other ids do nothing. */
  lemma {:induction false} AnyFileIsRead(rules: Rules, rows: map<string, Row>, data: seq<RowData>, id: string, k: nat)
    requires id in rows
    ensures (forall i :: 0 <= i < |data| ==> data[i].providerId != id) ==> LoadRows(rules, rows, data)[id] == rows[id]
    ensures k < |data| && data[k].providerId == id
            && (forall i :: 0 <= i < |data| && i != k ==> data[i].providerId != id) ==>
              LoadRows(rules, rows, data)[id] == LoadRow(rules, id, rows[id], data[k])
  {
    hide LoadRow;
    if data != [] {
      var n := |data| - 1;
      AnyFileIsRead(rules, rows, data[..n], id, k);
    }
  }

  /** The active provider is taken from the file if it names a row. */
  lemma AnyActiveIsRead(rules: Rules, c: Control, snapshot: Snapshot)
    requires forall id :: id in c.rows ==> Trimmed(id) && id != ""
    ensures Load(rules, c, snapshot).active
            == if snapshot.active.Some? && snapshot.active.value in c.rows then snapshot.active.value else c.active
    ensures Load(rules, c, snapshot).order == c.order && Load(rules, c, snapshot).rows.Keys == c.rows.Keys
  {
    hide Trimmed, Strip, LoadRows;
    if snapshot.active.Some? {
      TrimmedIsKept(snapshot.active.value);
    }
  }

  // ---------- whole catalogues ----------

  /** Loading the records of distinct ids updates each of these rows once. */
  lemma {:induction false} RecordsLoadEachRow(rules: Rules, rows: map<string, Row>, ids: seq<string>,
                                              saved: map<string, Row>)
    requires NoDuplicates(ids)
    requires forall id :: id in ids ==> id in saved && id in rows
    ensures var loaded := LoadRows(rules, rows, Records(ids, saved));
            && (forall id :: id in ids ==> loaded[id] == LoadRow(rules, id, rows[id], Record(id, saved[id])))
            && (forall id :: id in rows && id !in ids ==> loaded[id] == rows[id])
  {
    hide LoadRow, Record;
    if ids != [] {
      var init, last := ids[..|ids| - 1], ids[|ids| - 1];
      assert ids == init + [last];
      RecordsLoadEachRow(rules, rows, init, saved);
      OneMoreRecord(rules, rows, ids, saved);
      assert forall id :: id in ids <==> id in init || id == last;
      assert last !in init;
    }
  }

  lemma OneMoreRecord(rules: Rules, rows: map<string, Row>, ids: seq<string>, saved: map<string, Row>)
    requires ids != [] && forall id :: id in ids ==> id in saved && id in rows
    ensures var init, last := ids[..|ids| - 1], ids[|ids| - 1];
            var before := LoadRows(rules, rows, Records(init, saved));
            LoadRows(rules, rows, Records(ids, saved))
            == before[last := LoadRow(rules, last, before[last], Record(last, saved[last]))]
  {
    hide LoadRow;
    var data := Records(ids, saved);
    assert data[..|data| - 1] == Records(ids[..|ids| - 1], saved);
  }

  ghost predicate AllRestorable(rules: Rules, base: Control, c: Control) {
    forall id :: id in c.rows && id in base.rows ==> Restorable(rules, id, base.rows[id], c.rows[id])
  }

  /** `c` as far as it is persisted, on top of `base`. */
  ghost predicate Restores(loaded: Control, base: Control, c: Control) {
    && loaded.order == c.order
    && loaded.rows.Keys == c.rows.Keys == base.rows.Keys
    && forall id :: id in c.rows ==> loaded.rows[id] == OnTopOf(base.rows[id], c.rows[id])
  }

  /** A saved catalogue is restored row by row exactly when each row is restorable. */
  lemma CatalogueIsRestored(rules: Rules, base: Control, c: Control)
    requires Invariant(c) && NamesRows(base) && base.order == c.order && !rules.googleUrl("")
    ensures Restores(Load(rules, base, Save(c)), base, c) <==> AllRestorable(rules, base, c)
    ensures Trimmed(c.active) && c.active != "" ==> Load(rules, base, Save(c)).active == c.active
  {
    hide RowInvariant, LoadRow, Restorable, OnTopOf, Trimmed, Strip, Record;
    TrimmedIsKept(c.active);
    RecordsLoadEachRow(rules, base.rows, c.order, c.rows);
    forall id | id in c.rows
      ensures LoadRow(rules, id, base.rows[id], Record(id, c.rows[id])) == OnTopOf(base.rows[id], c.rows[id])
              <==> Restorable(rules, id, base.rows[id], c.rows[id])
    {
      RowIsRestored(rules, id, base.rows[id], c.rows[id]);
    }
    var loaded := Load(rules, base, Save(c));
    forall id | id in c.rows
      ensures loaded.rows[id] == LoadRow(rules, id, base.rows[id], Record(id, c.rows[id]))
    {
      assert id in c.order;
    }
    assert loaded.rows.Keys == base.rows.Keys == c.rows.Keys by {
      assert forall id :: id in base.rows <==> id in c.order;
      assert forall id :: id in c.rows <==> id in c.order;
    }
    if AllRestorable(rules, base, c) {
      forall id | id in c.rows
        ensures loaded.rows[id] == OnTopOf(base.rows[id], c.rows[id])
      {
        assert Restorable(rules, id, base.rows[id], c.rows[id]);
      }
    }
    if Restores(loaded, base, c) {
      forall id | id in c.rows && id in base.rows
        ensures Restorable(rules, id, base.rows[id], c.rows[id])
      {
        assert loaded.rows[id] == OnTopOf(base.rows[id], c.rows[id]);
      }
    }
  }

  // ---------- runs ----------

  /** A connection change that leaves a LiteLLM row with a base URL in a mode the
      loader will replace: either the mode is refused after the URL was written,
      or it hides `native` or `litellm_sdk` behind surrounding whitespace. */
  predicate LeavesProxyForm(rules: Rules, id: string, row: Row, baseUrl: string, mode: Option<string>) {
    var url := Strip(baseUrl);
    && id == LITELLM && url != "" && rules.safeUrl(url) && !rules.googleUrl(url)
    && mode.Some? && !NeedsProxy(mode.value)
    && NeedsProxy(if CleanMode(mode.value) == "" then row.mode else CleanMode(mode.value))
  }

  /** `set_connection` keeps the LiteLLM normal form exactly when it is not one of
      those changes. */
  lemma ConnectionKeepsProxyForm(rules: Rules, id: string, row: Row, baseUrl: string, mode: Option<string>)
    requires ProxyNormal(id, row)
    ensures ProxyNormal(id, WithConnection(rules, id, row, baseUrl, mode).0)
            <==> !LeavesProxyForm(rules, id, row, baseUrl, mode)
  {
    hide Strip, IsMode;
    FixedModesAreClean();
  }

  lemma FixedModesAreClean()
    ensures CleanMode("litellm_sdk") == "litellm_sdk" && CleanMode("litellm_proxy") == "litellm_proxy"
    ensures !NeedsProxy("litellm_proxy")
  {
  }

  /** The operation, in the state it meets, keeps rows restorable. */
  predicate KeepsRestorable(rules: Rules, base: Control, c: Control, op: Op) {
    match op
    case SetActiveModel(id, model) =>
      Trimmed(model) && (model == "" && id in base.rows ==> base.rows[id].activeModel == "")
    case SetConnection(id, baseUrl, mode) =>
      id in c.rows ==> !LeavesProxyForm(rules, id, c.rows[id], baseUrl, mode)
    case _ => true
  }

  predicate RunKeepsRestorable(rules: Rules, base: Control, ops: seq<Op>) {
    ops == [] ||
    var init := ops[..|ops| - 1];
    RunKeepsRestorable(rules, base, init) && KeepsRestorable(rules, base, Run(rules, base, init), ops[|ops| - 1])
  }

  lemma ListedModelsStayNonBlank(models: seq<string>, additions: seq<string>)
    requires forall m :: m in models ==> !Blank(m)
    requires forall m :: m in additions ==> Trimmed(m) && m != ""
    ensures forall m :: m in models + Fresh(models, additions) ==> !Blank(m)
  {
  }

  lemma ActiveModelKeepsRestorable(rules: Rules, id: string, base: Row, row: Row, model: string)
    requires Restorable(rules, id, base, row) && Trimmed(model) && (model == "" ==> base.activeModel == "")
    ensures Restorable(rules, id, base, WithActiveModel(row, model))
  {
    hide Blank, Trimmed, Strip, NeedsProxy, NormalizeEffort, NormalizeMetadata, ChooseEffort;
    TrimmedIsKept(model);
    assert model == "" ==> Blank(model) by {
      BlankEmpty();
    }
    assert base.configured ==> WithActiveModel(row, model).configured;
  }

  lemma DiscoveryKeepsRestorable(rules: Rules, id: string, base: Row, row: Row,
                                 discovered: seq<string>, metadata: map<string, Metadata>)
    requires Restorable(rules, id, base, row)
    ensures Restorable(rules, id, base, WithDiscovered(row, discovered, metadata))
  {
    hide Blank, Trimmed, Strip, CleanAll, NeedsProxy, NormalizeEffort, NormalizeMetadata, ChooseEffort;
    var found := Dedup(CleanAll(discovered));
    if found != [] {
      var models := Dedup(CleanAll(found + row.models));
      CleanAllIsClean(discovered);
      MergedListKeeps(found, row.models, found[0]);
      CleanAllIsClean(found + row.models);
      forall m | m in models
        ensures !Blank(m) && Trimmed(m)
      {
        TrimmedIsKept(m);
      }
      assert models[0] in models;
    }
  }

  lemma ConnectionKeepsUrlReloading(rules: Rules, id: string, base: string, row: Row, baseUrl: string, mode: Option<string>)
    requires UrlReloads(rules, id, base, row.baseUrl) && !rules.googleUrl("")
    ensures UrlReloads(rules, id, base, WithConnection(rules, id, row, baseUrl, mode).0.baseUrl)
  {
    hide Strip, CleanMode;
    TrimmedIsKept(Strip(baseUrl));
    BlankEmpty();
  }

  lemma ConnectionKeepsModels(rules: Rules, id: string, row: Row, baseUrl: string, mode: Option<string>)
    ensures var after := WithConnection(rules, id, row, baseUrl, mode).0;
            && after.models == row.models && after.activeModel == row.activeModel
            && after.automationModel == row.automationModel && (row.configured ==> after.configured)
  {
  }

  lemma EditKeepsRestorable(rules: Rules, c: Control, base: Control, op: Op)
    requires op.id in c.rows && op.id in base.rows && KeepsRestorable(rules, base, c, op) && !rules.googleUrl("")
    requires Restorable(rules, op.id, base.rows[op.id], c.rows[op.id])
    ensures Restorable(rules, op.id, base.rows[op.id], Edit(rules, c.rows[op.id], op).0)
  {
    hide Blank, Trimmed, Strip, CleanAll, NormalizeEffort, Normalized, CleanMode, NeedsProxy, WithActiveModel,
      WithDiscovered, LeavesProxyForm, UrlReloads, WithConnection;
    var row, start := c.rows[op.id], base.rows[op.id];
    match op
    case SetActiveProvider(id) =>
    case SetActiveModel(id, model) => ActiveModelKeepsRestorable(rules, id, start, row, model);
    case SetReasoningEffort(id, effort) =>
    case SetMultiModels(id, models) =>
      CleanAllIsClean(models);
      ListedModelsStayNonBlank(row.models, CleanAll(models));
    case SetConnection(id, baseUrl, mode) =>
      ConnectionKeepsProxyForm(rules, id, row, baseUrl, mode);
      ConnectionKeepsUrlReloading(rules, id, start.baseUrl, row, baseUrl, mode);
      ConnectionKeepsModels(rules, id, row, baseUrl, mode);
    case SetAutomationModel(id, model, supportsVision, visionRequired) =>
      assert Trimmed(Strip(model));
      TrimmedIsKept(Strip(model));
      assert Blank(model) <==> Strip(model) == "" by {
        BlankMeans(model);
      }
    case RefreshModels(id, discovered, metadata) => DiscoveryKeepsRestorable(rules, id, start, row, discovered, metadata);
  }

  lemma BlankMeans(s: string)
    ensures Blank(s) <==> Strip(s) == ""
  {
  }

  lemma {:induction false} RunStaysRestorable(rules: Rules, base: Control, ops: seq<Op>)
    requires Invariant(base) && AllRestorable(rules, base, base) && !rules.googleUrl("")
    requires RunKeepsRestorable(rules, base, ops)
    ensures AllRestorable(rules, base, Run(rules, base, ops))
    ensures Run(rules, base, ops).order == base.order
  {
    hide Restorable, Edit, KeepsRestorable, RowInvariant;
    if ops != [] {
      var init, op := ops[..|ops| - 1], ops[|ops| - 1];
      RunStaysRestorable(rules, base, init);
      RunKeepsInvariant(rules, base, init);
      var c := Run(rules, base, init);
      if op.id in c.rows {
        assert op.id in c.order && op.id in base.rows;
        EditKeepsRestorable(rules, c, base, op);
      }
    }
  }

  /** Any run that uses trimmed model ids and no connection change that leaves the
      LiteLLM normal form: its catalogue, saved and loaded into the control it
      started from, comes back in every persisted field of every row. */
  lemma SavedRunIsRestored(rules: Rules, base: Control, ops: seq<Op>)
    requires Invariant(base) && AllRestorable(rules, base, base) && !rules.googleUrl("")
    requires forall id :: id in base.rows ==> Trimmed(id) && id != ""
    requires RunKeepsRestorable(rules, base, ops)
    ensures var c := Run(rules, base, ops);
            && NamesRows(c)
            && Restores(Load(rules, base, Save(c)), base, c)
            && Load(rules, base, Save(c)).active == c.active
  {
    hide RowInvariant, Restorable, Trimmed;
    RunStaysRestorable(rules, base, ops);
    RunKeepsInvariant(rules, base, ops);
    var c := Run(rules, base, ops);
    CatalogueIsRestored(rules, base, c);
    assert c.active in c.order && c.active in base.rows;
  }

  // ---------- the file and the memory ----------

  /** The state the file holds after a run: the one after the last accepted call. */
  function SavedState(rules: Rules, c: Control, ops: seq<Op>): Control {
    if ops == [] then c
    else if Apply(rules, Run(rules, c, ops[..|ops| - 1]), ops[|ops| - 1]).1.Done? then Run(rules, c, ops)
    else SavedState(rules, c, ops[..|ops| - 1])
  }

  /** The URL that a mode refused too late has left in this row since the last
      accepted call, and that no file knows. */
  function Unsaved(rules: Rules, c: Control, ops: seq<Op>, id: string): Option<string> {
    if ops == [] then None
    else
      var init, op := ops[..|ops| - 1], ops[|ops| - 1];
      var reply := Apply(rules, Run(rules, c, init), op).1;
      if reply.Done? then None
      else if op.SetConnection? && op.id == id && reply == Refused(InvalidMode)
      then Some(ResolveConnection(rules, id, Strip(op.baseUrl), op.mode).0)
      else Unsaved(rules, c, init, id)
  }

  /** Some refused call left a URL other than the one saved for its row. */
  ghost predicate FileLags(rules: Rules, c: Control, ops: seq<Op>) {
    var saved := SavedState(rules, c, ops);
    exists id :: id in saved.rows && Unsaved(rules, c, ops, id).Some?
                 && Unsaved(rules, c, ops, id).value != saved.rows[id].baseUrl
  }

  function WithUrl(row: Row, url: Option<string>): Row {
    if url.Some? then row.(baseUrl := url.value) else row
  }

  /** Memory is the saved state with those URLs written over it. */
  lemma {:induction false} MemoryIsSavedPlusUnsaved(rules: Rules, c: Control, ops: seq<Op>, id: string)
    ensures var saved, memory := SavedState(rules, c, ops), Run(rules, c, ops);
            && memory.order == saved.order && memory.active == saved.active
            && (id in memory.rows <==> id in saved.rows)
            && (id in saved.rows ==> memory.rows[id] == WithUrl(saved.rows[id], Unsaved(rules, c, ops, id)))
  {
    hide Apply, ResolveConnection, Strip;
    if ops != [] {
      var init, op := ops[..|ops| - 1], ops[|ops| - 1];
      MemoryIsSavedPlusUnsaved(rules, c, init, id);
      if Apply(rules, Run(rules, c, init), op).1.Refused? {
        RefusalsChangeAtMostTheUrl(rules, Run(rules, c, init), op);
      }
    }
  }

  /** The file lags behind memory if and only if a mode refused since the last
      accepted call left a URL that differs from the saved one. */
  lemma FileLagsIffUrlUnsaved(rules: Rules, c: Control, ops: seq<Op>)
    ensures SavedState(rules, c, ops) != Run(rules, c, ops) <==> FileLags(rules, c, ops)
  {
    hide SavedState, Run, Unsaved;
    var saved, memory := SavedState(rules, c, ops), Run(rules, c, ops);
    forall id
      ensures memory.order == saved.order && memory.active == saved.active
      ensures id in memory.rows <==> id in saved.rows
      ensures id in saved.rows ==> memory.rows[id] == WithUrl(saved.rows[id], Unsaved(rules, c, ops, id))
    {
      MemoryIsSavedPlusUnsaved(rules, c, ops, id);
    }
    MemoryIsSavedPlusUnsaved(rules, c, ops, c.active);
    if !FileLags(rules, c, ops) {
      forall id | id in saved.rows
        ensures memory.rows[id] == saved.rows[id]
      {
        var url := Unsaved(rules, c, ops, id);
        assert url.None? || url.value == saved.rows[id].baseUrl;
      }
      assert memory.rows == saved.rows;
    }
  }

  /** A refused mode on the LiteLLM row: the URL stays in memory under its old
      mode, a later save writes that pair, and loading replaces the mode. */
  lemma RefusedModeIsNotRestored(rules: Rules, c: Control, url: string)
    requires Invariant(c) && LITELLM in c.rows && c.rows[LITELLM].mode == "litellm_sdk" && !rules.googleUrl("")
    requires Trimmed(url) && url != "" && rules.safeUrl(url) && !rules.googleUrl(url)
    ensures var (after, reply) := Apply(rules, c, Op.SetConnection(LITELLM, url, Some("grpc")));
            && reply == Refused(InvalidMode)
            && after == Put(c, LITELLM, c.rows[LITELLM].(baseUrl := url))
            && NamesRows(after)
            && !Restores(Load(rules, c, Save(after)), c, after)
  {
    hide Restorable, AllRestorable, WithConnection, Restores, Load, Invariant, Edit, Apply, Put, Trimmed;
    var row := c.rows[LITELLM];
    var op := Op.SetConnection(LITELLM, url, Some("grpc"));
    ConnectionEdit(rules, c, LITELLM, url, Some("grpc"));
    RefusedModeLeavesUrl(rules, row, url);
    ApplyKeepsInvariant(rules, c, op);
    var after := Apply(rules, c, op).0;
    SameNames(c, after);
    CatalogueIsRestored(rules, c, after);
    RestorableNeedsProxyForm(rules, row, row.(baseUrl := url));
    NotAllRestorable(rules, c, after, LITELLM);
  }

  lemma NotAllRestorable(rules: Rules, base: Control, c: Control, id: string)
    requires id in c.rows && id in base.rows && !Restorable(rules, id, base.rows[id], c.rows[id])
    ensures !AllRestorable(rules, base, c)
  {
  }

  lemma ConnectionEdit(rules: Rules, c: Control, id: string, baseUrl: string, mode: Option<string>)
    requires id in c.rows
    ensures var (row, reply) := WithConnection(rules, id, c.rows[id], baseUrl, mode);
            var (after, answer) := Apply(rules, c, Op.SetConnection(id, baseUrl, mode));
            answer == reply && after == Put(c, id, row) && after.rows == c.rows[id := row] && after.order == c.order
  {
    hide WithConnection;
  }

  lemma SameNames(c: Control, after: Control)
    requires Invariant(c) && Invariant(after)
    ensures NamesRows(c) && NamesRows(after)
  {
  }

  lemma RefusedModeLeavesUrl(rules: Rules, row: Row, url: string)
    requires row.mode == "litellm_sdk"
    requires Trimmed(url) && url != "" && rules.safeUrl(url) && !rules.googleUrl(url)
    ensures WithConnection(rules, LITELLM, row, url, Some("grpc")) == (row.(baseUrl := url), Refused(InvalidMode))
    ensures !ProxyNormal(LITELLM, row.(baseUrl := url))
  {
    hide Strip, Trimmed, CleanMode;
    NotAMode();
    TrimmedIsKept(url);
  }

  lemma RestorableNeedsProxyForm(rules: Rules, base: Row, row: Row)
    ensures Restorable(rules, LITELLM, base, row) ==> ProxyNormal(LITELLM, row)
  {
  }

  lemma NotAMode()
    ensures CleanMode("grpc") == "" && !NeedsProxy("grpc") && NeedsProxy("litellm_sdk")
  {
  }

  // ---------- the default control ----------

  function EmptyRow(baseUrl: string, mode: string, supportsCustomBaseUrl: bool): Row {
    Row(false, false, "", "", [], map[], [], baseUrl, mode, supportsCustomBaseUrl,
        map[], map["vision_required" := false], "")
  }

  /** The rows a control is constructed with; the two URLs come from the environment. */
  function DefaultControl(lmstudioUrl: string, litellmUrl: string): Control {
    Control(
      "lmstudio_responses",
      ["lmstudio_responses", LITELLM, "openrouter"],
      map["lmstudio_responses" := EmptyRow(lmstudioUrl, "openai_compatible", true),
          LITELLM := EmptyRow(litellmUrl, if litellmUrl == "" then "litellm_sdk" else "litellm_proxy", true),
          "openrouter" := EmptyRow("", "openrouter_sdk", false)])
  }

  lemma EmptyRowIsInvariant(baseUrl: string, mode: string, supportsCustomBaseUrl: bool)
    requires IsMode(mode)
    ensures RowInvariant(EmptyRow(baseUrl, mode, supportsCustomBaseUrl))
  {
    hide NormalizeEffort, IsEffort, IsMode;
    NormalizeEffortFixesCanonical("");
  }

  lemma EmptyRowIsRestorable(rules: Rules, id: string, baseUrl: string, mode: string, supportsCustomBaseUrl: bool)
    requires UrlReloads(rules, id, baseUrl, baseUrl)
    requires id == LITELLM && baseUrl != "" ==> !NeedsProxy(mode)
    ensures var row := EmptyRow(baseUrl, mode, supportsCustomBaseUrl);
            Restorable(rules, id, row, row)
  {
    hide NeedsProxy, UrlReloads;
    BlankEmpty();
  }

  lemma DefaultNamesRows(lmstudioUrl: string, litellmUrl: string)
    ensures var c := DefaultControl(lmstudioUrl, litellmUrl);
            NamesRows(c) && c.active in c.rows && forall id :: id in c.rows ==> Trimmed(id) && id != ""
  {
    hide EmptyRow;
  }

  /** The default control satisfies the invariant, whatever the environment's URLs. */
  lemma DefaultIsInvariant(lmstudioUrl: string, litellmUrl: string)
    ensures Invariant(DefaultControl(lmstudioUrl, litellmUrl))
  {
    hide EmptyRow, RowInvariant;
    DefaultNamesRows(lmstudioUrl, litellmUrl);
    ModesOfDefaults();
    EmptyRowIsInvariant(lmstudioUrl, "openai_compatible", true);
    EmptyRowIsInvariant(litellmUrl, if litellmUrl == "" then "litellm_sdk" else "litellm_proxy", true);
    EmptyRowIsInvariant("", "openrouter_sdk", false);
  }

  lemma DefaultIsRestorable(rules: Rules, lmstudioUrl: string, litellmUrl: string)
    requires !rules.googleUrl("")
    requires UrlReloads(rules, "lmstudio_responses", lmstudioUrl, lmstudioUrl)
    requires UrlReloads(rules, LITELLM, litellmUrl, litellmUrl)
    ensures var base := DefaultControl(lmstudioUrl, litellmUrl); AllRestorable(rules, base, base)
  {
    hide EmptyRow, Restorable, RowInvariant, UrlReloads, NeedsProxy;
    ModesOfDefaults();
    assert UrlReloads(rules, "openrouter", "", "") by {
      EmptyUrlReloads(rules, "openrouter");
    }
    EmptyRowIsRestorable(rules, "lmstudio_responses", lmstudioUrl, "openai_compatible", true);
    EmptyRowIsRestorable(rules, LITELLM, litellmUrl, if litellmUrl == "" then "litellm_sdk" else "litellm_proxy", true);
    EmptyRowIsRestorable(rules, "openrouter", "", "openrouter_sdk", false);
  }

  lemma EmptyUrlReloads(rules: Rules, id: string)
    requires !rules.googleUrl("")
    ensures UrlReloads(rules, id, "", "")
  {
    BlankEmpty();
  }

  lemma ModesOfDefaults()
    ensures LITELLM != "lmstudio_responses" && LITELLM != "openrouter" && "openrouter" != "lmstudio_responses"
    ensures !NeedsProxy("litellm_proxy")
  {
  }

  /** It is restorable onto itself when the loader takes the environment's URLs as
      they are, a URL it refuses included: then every run the control plane makes
      from its start with trimmed models and such connections is restored. */
  lemma DefaultRunIsRestored(rules: Rules, lmstudioUrl: string, litellmUrl: string, ops: seq<Op>)
    requires !rules.googleUrl("")
    requires UrlReloads(rules, "lmstudio_responses", lmstudioUrl, lmstudioUrl)
    requires UrlReloads(rules, LITELLM, litellmUrl, litellmUrl)
    requires RunKeepsRestorable(rules, DefaultControl(lmstudioUrl, litellmUrl), ops)
    ensures var base := DefaultControl(lmstudioUrl, litellmUrl);
            var c := Run(rules, base, ops);
            && Invariant(c)
            && Restores(Load(rules, base, Save(c)), base, c)
            && Load(rules, base, Save(c)).active == c.active
  {
    hide Invariant, AllRestorable, DefaultControl, UrlReloads;
    var base := DefaultControl(lmstudioUrl, litellmUrl);
    DefaultNamesRows(lmstudioUrl, litellmUrl);
    DefaultIsInvariant(lmstudioUrl, litellmUrl);
    DefaultIsRestorable(rules, lmstudioUrl, litellmUrl);
    RunKeepsInvariant(rules, base, ops);
    SavedRunIsRestored(rules, base, ops);
  }
}
