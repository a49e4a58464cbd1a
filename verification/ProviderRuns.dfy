/** What every run of provider operations keeps, and what each operation achieves. */
module ProviderRuns {
  import opened Sequences
  import opened Text
  import opened Providers
  import opened ProviderSnapshot
  import opened ProviderControl

  // ---------- the invariant ----------

  /** Every model a row refers to is listed, and listed once. */
  ghost predicate Coherent(row: Row) {
    && NoDuplicates(row.models)
    && (row.activeModel != "" ==> row.activeModel in row.models)
    && (row.automationModel != "" ==> row.automationModel in row.models && Trimmed(row.automationModel))
    && (forall m :: m in row.multiModels ==> m in row.models && Trimmed(m) && m != "")
  }

  predicate EffortNormal(row: Row) {
    Normalized(row) == row
  }

  ghost predicate RowInvariant(row: Row) {
    Coherent(row) && EffortNormal(row) && IsMode(row.mode)
  }

  ghost predicate Invariant(c: Control) {
    && NamesRows(c)
    && c.active in c.rows
    && forall id :: id in c.rows ==> RowInvariant(c.rows[id])
  }

  lemma {:induction false} CleanAllKeeps(models: seq<string>, m: string)
    requires m in models && Trimmed(m) && m != ""
    ensures m in CleanAll(models)
  {
    var init, last := models[..|models| - 1], models[|models| - 1];
    assert models == init + [last];
    if m == last {
      assert Strip(m) == m;
    } else {
      CleanAllKeeps(init, m);
    }
  }

  lemma {:induction false} CleanAllIsClean(models: seq<string>)
    ensures forall m :: m in CleanAll(models) ==> Trimmed(m) && m != ""
  {
    if models != [] {
      CleanAllIsClean(models[..|models| - 1]);
    }
  }

  lemma MergedListKeeps(found: seq<string>, models: seq<string>, m: string)
    requires (m in found || m in models) && Trimmed(m) && m != ""
    ensures m in Dedup(CleanAll(found + models))
  {
    CleanAllKeeps(found + models, m);
  }

  lemma DiscoveredIsCoherent(row: Row, found: seq<string>, metadata: map<string, Metadata>)
    requires Coherent(row) && found != [] && Trimmed(found[0]) && found[0] != ""
    ensures Coherent(Discovered(row, Dedup(CleanAll(found + row.models)), metadata))
  {
    hide Trimmed, Strip, Dedup, CleanAll;
    var models := Dedup(CleanAll(found + row.models));
    MergedListKeeps(found, row.models, found[0]);
    if row.automationModel != "" {
      MergedListKeeps(found, row.models, row.automationModel);
    }
    forall m | m in row.multiModels
      ensures m in models
    {
      MergedListKeeps(found, row.models, m);
    }
    assert row.activeModel !in models ==> models[0] in models;
  }

  lemma DiscoveryKeepsCoherent(row: Row, discovered: seq<string>, metadata: map<string, Metadata>)
    requires Coherent(row)
    ensures Coherent(WithDiscovered(row, discovered, metadata))
  {
    hide Trimmed, Strip, Normalized, CleanAll, Coherent, Discovered;
    var found := Dedup(CleanAll(discovered));
    if found == [] {
      CoherentLooksAt(row, row.(healthy := false));
    } else {
      CleanAllIsClean(discovered);
      assert found[0] in found;
      DiscoveredIsCoherent(row, found, metadata);
      var edited := Discovered(row, Dedup(CleanAll(found + row.models)), metadata);
      NormalizedKeepsRest(edited);
      CoherentLooksAt(Normalized(edited), Normalized(edited).(configured := true));
    }
  }

  lemma MultiKeepsCoherent(row: Row, models: seq<string>)
    requires Coherent(row)
    ensures Coherent(WithMultiModels(row, models))
  {
    hide Trimmed, Strip, CleanAll;
    CleanAllIsClean(models);
    var cleaned := CleanAll(models);
    var after := WithMultiModels(row, models);
    assert forall m :: m in after.models <==> m in row.models || m in cleaned;
    var all, added := after.models, Fresh(row.models, cleaned);
    forall i, j | 0 <= i < j < |all|
      ensures all[i] != all[j]
    {
      if i < |row.models| <= j {
        assert added[j - |row.models|] in added;
      }
    }
  }

  lemma SettingListedEffortKeepsNormal(row: Row, effort: string)
    requires EffortNormal(row) && NormalizeEffort(effort) in Allowed(row)
    ensures EffortNormal(row.(effort := NormalizeEffort(effort)))
  {
    hide NormalizeEffort, IsEffort, EffortOptions;
    EffortsListedAreCanonical(ActiveMetadata(row).options);
    var cleaned := NormalizeEffort(effort);
    NormalizeEffortFixesCanonical(cleaned);
    var next := row.(effort := cleaned);
    assert ActiveMetadata(next) == ActiveMetadata(row);
    ChoiceIsStable(Allowed(row), "", cleaned);
    assert Normalized(next).metadata == Normalized(row).metadata;
  }

  /** The effort's normal form looks at three fields only. */
  lemma EffortNormalLooksAt(row: Row, other: Row)
    requires EffortNormal(row)
    requires other.activeModel == row.activeModel && other.metadata == row.metadata && other.effort == row.effort
    ensures EffortNormal(other)
  {
  }

  lemma NormalizedKeepsRest(row: Row)
    ensures Coherent(Normalized(row)) <==> Coherent(row)
    ensures EffortNormal(Normalized(row))
    ensures Normalized(row).baseUrl == row.baseUrl && Normalized(row).mode == row.mode
  {
    hide NormalizeEffort, NormalizeMetadata, ChooseEffort;
    NormalizedIdempotent(row);
  }

  lemma ConnectionKeepsInvariant(rules: Rules, id: string, row: Row, baseUrl: string, mode: Option<string>)
    requires RowInvariant(row)
    ensures RowInvariant(WithConnection(rules, id, row, baseUrl, mode).0)
  {
    hide Strip, Normalized, IsMode, Coherent, EffortNormal;
    var after := WithConnection(rules, id, row, baseUrl, mode).0;
    EffortNormalLooksAt(row, after);
    assert Coherent(after) by {
      CoherentLooksAt(row, after);
    }
  }

  lemma CoherentLooksAt(row: Row, other: Row)
    requires Coherent(row)
    requires other.models == row.models && other.activeModel == row.activeModel
    requires other.automationModel == row.automationModel && other.multiModels == row.multiModels
    ensures Coherent(other)
  {
  }

  lemma ActiveModelKeepsCoherent(row: Row, model: string)
    requires Coherent(row)
    ensures Coherent(WithActiveModel(row, model)) && EffortNormal(WithActiveModel(row, model))
    ensures WithActiveModel(row, model).baseUrl == row.baseUrl && WithActiveModel(row, model).mode == row.mode
  {
    hide Trimmed, Normalized, EffortNormal;
    NormalizedKeepsRest(row.(
      activeModel := model,
      configured := true,
      models := if model != "" && model !in row.models then row.models + [model] else row.models));
  }

  lemma AutomationModelKeepsCoherent(rules: Rules, row: Row, model: string,
                                     supportsVision: Option<bool>, visionRequired: Option<bool>)
    requires Coherent(row) && Trimmed(model) && model != ""
    ensures Coherent(WithAutomationModel(rules, row, model, supportsVision, visionRequired))
  {
  }

  lemma DiscoveryKeepsNormal(row: Row, discovered: seq<string>, metadata: map<string, Metadata>)
    requires EffortNormal(row)
    ensures EffortNormal(WithDiscovered(row, discovered, metadata))
    ensures WithDiscovered(row, discovered, metadata).baseUrl == row.baseUrl
    ensures WithDiscovered(row, discovered, metadata).mode == row.mode
  {
    hide Normalized, CleanAll;
    var found := Dedup(CleanAll(discovered));
    if found == [] {
      EffortNormalLooksAt(row, row.(healthy := false));
    } else {
      var edited := Discovered(row, Dedup(CleanAll(found + row.models)), metadata);
      NormalizedKeepsRest(edited);
      EffortNormalLooksAt(Normalized(edited), Normalized(edited).(configured := true));
    }
  }

  /** Every operation, accepted or refused, keeps the invariant of its row. */
  lemma EditKeepsInvariant(rules: Rules, row: Row, op: Op)
    requires RowInvariant(row)
    ensures RowInvariant(Edit(rules, row, op).0)
  {
    hide Strip, Trimmed, Normalized, NormalizeEffort, CleanAll, IsMode, EffortNormal, Coherent;
    match op
    case SetActiveProvider(id) =>
      EffortNormalLooksAt(row, row.(configured := true));
      CoherentLooksAt(row, row.(configured := true));
    case SetActiveModel(id, model) => ActiveModelKeepsCoherent(row, model);
    case SetReasoningEffort(id, effort) =>
      if NormalizeEffort(effort) in Allowed(row) {
        SettingListedEffortKeepsNormal(row, effort);
        CoherentLooksAt(row, row.(effort := NormalizeEffort(effort)));
      }
    case SetMultiModels(id, models) =>
      MultiKeepsCoherent(row, models);
      EffortNormalLooksAt(row, WithMultiModels(row, models));
    case SetConnection(id, baseUrl, mode) => ConnectionKeepsInvariant(rules, id, row, baseUrl, mode);
    case SetAutomationModel(id, model, supportsVision, visionRequired) =>
      if !Blank(model) {
        AutomationModelKeepsCoherent(rules, row, Strip(model), supportsVision, visionRequired);
        EffortNormalLooksAt(row, WithAutomationModel(rules, row, Strip(model), supportsVision, visionRequired));
      }
    case RefreshModels(id, discovered, metadata) =>
      DiscoveryKeepsCoherent(row, discovered, metadata);
      DiscoveryKeepsNormal(row, discovered, metadata);
  }

  lemma ApplyKeepsInvariant(rules: Rules, c: Control, op: Op)
    requires Invariant(c)
    ensures Invariant(Apply(rules, c, op).0)
  {
    hide RowInvariant, Edit;
    if op.id in c.rows {
      EditKeepsInvariant(rules, c.rows[op.id], op);
    }
  }

  /** Over every run: the active provider names a row, every row lists each model
      it refers to exactly once, and its effort is in normal form. */
  lemma {:induction false} RunKeepsInvariant(rules: Rules, c: Control, ops: seq<Op>)
    requires Invariant(c)
    ensures Invariant(Run(rules, c, ops))
  {
    if ops != [] {
      RunKeepsInvariant(rules, c, ops[..|ops| - 1]);
      ApplyKeepsInvariant(rules, Run(rules, c, ops[..|ops| - 1]), ops[|ops| - 1]);
    }
  }

  /** ... so after every run the effort is one the active model's entry lists, or
      empty exactly when it lists none. */
  lemma RunKeepsEffortListed(rules: Rules, c: Control, ops: seq<Op>, id: string)
    requires Invariant(c) && id in Run(rules, c, ops).rows
    ensures var row := Run(rules, c, ops).rows[id];
            && (row.effort == "" <==> Allowed(row) == [])
            && (row.effort != "" ==> row.effort in Allowed(row) && IsEffort(row.effort))
  {
    hide NormalizeEffort, NormalizeMetadata, ChooseEffort, IsEffort;
    RunKeepsInvariant(rules, c, ops);
    NormalizedEffortIsListed(Run(rules, c, ops).rows[id]);
  }

  /** A base URL `set_connection` may leave behind. */
  predicate CheckedUrl(rules: Rules, id: string, url: string) {
    && Trimmed(url)
    && (url == "" || rules.safeUrl(url))
    && !(id == LITELLM && rules.googleUrl(url))
  }

  /** Over every run from any rows, each base URL is the one the row started with,
      which nobody checked if it came from the environment, or a checked one. */
  lemma {:induction false} RunUrlsAreChecked(rules: Rules, c: Control, ops: seq<Op>, id: string)
    requires !rules.googleUrl("") && id in c.rows
    ensures id in Run(rules, c, ops).rows
    ensures var url := Run(rules, c, ops).rows[id].baseUrl;
            url == c.rows[id].baseUrl || CheckedUrl(rules, id, url)
  {
    hide CheckedUrl, Edit;
    if ops != [] {
      var init, op := ops[..|ops| - 1], ops[|ops| - 1];
      RunUrlsAreChecked(rules, c, init, id);
      EditChecksUrl(rules, Run(rules, c, init).rows[id], op);
    }
  }

  lemma EditChecksUrl(rules: Rules, row: Row, op: Op)
    requires !rules.googleUrl("")
    ensures var url := Edit(rules, row, op).0.baseUrl;
            url == row.baseUrl || CheckedUrl(rules, op.id, url)
  {
    hide Strip, CleanMode, NormalizeEffort, NormalizeMetadata, ChooseEffort, CleanAll;
  }

  /** A refused operation changes nothing, with one exception: a bad mode is
      refused after the base URL has been written, and not saved. */
  lemma RefusalsChangeAtMostTheUrl(rules: Rules, c: Control, op: Op)
    requires Apply(rules, c, op).1.Refused?
    ensures var (after, reply) := Apply(rules, c, op);
            && (reply.reason != InvalidMode ==> after == c)
            && (reply.reason == InvalidMode ==>
                && op.SetConnection? && op.id in c.rows
                && var url := ResolveConnection(rules, op.id, Strip(op.baseUrl), op.mode).0;
                && after == Put(c, op.id, c.rows[op.id].(baseUrl := url))
                && (after == c <==> url == c.rows[op.id].baseUrl))
  {
    hide Strip, CleanMode, NormalizeEffort, Normalized, ResolveConnection;
    if op.SetConnection? && op.id in c.rows {
      var url := ResolveConnection(rules, op.id, Strip(op.baseUrl), op.mode).0;
      var row := c.rows[op.id];
      assert url != row.baseUrl ==> Put(c, op.id, row.(baseUrl := url)).rows[op.id] != row;
    }
  }

  /** When each operation is refused, and as what. */
  lemma RefusalsAreExact(rules: Rules, row: Row, op: Op)
    ensures var reply := Edit(rules, row, op).1;
            match op
            case SetReasoningEffort(_, effort) =>
              && (reply == Refused(EffortNotSupported) <==> NormalizeEffort(effort) !in Allowed(row))
              && (reply.Refused? ==> reply.reason == EffortNotSupported)
            case SetAutomationModel(_, model, _, _) =>
              && (reply == Refused(ModelRequired) <==> Strip(model) == "")
              && (reply.Refused? ==> reply.reason == ModelRequired)
            case SetConnection(id, baseUrl, mode) =>
              var url := Strip(baseUrl);
              var safe := url == "" || rules.safeUrl(url);
              var proxied := url != "" && (mode.None? || NeedsProxy(mode.value));
              var overridden := id == LITELLM && (rules.googleUrl(url) || proxied);
              var known := {"native", "litellm_sdk", "litellm_proxy", "openai_compatible", "openrouter_sdk"};
              && (reply == Refused(InvalidBaseUrl) <==> !safe)
              && (reply == Refused(InvalidMode) <==> safe && !overridden && mode.Some? && Strip(mode.value) !in known)
              && (reply.Refused? ==> reply.reason == InvalidBaseUrl || reply.reason == InvalidMode)
            case _ => reply == Done
  {
    hide Strip, NormalizeEffort, NormalizeMetadata, ChooseEffort, CleanAll, EffortOptions;
    FixedModesAreModes();
  }

  lemma FixedModesAreModes()
    ensures CleanMode("litellm_sdk") == "litellm_sdk" && CleanMode("litellm_proxy") == "litellm_proxy"
  {
  }

  // ---------- what an accepted operation achieves ----------

  /** The fields an operation can change; it leaves the others as they are. */
  lemma EditLeavesRest(rules: Rules, row: Row, op: Op)
    ensures var after := Edit(rules, row, op).0;
            match op
            case SetActiveProvider(_) => after == row.(configured := after.configured)
            case SetActiveModel(_, _) =>
              after == row.(activeModel := after.activeModel, models := after.models, metadata := after.metadata,
                            effort := after.effort, configured := after.configured)
            case SetReasoningEffort(_, _) => after == row.(effort := after.effort)
            case SetMultiModels(_, _) =>
              after == row.(multiModels := after.multiModels, models := after.models, configured := after.configured)
            case SetConnection(_, _, _) =>
              after == row.(baseUrl := after.baseUrl, mode := after.mode,
                            supportsCustomBaseUrl := after.supportsCustomBaseUrl, configured := after.configured)
            case SetAutomationModel(_, _, _, _) =>
              after == row.(automationModel := after.automationModel, models := after.models,
                            capabilities := after.capabilities, policy := after.policy, configured := after.configured)
            case RefreshModels(_, _, _) =>
              after == row.(healthy := after.healthy, models := after.models, metadata := after.metadata,
                            activeModel := after.activeModel, effort := after.effort, configured := after.configured)
  {
    hide Strip, Blank, CleanAll, Fresh, WithActiveModel, WithDiscovered, WithConnection, WithEffort;
    match op
    case SetActiveModel(_, model) => ActiveModelLeavesRest(row, model);
    case SetReasoningEffort(_, effort) => EffortLeavesRest(row, effort);
    case SetConnection(id, baseUrl, mode) => ConnectionLeavesRest(rules, id, row, baseUrl, mode);
    case RefreshModels(_, discovered, metadata) => RefreshLeavesRest(row, discovered, metadata);
    case _ =>
  }

  lemma ActiveModelLeavesRest(row: Row, model: string)
    ensures var after := WithActiveModel(row, model);
            after == row.(activeModel := after.activeModel, models := after.models, metadata := after.metadata,
                          effort := after.effort, configured := after.configured)
  {
    hide NormalizeEffort, NormalizeMetadata, ChooseEffort;
  }

  lemma EffortLeavesRest(row: Row, effort: string)
    ensures var after := WithEffort(row, effort).0; after == row.(effort := after.effort)
  {
    hide NormalizeEffort, EffortOptions;
  }

  lemma ConnectionLeavesRest(rules: Rules, id: string, row: Row, baseUrl: string, mode: Option<string>)
    ensures var after := WithConnection(rules, id, row, baseUrl, mode).0;
            after == row.(baseUrl := after.baseUrl, mode := after.mode,
                          supportsCustomBaseUrl := after.supportsCustomBaseUrl, configured := after.configured)
  {
    hide Strip, CleanMode, ResolveConnection;
  }

  lemma RefreshLeavesRest(row: Row, discovered: seq<string>, metadata: map<string, Metadata>)
    ensures var after := WithDiscovered(row, discovered, metadata);
            after == row.(healthy := after.healthy, models := after.models, metadata := after.metadata,
                          activeModel := after.activeModel, effort := after.effort, configured := after.configured)
  {
    hide CleanAll, Dedup, NormalizeEffort, NormalizeMetadata, ChooseEffort;
  }

  /** An operation on an unknown row is refused; any other touches the row it names,
      and the active provider exactly when that is what it sets. */
  lemma OperationsAreLocal(rules: Rules, c: Control, op: Op, id: string)
    requires id in c.rows
    ensures var (after, reply) := Apply(rules, c, op);
            && after.order == c.order
            && after.rows.Keys == c.rows.Keys
            && (id != op.id ==> after.rows[id] == c.rows[id])
            && (reply == Refused(ProviderNotFound) <==> op.id !in c.rows)
            && (op.id !in c.rows ==> after == c)
            && after.active == (if op.SetActiveProvider? && op.id in c.rows then op.id else c.active)
  {
    hide Edit;
    if op.id in c.rows {
      KnownRowsAreFound(rules, c.rows[op.id], op);
    }
  }

  lemma KnownRowsAreFound(rules: Rules, row: Row, op: Op)
    ensures Edit(rules, row, op).1 != Refused(ProviderNotFound)
  {
  }

  /** Accepted operations take effect, and listed models stay listed in place. */
  lemma AcceptedEditTakesEffect(rules: Rules, row: Row, op: Op)
    requires Edit(rules, row, op).1.Done?
    ensures var after := Edit(rules, row, op).0;
            && (op.SetReasoningEffort? || op.RefreshModels? || after.configured)
            && match op
            case SetActiveProvider(_) => true
            case SetActiveModel(_, model) =>
              && after.activeModel == model
              && after.models == (if model == "" || model in row.models then row.models else row.models + [model])
            case SetReasoningEffort(_, effort) => after.effort == NormalizeEffort(effort) && after.effort in Allowed(row)
            case SetMultiModels(_, models) =>
              after.multiModels == CleanAll(models) && after.models == row.models + Fresh(row.models, CleanAll(models))
            case SetConnection(id, baseUrl, mode) =>
              && after.supportsCustomBaseUrl
              && (id != LITELLM ==> after.baseUrl == Strip(baseUrl))
              && (after.baseUrl == "" || (after.baseUrl == Strip(baseUrl) && rules.safeUrl(after.baseUrl)))
              && (id != LITELLM && mode.Some? ==> after.mode == Strip(mode.value) && IsMode(after.mode))
              && (id != LITELLM && mode.None? ==> after.mode == row.mode)
              && (id == LITELLM && rules.googleUrl(Strip(baseUrl)) ==> after.baseUrl == "" && after.mode == "litellm_sdk")
              && (id == LITELLM && !rules.googleUrl(Strip(baseUrl)) ==>
                  && after.baseUrl == Strip(baseUrl)
                  && after.mode == if after.baseUrl != "" && (mode.None? || NeedsProxy(mode.value)) then "litellm_proxy"
                                   else if mode.Some? then Strip(mode.value) else row.mode)
            case SetAutomationModel(_, model, vision, required) =>
              && after.automationModel == Strip(model) != ""
              && after.models == (if Strip(model) in row.models then row.models else row.models + [Strip(model)])
              && after.capabilities
                 == row.capabilities["vision" := if vision.Some? then vision.value else rules.suggestsVision(Strip(model))]
              && after.policy == (if required.Some? then row.policy["vision_required" := required.value] else row.policy)
            case RefreshModels(_, discovered, _) =>
              var found := Dedup(CleanAll(discovered));
              && (after.healthy <==> found != [])
              && (!after.healthy ==> after == row.(healthy := false))
              && (after.healthy ==> after.configured && after.models == found + Fresh(found, CleanAll(row.models)))
  {
    hide Strip, NormalizeEffort, CleanAll, NormalizeMetadata, ChooseEffort, IsMode;
    if op.RefreshModels? {
      DiscoveredComeFirst(op.discovered, row.models);
    }
  }

  /** What a refresh makes of a row: discovered models first, then the listed ones
      that were not discovered; the new metadata, its active entry in normal form;
      and the active model it had, unless that is no longer listed. */
  lemma RefreshTakesEffect(row: Row, discovered: seq<string>, metadata: map<string, Metadata>, model: string)
    ensures var found, after := Dedup(CleanAll(discovered)), WithDiscovered(row, discovered, metadata);
            && (found == [] ==> after == row.(healthy := false))
            && (found != [] ==>
                && after.healthy && after.configured
                && after.models == found + Fresh(found, CleanAll(row.models))
                && after.activeModel == (if row.activeModel in after.models then row.activeModel else found[0])
                && after.metadata.Keys == metadata.Keys
                && (model in metadata && model != after.activeModel ==> after.metadata[model] == metadata[model])
                && (model in metadata && model == after.activeModel ==>
                    after.metadata[model] == NormalizeMetadata(metadata[model])))
  {
    hide Strip, NormalizeEffort, CleanAll, NormalizeMetadata, ChooseEffort, Fresh, Dedup;
    var found := Dedup(CleanAll(discovered));
    if found != [] {
      DiscoveredComeFirst(discovered, row.models);
    }
  }

  /** So a refresh keeps the active model of a coherent row ... */
  lemma RefreshKeepsActiveModel(row: Row, discovered: seq<string>, metadata: map<string, Metadata>)
    requires Coherent(row) && row.activeModel != "" && Trimmed(row.activeModel)
    ensures WithDiscovered(row, discovered, metadata).activeModel == row.activeModel
  {
    hide Strip, Trimmed, CleanAll, Dedup;
    var found := Dedup(CleanAll(discovered));
    RefreshTakesEffect(row, discovered, metadata, row.activeModel);
    if found != [] {
      MergedListKeeps(found, row.models, row.activeModel);
      DiscoveredComeFirst(discovered, row.models);
    }
  }

  lemma EditKeepsActiveModel(rules: Rules, row: Row, op: Op)
    requires Coherent(row) && row.activeModel != "" && Trimmed(row.activeModel) && !op.SetActiveModel?
    ensures Edit(rules, row, op).0.activeModel == row.activeModel
  {
    hide Coherent, Trimmed;
    EditLeavesRest(rules, row, op);
    if op.RefreshModels? {
      RefreshKeepsActiveModel(row, op.discovered, op.metadata);
    }
  }

  /** ... and over every run only `set_active_model` on its row changes it. */
  lemma {:induction false} RunKeepsActiveModel(rules: Rules, c: Control, ops: seq<Op>, id: string)
    requires Invariant(c) && id in c.rows && c.rows[id].activeModel != "" && Trimmed(c.rows[id].activeModel)
    requires forall i :: 0 <= i < |ops| ==> !(ops[i].SetActiveModel? && ops[i].id == id)
    ensures id in Run(rules, c, ops).rows && Run(rules, c, ops).rows[id].activeModel == c.rows[id].activeModel
  {
    hide Edit, Coherent, EffortNormal, IsMode, Trimmed;
    if ops != [] {
      var init, op := ops[..|ops| - 1], ops[|ops| - 1];
      RunKeepsActiveModel(rules, c, init, id);
      RunKeepsInvariant(rules, c, init);
      if op.id == id {
        EditKeepsActiveModel(rules, Run(rules, c, init).rows[id], op);
      }
    }
  }

  lemma DiscoveredComeFirst(discovered: seq<string>, models: seq<string>)
    ensures var found := Dedup(CleanAll(discovered));
            Dedup(CleanAll(found + models)) == found + Fresh(found, CleanAll(models))
  {
    hide Strip, Trimmed;
    var found := Dedup(CleanAll(discovered));
    CleanAllIsClean(discovered);
    forall i | 0 <= i < |found|
      ensures Trimmed(found[i]) && found[i] != ""
    {
      assert found[i] in found;
    }
    CleanAllFixesClean(found);
    CleanAllOfAppend(found, models);
    DedupOfAppend(CleanAll(found), CleanAll(models));
    DedupOfDistinct(found);
  }

  lemma {:induction false} CleanAllOfAppend(a: seq<string>, b: seq<string>)
    ensures CleanAll(a + b) == CleanAll(a) + CleanAll(b)
  {
    hide Strip, Blank;
    if b == [] {
      assert a + b == a;
    } else {
      assert (a + b)[..|a + b| - 1] == a + b[..|b| - 1];
      CleanAllOfAppend(a, b[..|b| - 1]);
    }
  }
}
