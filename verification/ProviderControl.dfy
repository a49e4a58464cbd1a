/** The operations of the provider control plane on its rows, and the object that
    performs them in place. */
module ProviderControl {
  import opened Sequences
  import opened Text
  import opened Providers
  import opened ProviderSnapshot

  datatype Op =
    | SetActiveProvider(id: string)
    | SetActiveModel(id: string, model: string)
    | SetReasoningEffort(id: string, effort: string)
    | SetMultiModels(id: string, models: seq<string>)
    | SetConnection(id: string, baseUrl: string, mode: Option<string>)
    | SetAutomationModel(id: string, model: string, supportsVision: Option<bool>, visionRequired: Option<bool>)
    | RefreshModels(id: string, discovered: seq<string>, metadata: map<string, Metadata>)

  datatype Refusal =
    ProviderNotFound | EffortNotSupported | InvalidBaseUrl | InvalidMode | ModelRequired

  datatype Reply = Done | Refused(reason: Refusal)

  // ---------- what each operation does to its row ----------

  function WithActiveModel(row: Row, model: string): Row {
    Normalized(row.(
      activeModel := model,
      configured := true,
      models := if model != "" && model !in row.models then row.models + [model] else row.models))
  }

  function WithMultiModels(row: Row, models: seq<string>): Row {
    var cleaned := CleanAll(models);
    row.(multiModels := cleaned, models := row.models + Fresh(row.models, cleaned), configured := true)
  }

  /** The URL and mode that `set_connection` goes on with. */
  function ResolveConnection(rules: Rules, id: string, url: string, mode: Option<string>): (string, Option<string>) {
    if id == LITELLM && rules.googleUrl(url) then ("", Some("litellm_sdk"))
    else if id == LITELLM && url != "" && (mode.None? || NeedsProxy(mode.value)) then (url, Some("litellm_proxy"))
    else (url, mode)
  }

  function WithAutomationModel(rules: Rules, row: Row, model: string,
                               supportsVision: Option<bool>, visionRequired: Option<bool>): Row
  {
    var vision := if supportsVision.Some? then supportsVision.value else rules.suggestsVision(model);
    row.(automationModel := model,
         models := if model in row.models then row.models else row.models + [model],
         capabilities := row.capabilities["vision" := vision],
         policy := if visionRequired.Some? then row.policy["vision_required" := visionRequired.value] else row.policy,
         configured := true)
  }

  /** The row after discovery found models: the merged list, new metadata, and an
      active model that is listed. */
  function Discovered(row: Row, models: seq<string>, metadata: map<string, Metadata>): Row {
    row.(healthy := true,
         models := models,
         metadata := metadata,
         activeModel := if row.activeModel in models || models == [] then row.activeModel else models[0])
  }

  function WithDiscovered(row: Row, discovered: seq<string>, metadata: map<string, Metadata>): Row {
    var found := Dedup(CleanAll(discovered));
    if found == [] then row.(healthy := false)
    else Normalized(Discovered(row, Dedup(CleanAll(found + row.models)), metadata)).(configured := true)
  }

  /** The base URL is written before the mode is looked at. */
  function WithConnection(rules: Rules, id: string, row: Row, baseUrl: string, mode: Option<string>): (Row, Reply) {
    var cleaned := Strip(baseUrl);
    if cleaned != "" && !rules.safeUrl(cleaned) then (row, Refused(InvalidBaseUrl))
    else
      var (url, chosen) := ResolveConnection(rules, id, cleaned, mode);
      var written := row.(baseUrl := url);
      if chosen.Some? && CleanMode(chosen.value) == "" then (written, Refused(InvalidMode))
      else
        (written.(
          mode := if chosen.Some? then CleanMode(chosen.value) else row.mode,
          supportsCustomBaseUrl := true,
          configured := true), Done)
  }

  function WithEffort(row: Row, effort: string): (Row, Reply) {
    var cleaned := NormalizeEffort(effort);
    if cleaned in Allowed(row) then (row.(effort := cleaned), Done) else (row, Refused(EffortNotSupported))
  }

  /** What an operation makes of the row it names. */
  function Edit(rules: Rules, row: Row, op: Op): (Row, Reply) {
    match op
    case SetActiveProvider(_) => (row.(configured := true), Done)
    case SetActiveModel(_, model) => (WithActiveModel(row, model), Done)
    case SetReasoningEffort(_, effort) => WithEffort(row, effort)
    case SetMultiModels(_, models) => (WithMultiModels(row, models), Done)
    case SetConnection(id, baseUrl, mode) => WithConnection(rules, id, row, baseUrl, mode)
    case SetAutomationModel(_, model, supportsVision, visionRequired) =>
      if Blank(model) then (row, Refused(ModelRequired))
      else (WithAutomationModel(rules, row, Strip(model), supportsVision, visionRequired), Done)
    case RefreshModels(_, discovered, metadata) => (WithDiscovered(row, discovered, metadata), Done)
  }

  function Put(c: Control, id: string, row: Row): (r: Control)
    ensures id in c.rows && row == c.rows[id] ==> r == c
  {
    assert id in c.rows && row == c.rows[id] ==> c.rows[id := row] == c.rows;
    c.(rows := c.rows[id := row])
  }

  function Apply(rules: Rules, c: Control, op: Op): (Control, Reply) {
    if op.id !in c.rows then (c, Refused(ProviderNotFound))
    else
      var (row, reply) := Edit(rules, c.rows[op.id], op);
      var after := Put(c, op.id, row);
      (if op.SetActiveProvider? then after.(active := op.id) else after, reply)
  }

  function Run(rules: Rules, c: Control, ops: seq<Op>): Control {
    if ops == [] then c else Apply(rules, Run(rules, c, ops[..|ops| - 1]), ops[|ops| - 1]).0
  }

  // ---------- the object ----------

  method AppendMissing(models: seq<string>, additions: seq<string>) returns (all: seq<string>)
    ensures all == models + Fresh(models, additions)
  {
    all := models;
    for i := 0 to |additions|
      invariant all == models + Fresh(models, additions[..i])
    {
      assert additions[..i + 1] == additions[..i] + [additions[i]];
      FreshOfOneMore(models, additions[..i], additions[i]);
      if additions[i] !in all {
        all := all + [additions[i]];
      }
    }
    assert additions[..|additions|] == additions;
  }

  class InMemoryProviderControl {
    const rules: Rules
    const order: seq<string>
    var providers: map<string, Row>
    var activeProviderId: string
    var disk: Option<Snapshot>

    function View(): Control
      reads this
    {
      Control(activeProviderId, order, providers)
    }

    ghost predicate Valid()
      reads this
    {
      NamesRows(View())
    }

    /** Starts from the given rows and whatever the persistence file holds. */
    constructor (rules: Rules, initial: Control, disk: Option<Snapshot>)
      requires NamesRows(initial)
      ensures View() == if disk.Some? then Load(rules, initial, disk.value) else initial
      ensures this.disk == disk && this.rules == rules
    {
      var c := if disk.Some? then Load(rules, initial, disk.value) else initial;
      this.rules := rules;
      order := c.order;
      providers := c.rows;
      activeProviderId := c.active;
      this.disk := disk;
    }

    /** Stores the edited row and reports the change, which writes the file. */
    method Commit(id: string, row: Row)
      requires Valid() && id in providers
      modifies this`providers, this`disk
      ensures Valid() && View() == Put(old(View()), id, row) && disk == Some(Save(View()))
    {
      providers := providers[id := row];
      disk := Some(Save(View()));
    }

    twostate predicate Performed(op: Op, reply: Reply)
      requires old(Valid())
      reads this
    {
      var (after, expected) := Apply(rules, old(View()), op);
      && reply == expected
      && View() == after
      && Valid()
      && disk == if reply.Done? then Some(Save(after)) else old(disk)
    }

    method SetActiveProvider(id: string) returns (reply: Reply)
      requires Valid()
      modifies this
      ensures Performed(Op.SetActiveProvider(id), reply)
    {
      hide Normalized, NormalizeEffort, CleanMode, NeedsProxy, Save, CleanAll, Allowed, Strip, ResolveConnection;
      if id !in providers {
        return Refused(ProviderNotFound);
      }
      activeProviderId := id;
      Commit(id, providers[id].(configured := true));
      return Done;
    }

    method SetActiveModel(id: string, model: string) returns (reply: Reply)
      requires Valid()
      modifies this
      ensures Performed(Op.SetActiveModel(id, model), reply)
    {
      hide Normalized, NormalizeEffort, CleanMode, NeedsProxy, Save, CleanAll, Allowed, Strip, ResolveConnection;
      if id !in providers {
        return Refused(ProviderNotFound);
      }
      var row := providers[id].(activeModel := model, configured := true);
      if model != "" && model !in row.models {
        row := row.(models := row.models + [model]);
      }
      Commit(id, Normalized(row));
      return Done;
    }

    method SetReasoningEffort(id: string, effort: string) returns (reply: Reply)
      requires Valid()
      modifies this
      ensures Performed(Op.SetReasoningEffort(id, effort), reply)
    {
      hide Normalized, NormalizeEffort, CleanMode, NeedsProxy, Save, CleanAll, Allowed, Strip, ResolveConnection;
      if id !in providers {
        return Refused(ProviderNotFound);
      }
      var row, cleaned := providers[id], NormalizeEffort(effort);
      if cleaned !in Allowed(row) {
        return Refused(EffortNotSupported);
      }
      Commit(id, row.(effort := cleaned));
      return Done;
    }

    method SetMultiModels(id: string, models: seq<string>) returns (reply: Reply)
      requires Valid()
      modifies this
      ensures Performed(Op.SetMultiModels(id, models), reply)
    {
      hide Normalized, NormalizeEffort, CleanMode, NeedsProxy, Save, CleanAll, Allowed, Strip, ResolveConnection;
      if id !in providers {
        return Refused(ProviderNotFound);
      }
      var row, cleaned := providers[id], CleanAll(models);
      var known := AppendMissing(row.models, cleaned);
      Commit(id, row.(multiModels := cleaned, models := known, configured := true));
      return Done;
    }

    method SetConnection(id: string, baseUrl: string, mode: Option<string>) returns (reply: Reply)
      requires Valid()
      modifies this
      ensures Performed(Op.SetConnection(id, baseUrl, mode), reply)
    {
      hide Normalized, NormalizeEffort, CleanMode, NeedsProxy, Save, CleanAll, Allowed, Strip, ResolveConnection;
      if id !in providers {
        return Refused(ProviderNotFound);
      }
      var cleaned := Strip(baseUrl);
      if cleaned != "" && !rules.safeUrl(cleaned) {
        return Refused(InvalidBaseUrl);
      }
      var (url, chosen) := ResolveConnection(rules, id, cleaned, mode);
      var row := providers[id].(baseUrl := url);
      if chosen.Some? {
        if CleanMode(chosen.value) == "" {
          providers := providers[id := row];
          return Refused(InvalidMode);
        }
        row := row.(mode := CleanMode(chosen.value));
      }
      Commit(id, row.(supportsCustomBaseUrl := true, configured := true));
      return Done;
    }

    method SetAutomationModel(id: string, model: string, supportsVision: Option<bool>, visionRequired: Option<bool>)
      returns (reply: Reply)
      requires Valid()
      modifies this
      ensures Performed(Op.SetAutomationModel(id, model, supportsVision, visionRequired), reply)
    {
      hide Normalized, NormalizeEffort, CleanMode, NeedsProxy, Save, CleanAll, Allowed, Strip, ResolveConnection;
      if id !in providers {
        return Refused(ProviderNotFound);
      }
      var cleaned := Strip(model);
      if cleaned == "" {
        return Refused(ModelRequired);
      }
      var row := providers[id].(automationModel := cleaned);
      if cleaned !in row.models {
        row := row.(models := row.models + [cleaned]);
      }
      var vision := if supportsVision.Some? then supportsVision.value else rules.suggestsVision(cleaned);
      row := row.(capabilities := row.capabilities["vision" := vision]);
      if visionRequired.Some? {
        row := row.(policy := row.policy["vision_required" := visionRequired.value]);
      }
      row := row.(configured := true);
      assert row == WithAutomationModel(rules, providers[id], cleaned, supportsVision, visionRequired);
      Commit(id, row);
      return Done;
    }

    method RefreshModels(id: string, discovered: seq<string>, metadata: map<string, Metadata>) returns (reply: Reply)
      requires Valid()
      modifies this
      ensures Performed(Op.RefreshModels(id, discovered, metadata), reply)
    {
      hide Normalized, NormalizeEffort, CleanMode, NeedsProxy, Save, CleanAll, Allowed, Strip, ResolveConnection;
      if id !in providers {
        return Refused(ProviderNotFound);
      }
      var models := Dedupe(discovered);
      var row := providers[id].(healthy := models != []);
      if models != [] {
        var all := Dedupe(models + row.models);
        row := row.(models := all, metadata := metadata);
        if row.activeModel !in row.models && row.models != [] {
          row := row.(activeModel := row.models[0]);
        }
        row := Normalized(row).(configured := true);
      }
      Commit(id, row);
      return Done;
    }
  }
}
