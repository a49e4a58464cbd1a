/** The provider catalogue on disk: what is written, and how it is read back. */
module ProviderSnapshot {
  import opened Sequences
  import opened Text
  import opened Providers

  /** One saved row; a field is None when the file lacks it or holds another type. */
  datatype RowData = RowData(
    providerId: string,
    activeModel: Option<string>,
    automationModel: Option<string>,
    baseUrl: Option<string>,
    mode: Option<string>,
    models: Option<seq<string>>,
    metadata: Option<map<string, Metadata>>,
    multiModels: Option<seq<string>>,
    capabilities: Option<map<string, bool>>,
    policy: Option<map<string, bool>>,
    configured: Option<bool>,
    effort: Option<string>)

  datatype Snapshot = Snapshot(active: Option<string>, rows: seq<RowData>)

  /** The catalogue is a dictionary in insertion order. */
  ghost predicate NamesRows(c: Control) {
    && NoDuplicates(c.order)
    && forall id :: id in c.order <==> id in c.rows
  }

  function Record(id: string, row: Row): RowData {
    RowData(id, Some(row.activeModel), Some(row.automationModel), Some(row.baseUrl), Some(row.mode),
            Some(row.models), Some(row.metadata), Some(row.multiModels), Some(row.capabilities),
            Some(row.policy), Some(row.configured), Some(row.effort))
  }

  function Records(ids: seq<string>, rows: map<string, Row>): (r: seq<RowData>)
    requires forall id :: id in ids ==> id in rows
    ensures |r| == |ids| && forall i :: 0 <= i < |ids| ==> r[i] == Record(ids[i], rows[ids[i]])
  {
    seq(|ids|, i requires 0 <= i < |ids| => Record(ids[i], rows[ids[i]]))
  }

  function Save(c: Control): Snapshot
    requires NamesRows(c)
  {
    Snapshot(Some(c.active), Records(c.order, c.rows))
  }

  function NonBlank(models: seq<string>): seq<string> {
    if models == [] then []
    else NonBlank(models[..|models| - 1]) + if Blank(models[|models| - 1]) then [] else [models[|models| - 1]]
  }

  function LoadText(data: Option<string>, current: string): string {
    if data.Some? && !Blank(data.value) then Strip(data.value) else current
  }

  /** The URL and mode of a row after reading the file's. */
  function LoadConnection(rules: Rules, id: string, row: Row, d: RowData): (string, string) {
    var url :=
      if d.baseUrl.Some? && (Blank(d.baseUrl.value) || rules.safeUrl(d.baseUrl.value))
      then Strip(d.baseUrl.value) else row.baseUrl;
    var mode := if d.mode.Some? && CleanMode(d.mode.value) != "" then CleanMode(d.mode.value) else row.mode;
    if id != LITELLM then (url, mode)
    else if rules.googleUrl(url) then ("", "litellm_sdk")
    else if url != "" && NeedsProxy(mode) then (url, "litellm_proxy")
    else (url, mode)
  }

  function LoadRow(rules: Rules, id: string, row: Row, d: RowData): Row {
    var (url, mode) := LoadConnection(rules, id, row, d);
    Normalized(row.(
      activeModel := LoadText(d.activeModel, row.activeModel),
      automationModel := LoadText(d.automationModel, row.automationModel),
      baseUrl := url,
      mode := mode,
      models := if d.models.Some? then NonBlank(d.models.value) else row.models,
      metadata := if d.metadata.Some? then d.metadata.value else row.metadata,
      multiModels := if d.multiModels.Some? then NonBlank(d.multiModels.value) else row.multiModels,
      capabilities := if d.capabilities.Some? then d.capabilities.value else row.capabilities,
      policy := if d.policy.Some? then d.policy.value else row.policy,
      configured := row.configured || d.configured == Some(true),
      effort := if d.effort.Some? then Lower(Strip(d.effort.value)) else row.effort))
  }

  function LoadRows(rules: Rules, rows: map<string, Row>, data: seq<RowData>): (r: map<string, Row>)
    ensures r.Keys == rows.Keys
  {
    if data == [] then rows
    else
      var d := data[|data| - 1];
      var before := LoadRows(rules, rows, data[..|data| - 1]);
      if d.providerId in before
      then before[d.providerId := LoadRow(rules, d.providerId, before[d.providerId], d)]
      else before
  }

  function Load(rules: Rules, c: Control, snapshot: Snapshot): (r: Control)
    ensures NamesRows(c) ==> NamesRows(r)
  {
    var active := snapshot.active;
    Control(
      if active.Some? && !Blank(active.value) && active.value in c.rows then Strip(active.value) else c.active,
      c.order,
      LoadRows(rules, c.rows, snapshot.rows))
  }
}
