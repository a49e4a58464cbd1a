/** Provider selection state: the rows the control plane edits, and the normaliser
    for their reasoning effort. */
module Providers {
  import opened Sequences
  import opened Text

  /** What is known of one model.  `options` is None when the entry is missing or
      not a list, else the text of each listed value. */
  datatype Metadata = Metadata(options: Option<seq<string>>, default: Option<string>, other: map<string, string>)

  datatype Row = Row(
    configured: bool,
    healthy: bool,
    activeModel: string,
    automationModel: string,
    models: seq<string>,
    metadata: map<string, Metadata>,
    multiModels: seq<string>,
    baseUrl: string,
    mode: string,
    supportsCustomBaseUrl: bool,
    capabilities: map<string, bool>,
    policy: map<string, bool>,
    effort: string)

  datatype Control = Control(active: string, order: seq<string>, rows: map<string, Row>)

  /** The parts that look into URLs and model names, left to the caller. */
  datatype Rules = Rules(safeUrl: string -> bool, googleUrl: string -> bool, suggestsVision: string -> bool)

  const LITELLM := "litellm"

  predicate IsMode(m: string) {
    m == "native" || m == "litellm_sdk" || m == "litellm_proxy" || m == "openai_compatible" || m == "openrouter_sdk"
  }

  function CleanMode(value: string): (r: string)
    ensures r == "" || IsMode(r)
  {
    if IsMode(Strip(value)) then Strip(value) else ""
  }

  /** The modes a LiteLLM row with a base URL may not stay in. */
  predicate NeedsProxy(mode: string) {
    mode == "native" || mode == "litellm_sdk"
  }

  // ---------- reasoning effort ----------

  predicate IsEffort(v: string) {
    v == "none" || v == "minimal" || v == "low" || v == "medium" || v == "high" || v == "xhigh"
  }

  function Unaliased(v: string): string {
    if v == "off" then "none"
    else if v == "on" then "medium"
    else if v == "max" then "xhigh"
    else v
  }

  function NormalizeEffort(value: string): (r: string)
    ensures r == "" || IsEffort(r)
  {
    var cleaned := Unaliased(Lower(Strip(value)));
    if IsEffort(cleaned) then cleaned else ""
  }

  /** Which texts denote which effort: case and surrounding space do not matter,
      three levels have a second name, and every other text denotes none of them. */
  lemma EffortsAreRead(value: string)
    ensures var t, r := Lower(Strip(value)), NormalizeEffort(value);
            && (r == "none" <==> t == "none" || t == "off")
            && (r == "minimal" <==> t == "minimal")
            && (r == "low" <==> t == "low")
            && (r == "medium" <==> t == "medium" || t == "on")
            && (r == "high" <==> t == "high")
            && (r == "xhigh" <==> t == "xhigh" || t == "max")
            && (r in {"", "none", "minimal", "low", "medium", "high", "xhigh"})
  {
    hide Strip, Lower;
  }

  lemma EffortsAreClean(v: string)
    requires v == "" || IsEffort(v)
    ensures v != "" <==> IsEffort(v)
    ensures Trimmed(v) && Unaliased(v) == v
    ensures forall i :: 0 <= i < |v| ==> !IsUpper(v[i])
  {
  }

  lemma NormalizeEffortFixesCanonical(value: string)
    requires value == "" || IsEffort(value)
    ensures NormalizeEffort(value) == value
  {
    hide IsEffort, Unaliased, Strip, Trimmed, Lower;
    EffortsAreClean(value);
    assert Lower(Strip(value)) == value;
  }

  /** The cleaned, non-empty entries. */
  function CleanAll(models: seq<string>): (r: seq<string>) {
    if models == [] then []
    else
      var m := models[|models| - 1];
      CleanAll(models[..|models| - 1]) + if Blank(m) then [] else [Strip(m)]
  }

  /** How the cleaned, de-duplicated list grows by one entry. */
  lemma DedupeOneMore(models: seq<string>, i: nat)
    requires i < |models|
    ensures var before, cleaned := Dedup(CleanAll(models[..i])), Strip(models[i]);
            Dedup(CleanAll(models[..i + 1]))
            == if cleaned == "" || cleaned in before then before else before + [cleaned]
  {
    assert models[..i + 1][..i] == models[..i];
    var entries, cleaned := CleanAll(models[..i]), Strip(models[i]);
    if cleaned != "" {
      assert CleanAll(models[..i + 1]) == entries + [cleaned];
      FreshOfOneMore([], entries, cleaned);
    } else {
      assert CleanAll(models[..i + 1]) == entries;
    }
  }

  method Dedupe(models: seq<string>) returns (unique: seq<string>)
    ensures unique == Dedup(CleanAll(models))
  {
    unique := [];
    var seen: set<string> := {};
    for i := 0 to |models|
      invariant unique == Dedup(CleanAll(models[..i]))
      invariant forall m :: m in seen <==> m in unique
    {
      DedupeOneMore(models, i);
      var cleaned := Strip(models[i]);
      if cleaned != "" && cleaned !in seen {
        unique := unique + [cleaned];
        seen := seen + {cleaned};
      }
    }
    assert models[..|models|] == models;
  }

  function NormalizedEntries(values: seq<string>): (r: seq<string>)
    ensures forall v :: v in r ==> IsEffort(v)
  {
    if values == [] then []
    else
      var v := NormalizeEffort(values[|values| - 1]);
      NormalizedEntries(values[..|values| - 1]) + if v == "" then [] else [v]
  }

  function EffortOptions(values: Option<seq<string>>): (r: seq<string>)
    ensures NoDuplicates(r)
  {
    if values.None? then [] else Dedup(CleanAll(NormalizedEntries(values.value)))
  }

  lemma {:induction false} CleanAllFixesClean(values: seq<string>)
    requires forall i :: 0 <= i < |values| ==> Trimmed(values[i]) && values[i] != ""
    ensures CleanAll(values) == values
  {
    if values != [] {
      CleanAllFixesClean(values[..|values| - 1]);
      var init, v := values[..|values| - 1], values[|values| - 1];
      assert Strip(v) == v;
      assert values == init + [v];
    }
  }

  lemma {:induction false} NormalizedEntriesFixCanonical(values: seq<string>)
    requires forall v :: v in values ==> IsEffort(v)
    ensures NormalizedEntries(values) == values
  {
    hide IsEffort, NormalizeEffort;
    if values != [] {
      var v := values[|values| - 1];
      assert values == values[..|values| - 1] + [v];
      NormalizedEntriesFixCanonical(values[..|values| - 1]);
      NormalizeEffortFixesCanonical(v);
      EffortsAreClean(v);
    }
  }

  lemma EffortsListedAreCanonical(values: Option<seq<string>>)
    ensures forall v :: v in EffortOptions(values) ==> IsEffort(v)
  {
    hide IsEffort, NormalizeEffort;
    if values.Some? {
      CanonicalIsClean(NormalizedEntries(values.value));
    }
  }

  lemma CanonicalIsClean(values: seq<string>)
    requires forall v :: v in values ==> IsEffort(v)
    ensures CleanAll(values) == values
  {
    hide IsEffort, NormalizeEffort;
    forall i | 0 <= i < |values|
      ensures Trimmed(values[i]) && values[i] != ""
    {
      EffortsAreClean(values[i]);
    }
    CleanAllFixesClean(values);
  }

  lemma EffortOptionsAreEntries(values: seq<string>)
    ensures EffortOptions(Some(values)) == Dedup(NormalizedEntries(values))
  {
    hide IsEffort, NormalizeEffort, NormalizedEntries;
    CanonicalIsClean(NormalizedEntries(values));
  }

  lemma EntriesOneMore(values: seq<string>, value: string)
    ensures NormalizedEntries([]) == []
    ensures NormalizedEntries(values + [value])
            == NormalizedEntries(values) + if NormalizeEffort(value) == "" then [] else [NormalizeEffort(value)]
  {
    hide NormalizeEffort;
  }

  /** The option list grows, value by value, by the efforts not listed yet. */
  lemma EffortOptionsOneMore(values: seq<string>, value: string)
    ensures EffortOptions(Some([])) == []
    ensures var before, effort := EffortOptions(Some(values)), NormalizeEffort(value);
            EffortOptions(Some(values + [value])) == before + if effort == "" || effort in before then [] else [effort]
  {
    hide NormalizeEffort, NormalizedEntries, EffortOptions;
    EffortOptionsAreEntries(values);
    EffortOptionsAreEntries(values + [value]);
    EffortOptionsAreEntries([]);
    EntriesOneMore(values, value);
    var entries, effort := NormalizedEntries(values), NormalizeEffort(value);
    assert Dedup<string>([]) == [];
    if effort == "" {
      assert entries + [] == entries;
    } else {
      FreshOfOneMore([], entries, effort);
      assert effort in Dedup(entries) <==> effort in entries;
    }
  }

  lemma EffortOptionsIdempotent(values: Option<seq<string>>)
    ensures EffortOptions(Some(EffortOptions(values))) == EffortOptions(values)
  {
    hide IsEffort, NormalizeEffort;
    var r := EffortOptions(values);
    EffortsListedAreCanonical(values);
    NormalizedEntriesFixCanonical(r);
    CanonicalIsClean(r);
    DedupOfDistinct(r);
  }

  function NormalizeMetadata(m: Metadata): Metadata {
    var default := NormalizeEffort(if m.default.Some? then m.default.value else "");
    m.(options := Some(EffortOptions(m.options)), default := if default != "" then Some(default) else None)
  }

  function ActiveMetadata(row: Row): Metadata {
    if row.activeModel in row.metadata then row.metadata[row.activeModel] else Metadata(None, None, map[])
  }

  function Allowed(row: Row): seq<string> {
    EffortOptions(ActiveMetadata(row).options)
  }

  function ChooseEffort(allowed: seq<string>, default: string, current: string): string {
    if current in allowed then current
    else if default in allowed then default
    else if "medium" in allowed then "medium"
    else if allowed != [] then allowed[0]
    else ""
  }

  lemma ChosenEffortIsListed(allowed: seq<string>, default: string, current: string)
    requires forall v :: v in allowed ==> IsEffort(v)
    ensures var r := ChooseEffort(allowed, default, current);
            && (r in allowed || (r == "" && allowed == []))
            && (r == "" <==> allowed == [])
            && (r == "" || IsEffort(r))
  {
  }

  lemma ChoiceIsStable(allowed: seq<string>, default: string, current: string)
    requires current in allowed || (current == "" && allowed == [])
    ensures forall d :: ChooseEffort(allowed, d, current) == current
  {
  }

  /** `_normalize_reasoning_effort`: the active model's entry is put in normal
      form in place, and the effort becomes one it lists. */
  function Normalized(row: Row): Row {
    var m := NormalizeMetadata(ActiveMetadata(row));
    var default := if m.default.Some? then Lower(Strip(m.default.value)) else "";
    row.(metadata := if row.activeModel in row.metadata then row.metadata[row.activeModel := m] else row.metadata,
         effort := ChooseEffort(m.options.value, default, NormalizeEffort(row.effort)))
  }

  lemma NormalizeMetadataIdempotent(m: Metadata)
    ensures NormalizeMetadata(NormalizeMetadata(m)) == NormalizeMetadata(m)
  {
    EffortOptionsIdempotent(m.options);
    NormalizeEffortFixesCanonical(NormalizeEffort(if m.default.Some? then m.default.value else ""));
    NormalizeEffortFixesCanonical("");
  }

  /** The normalised effort is canonical and listed, or empty exactly when the
      active model lists none. */
  lemma NormalizedEffortIsListed(row: Row)
    ensures var r := Normalized(row);
            && Allowed(r) == Allowed(row)
            && (r.effort in Allowed(r) || (r.effort == "" && Allowed(r) == []))
            && (r.effort == "" <==> Allowed(r) == [])
            && (r.effort == "" || IsEffort(r.effort))
  {
    hide IsEffort, NormalizeEffort;
    var m := NormalizeMetadata(ActiveMetadata(row));
    EffortOptionsIdempotent(ActiveMetadata(row).options);
    EffortsListedAreCanonical(ActiveMetadata(row).options);
    var default := if m.default.Some? then Lower(Strip(m.default.value)) else "";
    ChosenEffortIsListed(m.options.value, default, NormalizeEffort(row.effort));
  }

  /** Which listed effort it is: the first listed one of the row's own, the model's
      default, and medium, else the head of the list. */
  lemma NormalizedEffortIsPreferred(row: Row)
    requires Allowed(row) != []
    ensures var allowed, m := Allowed(row), ActiveMetadata(row);
            var own := NormalizeEffort(row.effort);
            var default := NormalizeEffort(if m.default.Some? then m.default.value else "");
            Normalized(row).effort
            == [own, default, "medium", allowed[0]][FirstFalse([own !in allowed, default !in allowed, "medium" !in allowed])]
  {
    hide IsEffort, NormalizeEffort, EffortOptions, Strip, Trimmed, Lower;
    var allowed, m := Allowed(row), ActiveMetadata(row);
    var own, default := NormalizeEffort(row.effort), NormalizeEffort(if m.default.Some? then m.default.value else "");
    EffortsAreClean(default);
    EffortsListedAreCanonical(m.options);
    EffortsAreClean("");
    FirstFalseOfThree(own !in allowed, default !in allowed, "medium" !in allowed);
    assert Lower(Strip(default)) == default;
    assert "" !in allowed;
  }

  /** The entry of the active model in normal form; nothing else about models changes. */
  lemma NormalizedMetadataIsExact(row: Row, model: string)
    ensures Normalized(row).metadata.Keys == row.metadata.Keys
    ensures model in row.metadata ==>
              var before, after := row.metadata[model], Normalized(row).metadata[model];
              if model != row.activeModel then after == before
              else
                && after.other == before.other
                && after.options == Some(EffortOptions(before.options))
                && after.default
                   == (var d := NormalizeEffort(if before.default.Some? then before.default.value else "");
                       if d == "" then None else Some(d))
  {
    hide IsEffort, NormalizeEffort, EffortOptions, ChooseEffort, Strip, Lower;
  }

  lemma NormalizedIdempotent(row: Row)
    ensures Normalized(Normalized(row)) == Normalized(row)
  {
    hide IsEffort, Unaliased, NormalizeEffort, ChooseEffort, EffortOptions, Lower, Strip;
    var r := Normalized(row);
    NormalizeMetadataIdempotent(ActiveMetadata(row));
    NormalizedEffortIsListed(row);
    NormalizeEffortFixesCanonical(r.effort);
    if row.activeModel in row.metadata {
      assert ActiveMetadata(r) == NormalizeMetadata(ActiveMetadata(row));
      assert Normalized(r).metadata == r.metadata;
    } else {
      assert ActiveMetadata(r) == ActiveMetadata(row);
    }
    ChoiceIsStable(Allowed(r), "", r.effort);
  }
}
