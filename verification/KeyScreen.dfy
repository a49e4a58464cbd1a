/** The screening of structured output for unsafe keys: a normaliser for key
    spellings and a recursive check of the whole payload. */
module KeyScreen {
  import opened Sequences
  import opened Text

  predicate IsAlnum(c: char) {
    IsUpper(c) || IsLowerOrDigit(c)
  }

  /** An underscore before every capital that follows a lower-case letter or digit. */
  function CamelSplit(s: string): string {
    if s == "" then ""
    else
      var n := |s| - 1;
      CamelSplit(s[..n]) + (if n > 0 && IsUpper(s[n]) && IsLowerOrDigit(s[n - 1]) then ['_', s[n]] else [s[n]])
  }

  /** Every maximal run of other characters becomes one underscore. */
  function Separate(s: string): string {
    if s == "" then ""
    else
      var n := |s| - 1;
      Separate(s[..n]) + (if IsAlnum(s[n]) then [s[n]] else if n > 0 && !IsAlnum(s[n - 1]) then [] else ['_'])
  }

  function StripLeading(s: string): (r: string)
    ensures r == "" || r[0] != '_'
    ensures s != "" && s[0] != '_' ==> r == s
  {
    if s != "" && s[0] == '_' then StripLeading(s[1..]) else s
  }

  function StripTrailing(s: string): (r: string)
    ensures r == "" || r[|r| - 1] != '_'
    ensures r <= s
    ensures s != "" && s[|s| - 1] != '_' ==> r == s
  {
    if s != "" && s[|s| - 1] == '_' then StripTrailing(s[..|s| - 1]) else s
  }

  function NormalizeKey(key: string): string {
    Lower(StripTrailing(StripLeading(Separate(CamelSplit(key)))))
  }

  /** Lower-case words and digits joined by single underscores, or nothing. */
  predicate Canonical(s: string) {
    && (forall i :: 0 <= i < |s| ==> IsLowerOrDigit(s[i]) || s[i] == '_')
    && (forall i :: 0 < i < |s| ==> s[i - 1] != '_' || s[i] != '_')
    && (s != "" ==> s[0] != '_' && s[|s| - 1] != '_')
  }

  /** The same with capitals allowed and underscores possible at the ends. */
  predicate Separated(s: string) {
    && (forall i :: 0 <= i < |s| ==> IsAlnum(s[i]) || s[i] == '_')
    && (forall i :: 0 < i < |s| ==> s[i - 1] != '_' || s[i] != '_')
  }

  lemma {:induction false} SeparateSeparates(s: string)
    ensures Separated(Separate(s))
    ensures (Separate(s) == "" <==> s == "")
    ensures s != "" ==>
              (Separate(s)[|Separate(s)| - 1] == '_' <==> !IsAlnum(s[|s| - 1]))
  {
    if s != "" {
      SeparateSeparates(s[..|s| - 1]);
    }
  }

  lemma StripLeadingKeepsSeparated(s: string)
    requires Separated(s)
    ensures Separated(StripLeading(s))
  {
  }

  lemma StripTrailingKeepsSeparated(s: string)
    requires Separated(s)
    ensures Separated(StripTrailing(s))
    ensures StripTrailing(s) != "" ==> StripTrailing(s)[0] == s[0]
  {
  }

  lemma NormalizedIsCanonical(key: string)
    ensures Canonical(NormalizeKey(key))
  {
    var separated := Separate(CamelSplit(key));
    SeparateSeparates(CamelSplit(key));
    StripLeadingKeepsSeparated(separated);
    var left := StripLeading(separated);
    StripTrailingKeepsSeparated(left);
    LowerMakesCanonical(StripTrailing(left));
  }

  lemma LowerMakesCanonical(s: string)
    requires Separated(s) && (s != "" ==> s[0] != '_' && s[|s| - 1] != '_')
    ensures Canonical(Lower(s))
  {
  }

  lemma {:induction false} CamelSplitFixesLower(s: string)
    requires forall i :: 0 <= i < |s| ==> !IsUpper(s[i])
    ensures CamelSplit(s) == s
  {
    if s != "" {
      CamelSplitFixesLower(s[..|s| - 1]);
      assert s == s[..|s| - 1] + [s[|s| - 1]];
    }
  }

  lemma {:induction false} SeparateFixesSeparated(s: string)
    requires Separated(s)
    ensures Separate(s) == s
  {
    if s != "" {
      var n := |s| - 1;
      SeparateFixesSeparated(s[..n]);
      assert s == s[..n] + [s[n]];
      assert n > 0 ==> s[n - 1] != '_' || s[n] != '_';
    }
  }

  /** The normal forms are exactly the strings the normaliser leaves alone. */
  lemma CanonicalIsFixed(s: string)
    ensures Canonical(s) <==> NormalizeKey(s) == s
  {
    if Canonical(s) {
      CamelSplitFixesLower(s);
      SeparateFixesSeparated(s);
      assert StripLeading(s) == s && StripTrailing(s) == s && Lower(s) == s;
    }
    NormalizedIsCanonical(s);
  }

  lemma NormalizeKeyIdempotent(key: string)
    ensures NormalizeKey(NormalizeKey(key)) == NormalizeKey(key)
  {
    hide NormalizeKey, Canonical;
    NormalizedIsCanonical(key);
    CanonicalIsFixed(NormalizeKey(key));
  }

  // ---------- payloads (for any predicate of forbidden normal forms) ----------

  /** What `json.dumps` takes: a tuple is written like a list, but is not one. */
  datatype Json =
    | Null
    | Bool(b: bool)
    | Number(n: real)
    | Text(t: string)
    | List(items: seq<Json>)
    | Tuple(items: seq<Json>)
    | Object(members: seq<(string, Json)>)

  /** `_reject_forbidden_keys` returns normally; it does not look into tuples. */
  predicate Accepts(forbidden: string -> bool, value: Json) {
    match value
    case Object(members) =>
      forall i :: 0 <= i < |members| ==>
        !forbidden(NormalizeKey(members[i].0)) && Accepts(forbidden, members[i].1)
    case List(items) => forall i :: 0 <= i < |items| ==> Accepts(forbidden, items[i])
    case _ => true
  }

  /** A step into the payload: member or item number. */
  type Path = seq<nat>

  /** The key that the path ends on, if it leads to an object member. */
  function KeyAt(value: Json, path: Path): Option<string> {
    if path == [] then None
    else if value.Object? then
      if path[0] >= |value.members| then None
      else if |path| == 1 then Some(value.members[path[0]].0)
      else KeyAt(value.members[path[0]].1, path[1..])
    else if value.List? || value.Tuple? then
      if path[0] >= |value.items| then None else KeyAt(value.items[path[0]], path[1..])
    else None
  }

  /** The path leads into a tuple on its way. */
  predicate EntersTuple(value: Json, path: Path) {
    path != [] &&
    if value.Object? then path[0] < |value.members| && EntersTuple(value.members[path[0]].1, path[1..])
    else if value.List? then path[0] < |value.items| && EntersTuple(value.items[path[0]], path[1..])
    else value.Tuple?
  }

  predicate ForbiddenAt(forbidden: string -> bool, value: Json, path: Path) {
    KeyAt(value, path).Some? && forbidden(NormalizeKey(KeyAt(value, path).value))
  }

  /** No key at any depth normalises to a forbidden name. */
  ghost predicate Clean(forbidden: string -> bool, value: Json) {
    forall path :: !ForbiddenAt(forbidden, value, path)
  }

  lemma {:induction false} AcceptedHasNoForbiddenKey(forbidden: string -> bool, value: Json, path: Path)
    requires Accepts(forbidden, value) && !EntersTuple(value, path)
    ensures !ForbiddenAt(forbidden, value, path)
    decreases path
  {
    hide NormalizeKey;
    match value
    case Object(members) =>
      if |path| > 1 && path[0] < |members| {
        AcceptedHasNoForbiddenKey(forbidden, members[path[0]].1, path[1..]);
      }
    case List(items) =>
      if path != [] && path[0] < |items| {
        AcceptedHasNoForbiddenKey(forbidden, items[path[0]], path[1..]);
      }
    case _ =>
  }

  lemma {:induction false} RejectedHasForbiddenKey(forbidden: string -> bool, value: Json) returns (path: Path)
    requires !Accepts(forbidden, value)
    ensures ForbiddenAt(forbidden, value, path) && !EntersTuple(value, path)
    decreases value
  {
    hide NormalizeKey;
    match value
    case Object(members) =>
      var i :| 0 <= i < |members| && !(!forbidden(NormalizeKey(members[i].0)) && Accepts(forbidden, members[i].1));
      if forbidden(NormalizeKey(members[i].0)) {
        path := [i];
      } else {
        var rest := RejectedHasForbiddenKey(forbidden, members[i].1);
        path := [i] + rest;
        assert path[1..] == rest && rest != [];
      }
    case List(items) =>
      var i :| 0 <= i < |items| && !Accepts(forbidden, items[i]);
      var rest := RejectedHasForbiddenKey(forbidden, items[i]);
      path := [i] + rest;
      assert path[1..] == rest;
  }

  /** A payload is accepted exactly when no key on a path that enters no tuple
      normalises to a forbidden name. */
  lemma AcceptsIffNoForbiddenKey(forbidden: string -> bool, value: Json)
    ensures Accepts(forbidden, value) <==> forall path :: ForbiddenAt(forbidden, value, path) ==> EntersTuple(value, path)
  {
    hide ForbiddenAt, EntersTuple;
    if Accepts(forbidden, value) {
      forall path | ForbiddenAt(forbidden, value, path)
        ensures EntersTuple(value, path)
      {
        if !EntersTuple(value, path) {
          AcceptedHasNoForbiddenKey(forbidden, value, path);
        }
      }
    } else {
      var path := RejectedHasForbiddenKey(forbidden, value);
    }
  }

  /** The payload as JSON text has it, with lists for tuples. */
  function AsWritten(value: Json): Json {
    match value
    case Object(members) =>
      Object(seq(|members|, i requires 0 <= i < |members| => (members[i].0, AsWritten(members[i].1))))
    case List(items) => List(seq(|items|, i requires 0 <= i < |items| => AsWritten(items[i])))
    case Tuple(items) => List(seq(|items|, i requires 0 <= i < |items| => AsWritten(items[i])))
    case _ => value
  }

  lemma {:induction false} WrittenKeysAreTheSame(value: Json, path: Path)
    ensures KeyAt(AsWritten(value), path) == KeyAt(value, path)
    ensures !EntersTuple(AsWritten(value), path)
    decreases path
  {
    if path != [] {
      match value
      case Object(members) =>
        if path[0] < |members| {
          WrittenKeysAreTheSame(members[path[0]].1, path[1..]);
        }
      case List(items) =>
        if path[0] < |items| {
          WrittenKeysAreTheSame(items[path[0]], path[1..]);
        }
      case Tuple(items) =>
        if path[0] < |items| {
          WrittenKeysAreTheSame(items[path[0]], path[1..]);
        }
      case _ =>
    }
  }

  /** Screening the written form is what catches every key; an accepted payload is
      clean at every depth if and only if its written form is accepted too. */
  lemma CleanIffWrittenFormAccepted(forbidden: string -> bool, value: Json)
    ensures Clean(forbidden, value) <==> Accepts(forbidden, AsWritten(value))
    ensures Clean(forbidden, value) ==> Accepts(forbidden, value)
  {
    hide Accepts, KeyAt, EntersTuple, NormalizeKey, AsWritten;
    AcceptsIffNoForbiddenKey(forbidden, value);
    AcceptsIffNoForbiddenKey(forbidden, AsWritten(value));
    forall path
      ensures ForbiddenAt(forbidden, AsWritten(value), path) <==> ForbiddenAt(forbidden, value, path)
      ensures !EntersTuple(AsWritten(value), path)
    {
      WrittenKeysAreTheSame(value, path);
    }
  }

  /** What an accepted payload can still hide lies inside its tuples. */
  lemma AcceptedIsCleanIffTuplesAre(forbidden: string -> bool, value: Json)
    requires Accepts(forbidden, value)
    ensures Clean(forbidden, value) <==> forall path :: EntersTuple(value, path) ==> !ForbiddenAt(forbidden, value, path)
  {
    hide ForbiddenAt, EntersTuple;
    AcceptsIffNoForbiddenKey(forbidden, value);
  }

  /** ... and can be there: any forbidden key in an object in a tuple is accepted. */
  lemma TupleHidesKey(forbidden: string -> bool, key: string, secret: Json)
    requires forbidden(NormalizeKey(key))
    ensures var value := Tuple([Object([(key, secret)])]);
            && Accepts(forbidden, value) && !Clean(forbidden, value)
            && !Accepts(forbidden, List(value.items)) && !Accepts(forbidden, value.items[0])
  {
    hide NormalizeKey;
    var value := Tuple([Object([(key, secret)])]);
    var path := [0, 0];
    assert path[1..] == [0];
    assert KeyAt(value.items[0], path[1..]) == Some(key);
    assert ForbiddenAt(forbidden, value, path);
    assert !Accepts(forbidden, value.items[0]);
  }

  /** The payload with every key at every depth in normal form. */
  function WithNormalKeys(value: Json): Json {
    match value
    case Object(members) =>
      Object(seq(|members|, i requires 0 <= i < |members| => (NormalizeKey(members[i].0), WithNormalKeys(members[i].1))))
    case List(items) => List(seq(|items|, i requires 0 <= i < |items| => WithNormalKeys(items[i])))
    case Tuple(items) => Tuple(seq(|items|, i requires 0 <= i < |items| => WithNormalKeys(items[i])))
    case _ => value
  }

  /** No respelling of keys can slip past the check or trip it. */
  lemma {:induction false} ScreeningIgnoresSpelling(forbidden: string -> bool, value: Json)
    ensures Accepts(forbidden, WithNormalKeys(value)) <==> Accepts(forbidden, value)
    decreases value
  {
    hide NormalizeKey;
    match value
    case Object(members) =>
      var normal := WithNormalKeys(value).members;
      forall i | 0 <= i < |members|
        ensures (!forbidden(NormalizeKey(normal[i].0)) && Accepts(forbidden, normal[i].1))
                <==> (!forbidden(NormalizeKey(members[i].0)) && Accepts(forbidden, members[i].1))
      {
        NormalizeKeyIdempotent(members[i].0);
        ScreeningIgnoresSpelling(forbidden, members[i].1);
      }
    case List(items) =>
      var normal := WithNormalKeys(value).items;
      forall i | 0 <= i < |items|
        ensures Accepts(forbidden, normal[i]) <==> Accepts(forbidden, items[i])
      {
        ScreeningIgnoresSpelling(forbidden, items[i]);
      }
    case _ =>
  }

  // ---------- the consumer ----------

  datatype Draft = Draft(handoffStatus: string, payload: Option<Json>, diagnosticOnly: bool, metadata: Json)

  datatype Consumption = Consumption(status: string, payload: Option<Json>, diagnosticOnly: bool, metadata: Json)

  datatype Outcome = Consumed(c: Consumption) | UnsupportedStatus | DiagnosticNotUsable

  const USABLE := "usable_structured_payload"
  const ACCEPTED := "accepted_for_future_stage"

  function ConsumptionStatus(handoff: string): Option<string> {
    if handoff == USABLE then Some(ACCEPTED)
    else if handoff == "invalid_structured_payload" then Some("rejected_invalid_structured_payload")
    else if handoff == "provider_error" then Some("rejected_provider_error")
    else if handoff == "provider_timeout" then Some("rejected_provider_timeout")
    else if handoff == "refusal_unresolved" then Some("rejected_refusal_unresolved")
    else if handoff == "incomplete_unresolved" then Some("rejected_incomplete_unresolved")
    else None
  }

  predicate Screened(forbidden: string -> bool, payload: Option<Json>, metadata: Json) {
    (payload.Some? ==> Accepts(forbidden, payload.value)) && Accepts(forbidden, metadata)
  }

  predicate ValidDraft(forbidden: string -> bool, d: Draft) {
    Screened(forbidden, d.payload, d.metadata) && (d.handoffStatus == USABLE <==> d.payload.Some?)
  }

  /** The validators of the consumption model. */
  predicate ValidConsumption(forbidden: string -> bool, c: Consumption) {
    Screened(forbidden, c.payload, c.metadata) && (c.status != ACCEPTED ==> c.payload.None?)
  }

  function Consume(d: Draft): Outcome {
    var status := ConsumptionStatus(d.handoffStatus);
    if status.None? then UnsupportedStatus
    else if status.value == ACCEPTED && d.diagnosticOnly then DiagnosticNotUsable
    else
      var payload := if status.value == ACCEPTED then d.payload else None;
      Consumed(Consumption(status.value, payload, d.diagnosticOnly, d.metadata))
  }

  function Carried(c: Consumption): set<Json> {
    {c.metadata} + if c.payload.Some? then {c.payload.value} else {}
  }

  /** A valid draft is consumed unless its status is unknown or it is a diagnostic
      copy of a usable one; what comes out passes its own validators, carries the
      payload exactly when the draft did, and the metadata always.  A forbidden key
      in either lies inside a tuple, and there is none exactly when the written
      forms would be accepted. */
  lemma ConsumptionIsSafe(forbidden: string -> bool, d: Draft)
    requires ValidDraft(forbidden, d)
    ensures Consume(d).Consumed? <==>
              ConsumptionStatus(d.handoffStatus).Some? && !(d.handoffStatus == USABLE && d.diagnosticOnly)
    ensures Consume(d).Consumed? ==>
              && ValidConsumption(forbidden, Consume(d).c)
              && Consume(d).c.payload == d.payload && Consume(d).c.metadata == d.metadata
              && Consume(d).c.diagnosticOnly == d.diagnosticOnly
              && (Consume(d).c.status == ACCEPTED <==> d.handoffStatus == USABLE)
    ensures Consume(d).Consumed? ==> forall v <- Carried(Consume(d).c) ::
              && (forall path :: ForbiddenAt(forbidden, v, path) ==> EntersTuple(v, path))
              && (Clean(forbidden, v) <==> Accepts(forbidden, AsWritten(v)))
  {
    hide Accepts, ForbiddenAt, EntersTuple, Clean, AsWritten;
    StatusesAreDistinct(d.handoffStatus);
    if Consume(d).Consumed? {
      forall v | v in Carried(Consume(d).c)
        ensures forall path :: ForbiddenAt(forbidden, v, path) ==> EntersTuple(v, path)
        ensures Clean(forbidden, v) <==> Accepts(forbidden, AsWritten(v))
      {
        AcceptsIffNoForbiddenKey(forbidden, v);
        CleanIffWrittenFormAccepted(forbidden, v);
      }
    }
  }

  /** Which statuses are known ... */
  lemma KnownStatuses(handoff: string)
    ensures ConsumptionStatus(handoff).Some? <==>
              || handoff == "usable_structured_payload" || handoff == "invalid_structured_payload"
              || handoff == "provider_error" || handoff == "provider_timeout"
              || handoff == "refusal_unresolved" || handoff == "incomplete_unresolved"
  {
  }

  /** ... and what a rejected one is called. */
  lemma RejectionsNameTheirStatus(handoff: string)
    ensures ConsumptionStatus(handoff).Some? && handoff != USABLE ==>
              ConsumptionStatus(handoff).value == "rejected_" + handoff
  {
    RejectedResults();
    RejectedProviders();
  }

  lemma RejectedResults()
    ensures "rejected_" + "invalid_structured_payload" == "rejected_invalid_structured_payload"
    ensures "rejected_" + "incomplete_unresolved" == "rejected_incomplete_unresolved"
  {
  }

  lemma RejectedProviders()
    ensures "rejected_" + "provider_error" == "rejected_provider_error"
    ensures "rejected_" + "provider_timeout" == "rejected_provider_timeout"
    ensures "rejected_" + "refusal_unresolved" == "rejected_refusal_unresolved"
  {
  }

  lemma StatusesAreDistinct(handoff: string)
    ensures ConsumptionStatus(handoff) == Some(ACCEPTED) <==> handoff == USABLE
  {
  }
}
