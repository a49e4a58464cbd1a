/** The session cookie: how the manager prints it and finds it again. */
module Cookies {
  import opened Sequences
  import opened Text

  const BROWSER_SESSION_COOKIE := "marvex_control_plane_session"

  function Find(s: string, c: char): (k: nat)
    ensures k <= |s| && (forall i :: 0 <= i < k ==> s[i] != c) && (k < |s| ==> s[k] == c)
  {
    if s == "" || s[0] == c then 0 else 1 + Find(s[1..], c)
  }

  function Split(s: string, c: char): seq<string>
    decreases |s|
  {
    var k := Find(s, c);
    if k == |s| then [s] else [s[..k]] + Split(s[k + 1..], c)
  }

  /** `part.strip().partition("=")`, when there is a separator. */
  function ParsePair(part: string): Option<(string, string)> {
    var p := Strip(part);
    var k := Find(p, '=');
    if k == |p| then None else Some((p[..k], p[k + 1..]))
  }

  function FirstValue(parts: seq<string>, name: string): Option<string> {
    if parts == [] then None
    else
      var pair := ParsePair(parts[0]);
      if pair.Some? && pair.value.0 == name && pair.value.1 != "" then Some(pair.value.1)
      else FirstValue(parts[1..], name)
  }

  function CookieValue(header: string, name: string): Option<string> {
    FirstValue(Split(header, ';'), name)
  }

  /** The `Set-Cookie` text; `maxAge` is the session lifetime in decimal. */
  function CookieHeader(session: string, maxAge: string): string {
    PairText(BROWSER_SESSION_COOKIE, session) + ";" + " Max-Age=" + maxAge + "; Path=/control; HttpOnly; SameSite=Strict"
  }

  function PairText(name: string, value: string): string {
    name + "=" + value
  }

  lemma SplitAtFirst(a: string, b: string, c: char)
    requires c !in a
    ensures Split(a + [c] + b, c) == [a] + Split(b, c)
  {
    var s := a + [c] + b;
    FindFirst(a, b, c);
    assert s[..|a|] == a && s[|a| + 1..] == b;
  }

  lemma {:induction false} FindFirst(a: string, b: string, c: char)
    requires c !in a
    ensures Find(a + [c] + b, c) == |a|
  {
    if a != "" {
      assert (a + [c] + b)[1..] == a[1..] + [c] + b;
      FindFirst(a[1..], b, c);
    }
  }

  lemma SplitUnbroken(a: string, c: char)
    requires c !in a
    ensures Split(a, c) == [a]
  {
  }

  /** A name that can stand before the `=` of a pair. */
  predicate PairName(name: string) {
    '=' !in name && ';' !in name && (name == "" || !IsSpace(name[0]))
  }

  /** A value that survives splitting and stripping. */
  predicate PairValue(value: string) {
    ';' !in value && (value == "" || !IsSpace(value[|value| - 1]))
  }

  lemma StripPadded(pad: string, s: string)
    requires Trimmed(s) && forall i :: 0 <= i < |pad| ==> IsSpace(pad[i])
    ensures Strip(pad + s) == s
  {
    hide IsSpace;
    var t := pad + s;
    var l := SkipLeft(t, 0);
    if s == "" {
      assert t == pad;
    } else {
      assert t[|pad|] == s[0] && t[|t| - 1] == s[|s| - 1];
      assert forall i :: 0 <= i < |pad| ==> t[i] == pad[i];
      assert l == |pad| && SkipRight(t, l, |t|) == |t|;
    }
  }

  lemma PairIsParsed(pad: string, name: string, value: string)
    requires PairName(name) && PairValue(value)
    requires forall i :: 0 <= i < |pad| ==> IsSpace(pad[i])
    ensures ParsePair(pad + PairText(name, value)) == Some((name, value))
  {
    hide IsSpace;
    var p := PairText(name, value);
    assert Trimmed(p) by {
      PairIsTrimmed(name, value);
    }
    StripPadded(pad, p);
    FindFirst(name, value, '=');
    assert p == name + ['='] + value;
    assert p[..|name|] == name && p[|name| + 1..] == value;
  }

  lemma PairIsTrimmed(name: string, value: string)
    requires PairName(name) && PairValue(value)
    ensures Trimmed(PairText(name, value))
  {
  }

  // ---------- any list of cookie pairs ----------

  datatype Pair = Pair(name: string, value: string)

  /** The pairs joined by `"; "`, as a cookie header carries them. */
  function Header(pairs: seq<Pair>): string
    requires pairs != []
  {
    PairText(pairs[0].name, pairs[0].value) + if |pairs| == 1 then "" else ";" + " " + Header(pairs[1..])
  }

  function FirstNonEmpty(pairs: seq<Pair>, name: string): Option<string> {
    if pairs == [] then None
    else if pairs[0].name == name && pairs[0].value != "" then Some(pairs[0].value)
    else FirstNonEmpty(pairs[1..], name)
  }

  lemma {:induction false} PaddedHeaderIsRead(pad: string, pairs: seq<Pair>, name: string)
    requires pairs != [] && forall i :: 0 <= i < |pairs| ==> PairName(pairs[i].name) && PairValue(pairs[i].value)
    requires forall i :: 0 <= i < |pad| ==> pad[i] == ' '
    ensures CookieValue(pad + Header(pairs), name) == FirstNonEmpty(pairs, name)
    decreases |pairs|
  {
    hide Strip, IsSpace, ParsePair;
    var pair := pairs[0];
    var text := pad + PairText(pair.name, pair.value);
    SpacesAreSpace(pad);
    PairIsParsed(pad, pair.name, pair.value);
    assert ';' !in text by {
      assert forall i :: 0 <= i < |text| ==> text[i] != ';';
    }
    if |pairs| == 1 {
      assert pad + Header(pairs) == text && pairs[1..] == [];
      SplitUnbroken(text, ';');
      assert [text][1..] == [] && FirstValue([], name) == None && FirstNonEmpty([], name) == None;
    } else {
      var rest := " " + Header(pairs[1..]);
      assert pad + Header(pairs) == text + ";" + rest;
      SplitAtFirst(text, rest, ';');
      PaddedHeaderIsRead(" ", pairs[1..], name);
      assert Split(pad + Header(pairs), ';')[1..] == Split(rest, ';');
    }
  }

  lemma SpacesAreSpace(pad: string)
    requires forall i :: 0 <= i < |pad| ==> pad[i] == ' '
    ensures forall i :: 0 <= i < |pad| ==> IsSpace(pad[i])
  {
  }

  /** Reading a cookie header returns the first non-empty pair of that name,
      whatever pairs surround it. */
  lemma HeaderIsRead(pairs: seq<Pair>, name: string)
    requires pairs != [] && forall i :: 0 <= i < |pairs| ==> PairName(pairs[i].name) && PairValue(pairs[i].value)
    ensures CookieValue(Header(pairs), name) == FirstNonEmpty(pairs, name)
  {
    PaddedHeaderIsRead("", pairs, name);
    assert "" + Header(pairs) == Header(pairs);
  }

  // ---------- any header at all ----------

  function Joined(parts: seq<string>, c: char): string
    requires parts != []
  {
    parts[0] + if |parts| == 1 then "" else [c] + Joined(parts[1..], c)
  }

  lemma JoinedFront(part: string, rest: seq<string>, c: char)
    requires rest != []
    ensures Joined([part] + rest, c) == part + [c] + Joined(rest, c)
  {
    assert ([part] + rest)[1..] == rest;
  }

  /** Splitting is the inverse of joining unbroken parts. */
  lemma {:induction false} SplitIsTheParts(s: string, c: char)
    ensures var parts := Split(s, c);
            && parts != [] && Joined(parts, c) == s
            && forall i :: 0 <= i < |parts| ==> c !in parts[i]
    decreases |s|
  {
    hide Joined;
    PartsAreUnbroken(s, c);
    var k := Find(s, c);
    if k < |s| {
      SplitIsTheParts(s[k + 1..], c);
      JoinedFront(s[..k], Split(s[k + 1..], c), c);
      assert s == s[..k] + [c] + s[k + 1..];
    } else {
      JoinedAlone(s, c);
    }
  }

  lemma JoinedAlone(part: string, c: char)
    ensures Joined([part], c) == part
  {
  }

  /** ... and the other way round. */
  lemma {:induction false} SplitOfJoined(parts: seq<string>, c: char)
    requires parts != [] && forall i :: 0 <= i < |parts| ==> c !in parts[i]
    ensures Split(Joined(parts, c), c) == parts
  {
    hide Split;
    if |parts| == 1 {
      SplitUnbroken(parts[0], c);
      assert parts == [parts[0]] && parts[0] + "" == parts[0];
    } else {
      SplitOfJoined(parts[1..], c);
      SplitAtFirst(parts[0], Joined(parts[1..], c), c);
      assert parts[0] + ([c] + Joined(parts[1..], c)) == parts[0] + [c] + Joined(parts[1..], c);
    }
  }

  /** The part is, but for space around it, the name, `=` and a value. */
  predicate Carries(part: string, name: string) {
    var p := Strip(part);
    |p| > |name| + 1 && p[..|name|] == name && p[|name|] == '='
  }

  lemma CarriedIsParsed(part: string, name: string)
    requires '=' !in name
    ensures var pair := ParsePair(part);
            && (Carries(part, name) <==> pair.Some? && pair.value.0 == name && pair.value.1 != "")
            && (Carries(part, name) ==> pair.value.1 == Strip(part)[|name| + 1..])
  {
    hide Strip;
    var p := Strip(part);
    if Carries(part, name) {
      assert p == name + ['='] + p[|name| + 1..];
      FindFirst(name, p[|name| + 1..], '=');
    }
  }

  /** Part `i` is the first to carry the name, and with this value. */
  predicate FirstToCarry(parts: seq<string>, name: string, i: nat, value: string) {
    && i < |parts| && Carries(parts[i], name)
    && value == Strip(parts[i])[|name| + 1..]
    && forall j :: 0 <= j < i ==> !Carries(parts[j], name)
  }

  /** The value of the first part that carries the name, if one does. */
  ghost predicate ReadsFirst(parts: seq<string>, name: string, value: Option<string>) {
    if value.None? then forall i :: 0 <= i < |parts| ==> !Carries(parts[i], name)
    else exists i: nat :: FirstToCarry(parts, name, i, value.value)
  }

  /** Whatever the header is, with parts that are no pairs or have no value: the value
      read is that of the first part that carries the name. */
  lemma AnyHeaderIsRead(header: string, name: string)
    requires '=' !in name
    ensures ReadsFirst(Split(header, ';'), name, CookieValue(header, name))
  {
    hide ReadsFirst;
    FirstValueIsFirst(Split(header, ';'), name);
  }

  lemma {:induction false} FirstValueIsFirst(parts: seq<string>, name: string)
    requires '=' !in name
    ensures ReadsFirst(parts, name, FirstValue(parts, name))
  {
    hide Strip, ParsePair;
    if parts != [] {
      CarriedIsParsed(parts[0], name);
      if Carries(parts[0], name) {
        assert FirstToCarry(parts, name, 0, Strip(parts[0])[|name| + 1..]);
      } else {
        FirstValueIsFirst(parts[1..], name);
        var value := FirstValue(parts[1..], name);
        if value.Some? {
          var i: nat :| FirstToCarry(parts[1..], name, i, value.value);
          assert forall j :: 0 < j < i + 1 ==> parts[j] == parts[1..][j - 1];
          assert FirstToCarry(parts, name, i + 1, value.value);
        } else {
          assert forall j :: 0 < j < |parts| ==> parts[j] == parts[1..][j - 1];
        }
      }
    }
  }

  // ---------- the session cookie ----------

  lemma {:induction false} ValuesAreClean(parts: seq<string>, name: string)
    requires forall i :: 0 <= i < |parts| ==> ';' !in parts[i]
    ensures var v := FirstValue(parts, name);
            v.Some? ==> v.value != "" && PairValue(v.value)
  {
    if parts != [] {
      ValuesAreClean(parts[1..], name);
      PartIsClean(parts[0]);
    }
  }

  lemma PartIsClean(part: string)
    requires ';' !in part
    ensures var pair := ParsePair(part);
            pair.Some? ==> PairValue(pair.value.1)
  {
    hide IsSpace, Strip;
    var p := Strip(part);
    StripIsInside(part);
    assert Trimmed(p);
    var k := Find(p, '=');
    if k < |p| {
      var value := p[k + 1..];
      assert forall i :: 0 <= i < |value| ==> value[i] == p[k + 1 + i] && p[k + 1 + i] in part;
    }
  }

  lemma StripIsInside(s: string)
    ensures forall c :: c in Strip(s) ==> c in s
  {
  }

  lemma {:induction false} PartsAreUnbroken(s: string, c: char)
    ensures forall i :: 0 <= i < |Split(s, c)| ==> c !in Split(s, c)[i]
    decreases |s|
  {
    var k := Find(s, c);
    if k < |s| {
      PartsAreUnbroken(s[k + 1..], c);
    }
  }

  /** Parsing inverts printing exactly for the sessions a cookie can carry: not
      empty, without a semicolon, without trailing whitespace. */
  lemma SessionCookieRoundTrip(session: string, maxAge: string)
    ensures CookieValue(CookieHeader(session, maxAge), BROWSER_SESSION_COOKIE) == Some(session)
            <==> session != "" && PairValue(session)
  {
    hide PairName, CookieValue;
    CookieNameIsPairName();
    FirstPairRoundTrip(BROWSER_SESSION_COOKIE, session,
      " Max-Age=" + maxAge + "; Path=/control; HttpOnly; SameSite=Strict");
    assert CookieHeader(session, maxAge) == PairText(BROWSER_SESSION_COOKIE, session) + ";"
      + (" Max-Age=" + maxAge + "; Path=/control; HttpOnly; SameSite=Strict");
  }

  /** The same for any name and whatever attributes follow. */
  lemma FirstPairRoundTrip(name: string, session: string, rest: string)
    requires PairName(name)
    ensures CookieValue(PairText(name, session) + ";" + rest, name) == Some(session)
            <==> session != "" && PairValue(session)
  {
    hide Strip, IsSpace;
    var first := PairText(name, session);
    var header := first + ";" + rest;
    PartsAreUnbroken(header, ';');
    ValuesAreClean(Split(header, ';'), name);
    if session != "" && PairValue(session) {
      assert ';' !in first;
      SplitAtFirst(first, rest, ';');
      PairIsParsed("", name, session);
      assert "" + first == first;
    }
  }

  lemma CookieNameIsPairName()
    ensures PairName(BROWSER_SESSION_COOKIE)
  {
  }
}
