/**
 * Printing for the HTTP parsers: string_replace_all as the escaping of quoted
 * strings, and the text of attribute and parameter lists.
 */
module HttpPrinting {
  import opened HttpParser

  // ----- string_replace_all -----

  /** The occurrences found from left to right, each after the end of the one before. */
  function ReplaceAll(subject: string, search: string, replace: string): string
    requires search != ""
    decreases |subject|
  {
    if subject == "" then ""
    else if search <= subject then replace + ReplaceAll(subject[|search|..], search, replace)
    else [subject[0]] + ReplaceAll(subject[1..], search, replace)
  }

  /** std::string::find, with npos as the length plus one. */
  method FindString(s: string, search: string, pos: nat) returns (at: nat)
    requires search != "" && pos <= |s|
    ensures at <= |s| ==> pos <= at && at + |search| <= |s| && s[at..at + |search|] == search
    ensures forall i | pos <= i < at && i <= |s| :: !(search <= s[i..])
    ensures at <= |s| + 1
  {
    at := pos;
    while at + |search| <= |s|
      invariant pos <= at <= |s| + 1
      invariant forall i | pos <= i < at :: !(search <= s[i..])
    {
      if s[at..at + |search|] == search {
        return;
      }
      assert s[at..][..|search|] == s[at..at + |search|];
      at := at + 1;
    }
    at := |s| + 1;
  }

  /** Characters at which no occurrence starts are copied. */
  lemma {:induction false} ReplaceNothing(s: string, k: nat, search: string, replace: string)
    requires search != "" && k <= |s|
    requires forall i | 0 <= i < k :: !(search <= s[i..])
    ensures ReplaceAll(s, search, replace) == s[..k] + ReplaceAll(s[k..], search, replace)
    decreases k
  {
    if k == 0 {
      assert s[0..] == s && s[..0] == "";
    } else {
      assert s[0..] == s;
      forall i | 0 <= i < k - 1
        ensures !(search <= s[1..][i..])
      {
        assert s[1..][i..] == s[i + 1..];
      }
      ReplaceNothing(s[1..], k - 1, search, replace);
      assert s[1..][k - 1..] == s[k..];
      assert [s[0]] + s[1..][..k - 1] == s[..k];
    }
  }

  lemma ReplaceHere(s: string, search: string, replace: string)
    requires search != "" && search <= s
    ensures ReplaceAll(s, search, replace) == replace + ReplaceAll(s[|search|..], search, replace)
  {
  }

  /** Edits its copy of the subject in place and goes on after each replacement. */
  method StringReplaceAll(subject: string, search: string, replace: string) returns (result: string)
    requires search != ""
    ensures result == ReplaceAll(subject, search, replace)
  {
    hide ReplaceAll;
    result := subject;
    ghost var rest := subject;
    var pos: nat := 0;
    var at := FindString(result, search, pos);
    assert result[0..] == result;
    while at <= |result|
      invariant pos <= |result| && rest == result[pos..]
      invariant ReplaceAll(subject, search, replace) == result[..pos] + ReplaceAll(rest, search, replace)
      invariant at <= |result| ==> pos <= at && at + |search| <= |result| && result[at..at + |search|] == search
      invariant at <= |result| + 1
      invariant forall i | pos <= i < at && i <= |result| :: !(search <= result[i..])
      decreases |rest|
    {
      CopyUpTo(result, pos, at, search, replace);
      rest := result[at + |search|..];
      Edited(result, pos, at, search, replace, ReplaceAll(rest, search, replace));
      ReplaceHere(result[at..], search, replace);
      result := result[..at] + replace + result[at + |search|..];
      pos := at + |replace|;
      at := FindString(result, search, pos);
    }
    CopyUpTo(result, pos, |result|, search, replace);
    ReplaceEmpty(search, replace);
    assert result[..pos] + result[pos..] == result;
  }

  lemma Edited(s: string, pos: nat, at: nat, search: string, replace: string, done: string)
    requires pos <= at && at + |search| <= |s| && s[at..at + |search|] == search
    ensures search <= s[at..] && s[at..][|search|..] == s[at + |search|..]
    ensures var edited := s[..at] + replace + s[at + |search|..];
      && edited[at + |replace|..] == s[at + |search|..]
      && edited[..at + |replace|] + done == s[..pos] + (s[pos..at] + (replace + done))
  {
    assert s[..pos] + s[pos..at] == s[..at];
  }

  lemma CopyUpTo(s: string, pos: nat, at: nat, search: string, replace: string)
    requires search != "" && pos <= at <= |s|
    requires forall i | pos <= i < at :: !(search <= s[i..])
    ensures ReplaceAll(s[pos..], search, replace) == s[pos..at] + ReplaceAll(s[at..], search, replace)
  {
    hide ReplaceAll;
    forall i | 0 <= i < at - pos
      ensures !(search <= s[pos..][i..])
    {
      assert s[pos..][i..] == s[pos + i..];
    }
    ReplaceNothing(s[pos..], at - pos, search, replace);
    assert s[pos..][at - pos..] == s[at..] && s[pos..][..at - pos] == s[pos..at];
  }

  lemma ReplaceEmpty(search: string, replace: string)
    requires search != ""
    ensures ReplaceAll("", search, replace) == ""
  {
  }

  predicate Occurs(search: string, s: string, at: nat) {
    at + |search| <= |s| && s[at..at + |search|] == search
  }

  /** Up to the first occurrence nothing changes, and what follows it is edited on its own. */
  lemma FirstOccurrenceReplaced(s: string, at: nat, search: string, replace: string)
    requires search != "" && Occurs(search, s, at) && forall i | 0 <= i < at :: !Occurs(search, s, i)
    ensures ReplaceAll(s, search, replace) == s[..at] + replace + ReplaceAll(s[at + |search|..], search, replace)
  {
    hide ReplaceAll;
    forall i | 0 <= i < at
      ensures !(search <= s[i..])
    {
      OccursAsPrefix(search, s, i);
    }
    OccursAsPrefix(search, s, at);
    ReplaceNothing(s, at, search, replace);
    ReplaceHere(s[at..], search, replace);
    assert s[at..][|search|..] == s[at + |search|..];
  }

  /** Without an occurrence the string stays as it is. */
  lemma NothingReplaced(s: string, search: string, replace: string)
    requires search != "" && forall i | 0 <= i <= |s| :: !Occurs(search, s, i)
    ensures ReplaceAll(s, search, replace) == s
  {
    hide ReplaceAll;
    forall i | 0 <= i < |s|
      ensures !(search <= s[i..])
    {
      OccursAsPrefix(search, s, i);
    }
    ReplaceNothing(s, |s|, search, replace);
    ReplaceEmpty(search, replace);
    assert s[..|s|] == s && s[|s|..] == "";
  }

  lemma OccursAsPrefix(search: string, s: string, i: nat)
    requires i <= |s|
    ensures Occurs(search, s, i) <==> search <= s[i..]
  {
    if i + |search| <= |s| {
      assert s[i..][..|search|] == s[i..i + |search|];
    }
  }

  // ----- The empty search string -----

  /**
   * The subject and the position after some rounds of the loop: the empty string
   * is found at once, wherever it starts.
   */
  function EmptyRounds(subject: string, replace: string, rounds: nat): (r: (string, nat))
    ensures r.1 <= |r.0|
  {
    if rounds == 0 then (subject, 0)
    else
      var (s, pos) := EmptyRounds(subject, replace, rounds - 1);
      (s[..pos] + replace + s[pos..], pos + |replace|)
  }

  /**
   * With an empty search string the loop never ends: after any number of rounds
   * the whole subject is still ahead, with the string found right there.
   */
  lemma {:induction false} EmptySearchNeverEnds(subject: string, replace: string, rounds: nat)
    ensures var (s, pos) := EmptyRounds(subject, replace, rounds); s[pos..] == subject && "" <= s[pos..]
  {
    if rounds > 0 {
      EmptySearchNeverEnds(subject, replace, rounds - 1);
      var (s, pos) := EmptyRounds(subject, replace, rounds - 1);
      var t := s[..pos] + replace + s[pos..];
      assert t[pos + |replace|..] == s[pos..];
    }
  }

  // ----- Quoted strings -----

  const QUOTE := "\""
  const ESCAPED_QUOTE := "\\\""

  function Escape(s: string): string {
    ReplaceAll(s, QUOTE, ESCAPED_QUOTE)
  }

  lemma EscapeStep(c: char, s: string)
    ensures Escape([c] + s) == (if c == '"' then ESCAPED_QUOTE else [c]) + Escape(s)
  {
    var t := [c] + s;
    assert t[1..] == s;
    if c == '"' {
      assert QUOTE <= t;
    } else {
      assert t[0] != QUOTE[0];
    }
  }

  lemma EscapeStart(s: string)
    ensures Escape(s) == "" <==> s == ""
    ensures s != "" ==> Escape(s)[0] == if s[0] == '"' then '\\' else s[0]
  {
    if s != "" {
      assert s == [s[0]] + s[1..];
      EscapeStep(s[0], s[1..]);
    }
  }

  /** The text after an opening quote when s is escaped, closed, and followed by rest. */
  function Closed(s: string, rest: string): string {
    Escape(s) + QUOTE + rest
  }

  /** Whatever follows, an escaped string parses back to itself exactly when it does not end in a backslash. */
  lemma QuotedRoundTrip(s: string, rest: string)
    ensures TakeQuoted(QUOTE + Closed(s, rest)) == QuotedString(s, rest) <==> !EndsInBackslash(s)
  {
    hide Unquote, Escape, Closed;
    assert (QUOTE + Closed(s, rest))[1..] == Closed(s, rest);
    if EndsInBackslash(s) {
      BackslashHidesTheQuote(s, rest);
    } else {
      EscapedReadsBack(s, rest);
    }
  }

  lemma {:induction false} EscapedReadsBack(s: string, rest: string)
    requires !EndsInBackslash(s)
    ensures Unquote(Closed(s, rest)) == QuotedString(s, rest)
    decreases |s|
  {
    hide Unquote, Escape;
    if s == "" {
      EscapeStart("");
      assert Closed(s, rest) == ['"'] + rest;
      UnquoteStep('"', rest);
    } else {
      ClosedStep(s, rest);
      EscapedReadsBack(s[1..], rest);
      assert [s[0]] + s[1..] == s;
    }
  }

  /** A last backslash turns the closing quote into an escaped one, so the string goes on into what follows. */
  lemma {:induction false} BackslashHidesTheQuote(s: string, rest: string)
    requires EndsInBackslash(s)
    ensures var q := Unquote(Closed(s, rest)); q.QuotedString? ==> |q.rest| < |rest|
    decreases |s|
  {
    hide Unquote, Escape;
    if |s| == 1 {
      EscapeStart("");
      assert s == ['\\'] + "";
      EscapeStep('\\', "");
      var r := QUOTE + rest;
      assert Closed(s, rest) == ['\\'] + r;
      assert r[1..] == rest;
      UnquoteStep('\\', r);
    } else {
      ClosedStep(s, rest);
      BackslashHidesTheQuote(s[1..], rest);
    }
  }

  lemma ClosedStep(s: string, rest: string)
    requires s != "" && s != "\\"
    ensures Unquote(Closed(s, rest)) == Prefixed([s[0]], Unquote(Closed(s[1..], rest)))
  {
    hide Unquote, Escape;
    var c, t := s[0], s[1..];
    assert s == [c] + t;
    EscapeStep(c, t);
    EscapeStart(t);
    var r := Closed(t, rest);
    if c == '"' {
      var r1 := QUOTE + r;
      assert Closed(s, rest) == ['\\'] + r1;
      assert r1[1..] == r;
      UnquoteStep('\\', r1);
    } else {
      assert Closed(s, rest) == [c] + r;
      UnquoteStep(c, r);
    }
  }

  // ----- Tokens and whitespace followed by other text -----

  predicate IsToken(t: string) {
    t != "" && forall i | 0 <= i < |t| :: IsTokenChar(t[i])
  }

  /** Linear whitespace: spaces and tabs, each run of which may begin with one line break. */
  predicate IsLws(w: string) {
    || w == ""
    || ((w[0] == ' ' || w[0] == '\t') && IsLws(w[1..]))
    || (|w| > 2 && w[0] == '\r' && w[1] == '\n' && (w[2] == ' ' || w[2] == '\t') && IsLws(w[3..]))
  }

  predicate StartsToken(s: string) {
    s != "" && IsTokenChar(s[0])
  }

  predicate StartsLws(s: string) {
    s != "" && (s[0] == ' ' || s[0] == '\t' || s[0] == '\r')
  }

  lemma {:induction false} TokenThen(t: string, rest: string)
    requires (t == "" || IsToken(t)) && !StartsToken(rest)
    ensures TokenLength(t + rest) == |t| && (t + rest)[..|t|] == t && (t + rest)[|t|..] == rest
    decreases |t|
  {
    hide IsTokenChar;
    if t == "" {
      assert t + rest == rest;
    } else {
      assert (t + rest)[1..] == t[1..] + rest;
      TokenThen(t[1..], rest);
    }
  }

  lemma SkipLwsStep(s: string)
    ensures s != "" && IsWhitespace(s[0]) ==> SkipLws(s) == SkipWhitespace(s[1..])
    ensures |s| > 2 && s[0] == '\r' && s[1] == '\n' && IsWhitespace(s[2]) ==> SkipLws(s) == SkipWhitespace(s[3..])
    ensures !StartsLws(s) ==> SkipLws(s) == s
  {
  }

  /** Where one unit of whitespace ends, what is left of the whitespace starts with a line break. */
  lemma {:induction false} WhitespaceThen(w: string, rest: string) returns (v: string)
    requires IsLws(w) && !StartsLws(rest)
    ensures SkipWhitespace(w + rest) == v + rest && IsLws(v) && |v| <= |w| && (v == "" || v[0] == '\r')
    decreases |w|
  {
    if w != "" && IsWhitespace(w[0]) {
      assert (w + rest)[1..] == w[1..] + rest;
      v := WhitespaceThen(w[1..], rest);
    } else {
      v := w;
      assert w == "" ==> w + rest == rest;
    }
  }

  lemma {:induction false} LwsThen(w: string, rest: string)
    requires IsLws(w) && !StartsLws(rest)
    ensures SkipAllLws(w + rest) == rest
    decreases |w|
  {
    hide SkipLws, SkipWhitespace;
    SkipLwsStep(w + rest);
    if w == "" {
      assert w + rest == rest;
    } else {
      var k := if IsWhitespace(w[0]) then 1 else 3;
      assert (w + rest)[k..] == w[k..] + rest;
      var v := WhitespaceThen(w[k..], rest);
      if v + rest != "" {
        LwsThen(v, rest);
      } else {
        assert v == "" && rest == "";
      }
    }
  }

  // ----- The text of attributes -----

  datatype Value = NoValue | TokenValue(token: string) | QuotedValue(text: string)

  /** An attribute and the whitespace around its parts; `lead` and `after` stand around a value. */
  datatype AttributeText = AttributeText(
    before: string, name: string, between: string, lead: string, value: Value, after: string)

  predicate IsAttribute(a: AttributeText) {
    && IsToken(a.name)
    && IsLws(a.before) && IsLws(a.between) && IsLws(a.lead) && IsLws(a.after)
    && (a.value.TokenValue? ==> IsToken(a.value.token))
    && (a.value.QuotedValue? ==> !EndsInBackslash(a.value.text))
  }

  /** The attribute in front of the text `rest`. */
  function PrintAttribute(a: AttributeText, rest: string): string {
    a.before + (a.name + (a.between + PrintValue(a, rest)))
  }

  function PrintValue(a: AttributeText, rest: string): string {
    match a.value
    case NoValue => rest
    case TokenValue(t) => "=" + (a.lead + (t + (a.after + rest)))
    case QuotedValue(t) => "=" + (a.lead + (QUOTE + Closed(t, a.after + rest)))
  }

  function PrintAttributes(attributes: seq<AttributeText>, rest: string): string {
    if attributes == [] then rest else ";" + PrintAttribute(attributes[0], PrintAttributes(attributes[1..], rest))
  }

  function ValueText(value: Value): string {
    match value
    case NoValue => ""
    case TokenValue(t) => t
    case QuotedValue(t) => t
  }

  /** A later attribute of the same name overrides an earlier one. */
  function Meaning(attributes: seq<AttributeText>, list: AttributeList): AttributeList {
    if attributes == [] then list
    else Meaning(attributes[1..], list[attributes[0].name := ValueText(attributes[0].value)])
  }

  /** Text that goes on with neither the name nor the value before it. */
  predicate Separated(rest: string) {
    !StartsToken(rest) && !StartsLws(rest) && (rest != "" ==> rest[0] != '=')
  }

  lemma LwsKeepsTokensApart(w: string, rest: string)
    requires IsLws(w) && !StartsToken(rest)
    ensures !StartsToken(w + rest)
  {
    if w == "" {
      assert w + rest == rest;
    }
  }

  lemma ValueReadsBack(a: AttributeText, s: string, rest: string)
    requires IsAttribute(a) && Separated(rest)
    requires s == match a.value
      case NoValue => ""
      case TokenValue(t) => t + (a.after + rest)
      case QuotedValue(t) => QUOTE + Closed(t, a.after + rest)
    ensures !a.value.NoValue? ==>
      !StartsLws(s) && TakeValue(a.name, s) == Attribute(a.name, ValueText(a.value), a.after + rest)
  {
    hide IsTokenChar, TokenLength, Unquote, Escape, IsLws;
    var tail := a.after + rest;
    match a.value
    case NoValue =>
    case TokenValue(t) =>
      LwsKeepsTokensApart(a.after, rest);
      TokenThen(t, tail);
      assert s[0] == t[0];
      NotAToken(t[0]);
    case QuotedValue(t) =>
      assert s[1..] == Closed(t, tail);
      EscapedReadsBack(t, tail);
  }

  lemma NotAToken(c: char)
    requires IsTokenChar(c)
    ensures c != '"' && c != '\r' && c != ';' && c != ',' && c != '=' && !IsWhitespace(c)
  {
    TokenTable(c);
  }

  /** A printed attribute is taken as it was meant, up to the whitespace after it. */
  lemma AttributeReadsBack(a: AttributeText, rest: string)
    requires IsAttribute(a) && Separated(rest)
    ensures var t := TakeAttribute(PrintAttribute(a, rest));
      t.Attribute? && t.name == a.name && t.value == ValueText(a.value) && SkipAllLws(t.rest) == rest
  {
    hide IsTokenChar, TokenLength, IsLws, SkipAllLws, TakeValue, TakeQuoted, Closed;
    var v := PrintValue(a, rest);
    EqualsIsNotAToken();
    assert Separated(v) || v[0] == '=';
    LwsKeepsTokensApart(a.between, v);
    TokenThen(a.name, a.between + v);
    NotAToken(a.name[0]);
    assert (a.name + (a.between + v))[0] == a.name[0];
    LwsThen(a.before, a.name + (a.between + v));
    LwsThen(a.between, v);
    NoLwsIsSkipped(rest);
    if !a.value.NoValue? {
      var s := match a.value
        case TokenValue(t) => t + (a.after + rest)
        case QuotedValue(t) => QUOTE + Closed(t, a.after + rest);
      assert v == "=" + (a.lead + s) && v[1..] == a.lead + s;
      ValueReadsBack(a, s, rest);
      LwsThen(a.lead, s);
      LwsThen(a.after, rest);
    }
  }

  lemma EqualsIsNotAToken()
    ensures !IsTokenChar('=') && !IsTokenChar(';') && !IsTokenChar(',')
  {
  }

  lemma NoLwsIsSkipped(rest: string)
    requires !StartsLws(rest)
    ensures SkipAllLws(rest) == rest
  {
    LwsThen("", rest);
    assert "" + rest == rest;
  }

  // ----- The text of lists -----

  predicate AreAttributes(attributes: seq<AttributeText>) {
    forall i | 0 <= i < |attributes| :: IsAttribute(attributes[i])
  }

  /** Text that ends an attribute list. */
  predicate EndsAttributes(rest: string) {
    Separated(rest) && (rest != "" ==> rest[0] != ';')
  }

  lemma PrintedAttributesStart(attributes: seq<AttributeText>, rest: string)
    requires EndsAttributes(rest)
    ensures Separated(PrintAttributes(attributes, rest))
    ensures attributes != [] ==> PrintAttributes(attributes, rest) != "" && PrintAttributes(attributes, rest)[0] == ';'
  {
    EqualsIsNotAToken();
    hide IsTokenChar;
  }

  /** From any text that is whitespace before printed attributes, the rest of the list is read. */
  lemma {:induction false} AttributesReadBack(
    s: string, attributes: seq<AttributeText>, rest: string, list: AttributeList)
    requires AreAttributes(attributes) && EndsAttributes(rest)
    requires SkipAllLws(s) == PrintAttributes(attributes, rest)
    ensures Attributes(s, false, list) == Done(rest, Meaning(attributes, list))
    decreases |attributes|
  {
    hide SkipAllLws, IsAttribute, IsTokenChar, PrintAttribute, TakeAttribute, Separated, PrintAttributes;
    PrintedStep(attributes, rest);
    if attributes != [] {
      var tail := PrintAttributes(attributes[1..], rest);
      PrintedAttributesStart(attributes[1..], rest);
      AttributeReadsBack(attributes[0], tail);
      var t := TakeAttribute(PrintAttribute(attributes[0], tail));
      AttributesReadBack(t.rest, attributes[1..], rest, list[t.name := t.value]);
    }
  }

  lemma PrintedStep(attributes: seq<AttributeText>, rest: string)
    ensures var s := PrintAttributes(attributes, rest);
      if attributes == [] then s == rest
      else s != "" && s[0] == ';' && s[1..] == PrintAttribute(attributes[0], PrintAttributes(attributes[1..], rest))
  {
  }

  /** The same from the start of a list, the first semicolon having been read. */
  lemma AttributeListReadsBack(attributes: seq<AttributeText>, rest: string, list: AttributeList)
    requires attributes != [] && AreAttributes(attributes) && EndsAttributes(rest)
    ensures Attributes(PrintAttributes(attributes, rest)[1..], true, list) == Done(rest, Meaning(attributes, list))
  {
    hide SkipAllLws, IsAttribute, IsTokenChar, PrintAttribute, TakeAttribute, Separated, PrintAttributes,
      AreAttributes, Attributes;
    var tail := PrintAttributes(attributes[1..], rest);
    PrintedStep(attributes, rest);
    PrintedAttributesStart(attributes[1..], rest);
    assert IsAttribute(attributes[0]) && AreAttributes(attributes[1..]) by { FirstAndRest(attributes); }
    AttributeReadsBack(attributes[0], tail);
    var s := PrintAttribute(attributes[0], tail);
    SkipsToAttribute(attributes[0], tail, list);
    var t := TakeAttribute(s);
    AttributesReadBack(t.rest, attributes[1..], rest, list[t.name := t.value]);
  }

  lemma FirstAndRest(attributes: seq<AttributeText>)
    requires attributes != [] && AreAttributes(attributes)
    ensures IsAttribute(attributes[0]) && AreAttributes(attributes[1..])
  {
  }

  /** Whitespace before an attribute is skipped twice, to no further effect. */
  lemma SkipsToAttribute(a: AttributeText, rest: string, list: AttributeList)
    requires IsAttribute(a)
    ensures var s := PrintAttribute(a, rest); var t := TakeAttribute(s);
      Attributes(s, true, list) ==
        if t.Malformed? then Failed(list) else Attributes(t.rest, false, list[t.name := t.value])
  {
    hide SkipAllLws, IsTokenChar, PrintValue, IsLws, TokenLength, TakeValue;
    var u := a.name + (a.between + PrintValue(a, rest));
    assert u[0] == a.name[0];
    NotAToken(a.name[0]);
    LwsThen(a.before, u);
    NoLwsIsSkipped(u);
  }

  /** A parameter and the whitespace around its name; whitespace before a comma follows the last attribute. */
  datatype ParameterText = ParameterText(before: string, name: string, after: string, attributes: seq<AttributeText>)

  predicate IsParameter(p: ParameterText) {
    IsToken(p.name) && IsLws(p.before) && IsLws(p.after) && AreAttributes(p.attributes)
  }

  predicate AreParameters(ps: seq<ParameterText>) {
    forall i | 0 <= i < |ps| :: IsParameter(ps[i])
  }

  function PrintParameter(p: ParameterText, rest: string): string {
    p.before + (p.name + (p.after + PrintAttributes(p.attributes, rest)))
  }

  /** The parameters, separated by commas, in front of the text `rest`. */
  function PrintParameters(ps: seq<ParameterText>, rest: string): string
    requires ps != []
  {
    PrintParameter(ps[0], if |ps| == 1 then rest else "," + PrintParameters(ps[1..], rest))
  }

  function ParameterMeanings(ps: seq<ParameterText>): (r: seq<Parameter>)
    ensures |r| == |ps|
  {
    seq(|ps|, i requires 0 <= i < |ps| => Parameter(ps[i].name, Meaning(ps[i].attributes, map[])))
  }

  lemma ParameterReadsBack(p: ParameterText, rest: string, list: seq<Parameter>)
    requires IsParameter(p) && EndsAttributes(rest)
    ensures Parameters(PrintParameter(p, rest), list) ==
      NextParameter(rest, list + [Parameter(p.name, Meaning(p.attributes, map[]))])
  {
    hide SkipAllLws, IsTokenChar, IsLws, TokenLength, PrintAttributes, Separated, NextParameter, Attributes, Meaning,
      AreAttributes;
    var v := PrintAttributes(p.attributes, rest);
    PrintedAttributesStart(p.attributes, rest);
    PrintedStep(p.attributes, rest);
    assert !StartsToken(v) && !StartsLws(v) && !StartsLws(rest) by { SeparatedStarts(v); SeparatedStarts(rest); }
    LwsKeepsTokensApart(p.after, v);
    TokenThen(p.name, p.after + v);
    NotAToken(p.name[0]);
    assert (p.name + (p.after + v))[0] == p.name[0];
    LwsThen(p.before, p.name + (p.after + v));
    LwsThen(p.after, v);
    NoLwsIsSkipped(rest);
    if p.attributes == [] {
      NoMeaning();
      EmptyNext(list + [Parameter(p.name, map[])]);
    } else {
      AttributeListReadsBack(p.attributes, rest, map[]);
      PrintedNotEmpty(p.attributes, rest);
    }
  }

  lemma SeparatedStarts(s: string)
    requires Separated(s)
    ensures !StartsToken(s) && !StartsLws(s)
  {
  }

  lemma NoMeaning()
    ensures Meaning([], map[]) == map[]
  {
  }

  lemma EmptyNext(list: seq<Parameter>)
    ensures NextParameter("", list) == Done("", list)
  {
  }

  lemma PrintedNotEmpty(attributes: seq<AttributeText>, rest: string)
    requires attributes != [] && AreAttributes(attributes)
    ensures PrintAttributes(attributes, rest)[1..] != ""
  {
    hide IsLws;
    var a := attributes[0];
    assert IsAttribute(a);
    PrintedStep(attributes, rest);
    assert |PrintAttribute(a, PrintAttributes(attributes[1..], rest))| >= |a.name|;
  }

  /** From the text of parameters, they are read up to the text after them. */
  lemma {:induction false} ParametersUpTo(ps: seq<ParameterText>, rest: string, list: seq<Parameter>)
    requires ps != [] && AreParameters(ps) && EndsAttributes(rest)
    ensures Parameters(PrintParameters(ps, rest), list) == NextParameter(rest, list + ParameterMeanings(ps))
    decreases |ps|
  {
    hide IsTokenChar, PrintAttributes, Meaning, IsParameter, Separated, PrintParameter, Parameters, EndsAttributes;
    var first := Parameter(ps[0].name, Meaning(ps[0].attributes, map[]));
    if |ps| == 1 {
      ParameterReadsBack(ps[0], rest, list);
      assert ParameterMeanings(ps) == [first];
    } else {
      var tail := PrintParameters(ps[1..], rest);
      var next := "," + tail;
      assert next[1..] == tail;
      CommaSeparates(tail);
      ParameterReadsBack(ps[0], next, list);
      ParametersUpTo(ps[1..], rest, list + [first]);
      ParameterNotEmpty(ps[1], if |ps| == 2 then rest else "," + PrintParameters(ps[2..], rest));
      assert ps[1..][1..] == ps[2..];
      assert ParameterMeanings(ps) == [first] + ParameterMeanings(ps[1..]);
      assert list + [first] + ParameterMeanings(ps[1..]) == list + ([first] + ParameterMeanings(ps[1..]));
    }
  }

  /**
   * The text of any parameter list, with whitespace wherever the grammar
   * allows it, parses to exactly that list and stops where the text of the
   * list ends.
   */
  lemma ParametersRoundTrip(ps: seq<ParameterText>, rest: string, list: seq<Parameter>)
    requires ps != [] && AreParameters(ps)
    requires EndsAttributes(rest) && (rest != "" ==> rest[0] != ',')
    ensures Parameters(PrintParameters(ps, rest), list) == Done(rest, list + ParameterMeanings(ps))
  {
    hide Parameters, PrintParameters, AreParameters, EndsAttributes;
    ParametersUpTo(ps, rest, list);
  }

  lemma CommaSeparates(s: string)
    ensures EndsAttributes("," + s)
  {
    EqualsIsNotAToken();
  }

  lemma ParameterNotEmpty(p: ParameterText, rest: string)
    requires IsParameter(p)
    ensures PrintParameter(p, rest) != ""
  {
    hide IsLws, AreAttributes;
    assert |PrintParameter(p, rest)| >= |p.name|;
  }

  /** What is printed in front of a text is in front of it. */
  lemma {:induction false} PrintedInFront(ps: seq<ParameterText>, x: string, rest: string)
    requires ps != []
    ensures PrintParameters(ps, x + rest) == PrintParameters(ps, x) + rest
    decreases |ps|
  {
    hide PrintAttributes;
    var p := ps[0];
    if |ps| == 1 {
      AttributesInFront(p.attributes, x, rest);
    } else {
      var tail := "," + PrintParameters(ps[1..], x);
      PrintedInFront(ps[1..], x, rest);
      assert tail + rest == "," + PrintParameters(ps[1..], x + rest);
      AttributesInFront(p.attributes, tail, rest);
    }
  }

  lemma {:induction false} AttributesInFront(attributes: seq<AttributeText>, x: string, rest: string)
    ensures PrintAttributes(attributes, x + rest) == PrintAttributes(attributes, x) + rest
    decreases |attributes|
  {
    hide PrintValue;
    if attributes != [] {
      AttributesInFront(attributes[1..], x, rest);
      ValueInFront(attributes[0], PrintAttributes(attributes[1..], x), rest);
    }
  }

  lemma ValueInFront(a: AttributeText, x: string, rest: string)
    ensures PrintValue(a, x + rest) == PrintValue(a, x) + rest
  {
    hide Escape;
    if a.value.QuotedValue? {
      assert Closed(a.value.text, a.after + x) + rest == Closed(a.value.text, a.after + (x + rest));
    }
  }
}
