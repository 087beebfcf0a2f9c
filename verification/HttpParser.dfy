/**
 * Parsing of HTTP header values: tokens, quoted strings, linear whitespace,
 * attribute lists and parameter lists (sections 2.2 and 3.6 of RFC 2616).
 *
 * The specification works on the text that is left; the methods move a cursor.
 */
module HttpParser {
  import opened Search

  // ----- Characters: the table header_token, sixteen entries a row -----

  const ROW_20: seq<bool> :=
    [false, true, false, true, true, true, true, true, false, false, true, true, false, true, true, false]
  const ROW_30: seq<bool> :=
    [true, true, true, true, true, true, true, true, true, true, false, false, false, false, false, false]
  const ROW_40: seq<bool> :=
    [false, true, true, true, true, true, true, true, true, true, true, true, true, true, true, true]
  const ROW_50: seq<bool> :=
    [true, true, true, true, true, true, true, true, true, true, true, false, false, false, true, true]
  const ROW_60: seq<bool> :=
    [true, true, true, true, true, true, true, true, true, true, true, true, true, true, true, true]
  const ROW_70: seq<bool> :=
    [true, true, true, true, true, true, true, true, true, true, true, false, true, false, true, false]

  predicate IsTokenChar(c: char) {
    var i := c as int;
    if i < 0x20 then false
    else if i < 0x30 then ROW_20[i - 0x20]
    else if i < 0x40 then ROW_30[i - 0x30]
    else if i < 0x50 then ROW_40[i - 0x40]
    else if i < 0x60 then ROW_50[i - 0x50]
    else if i < 0x70 then ROW_60[i - 0x60]
    else if i < 0x80 then ROW_70[i - 0x70]
    else false
  }

  const SEPARATORS := "()<>@,;:\\\"/[]?={} \t"

  /** The table says what section 2.2 says: any CHAR except CTLs or separators. */
  lemma TokenTable(c: char)
    ensures IsTokenChar(c) <==> 32 <= c as int < 127 && c !in SEPARATORS
  {
  }

  predicate IsWhitespace(c: char) {
    c == ' ' || c == '\t'
  }

  // ----- Specification: tokens, whitespace, quoted strings -----

  function TokenLength(s: string): (n: nat)
    ensures n <= |s|
  {
    if s == "" || !IsTokenChar(s[0]) then 0 else 1 + TokenLength(s[1..])
  }

  function SkipWhitespace(s: string): (r: string)
    ensures |r| <= |s|
  {
    if s == "" || !IsWhitespace(s[0]) then s else SkipWhitespace(s[1..])
  }

  /** One unit of linear whitespace, with at most one line break at its start. */
  function SkipLws(s: string): (r: string)
    ensures |r| <= |s|
  {
    if |s| > 2 && s[0] == '\r' && s[1] == '\n' && IsWhitespace(s[2]) then SkipWhitespace(s[3..]) else SkipWhitespace(s)
  }

  function SkipAllLws(s: string): (r: string)
    ensures |r| <= |s|
    decreases |s|
  {
    var r := SkipLws(s);
    if r != "" && |r| < |s| then SkipAllLws(r) else r
  }

  datatype Quoted = NoString | QuotedString(text: string, rest: string)

  function Prefixed(t: string, q: Quoted): Quoted {
    if q.NoString? then q else q.(text := t + q.text)
  }

  /** What follows an opening quote, up to the first quote without a backslash before it. */
  function Unquote(s: string): (q: Quoted)
    ensures q.QuotedString? ==> |q.rest| < |s|
  {
    if s == "" then NoString
    else if s[0] == '"' then QuotedString("", s[1..])
    else if s[0] == '\\' && |s| > 1 && s[1] == '"' then Prefixed("\"", Unquote(s[2..]))
    else Prefixed([s[0]], Unquote(s[1..]))
  }

  function TakeQuoted(s: string): (q: Quoted)
    ensures q.QuotedString? ==> |q.rest| < |s|
  {
    if s == "" || s[0] != '"' then NoString else Unquote(s[1..])
  }

  // ----- The cursor methods -----

  method ExtractToken(s: string, begin: nat) returns (token: string, it: nat)
    requires begin <= |s|
    ensures it == begin + TokenLength(s[begin..]) && it <= |s| && token == s[begin..it]
  {
    it := begin;
    while it < |s| && IsTokenChar(s[it])
      invariant begin <= it <= |s|
      invariant TokenLength(s[begin..]) == it - begin + TokenLength(s[it..])
    {
      assert s[it..][1..] == s[it + 1..];
      it := it + 1;
    }
    token := s[begin..it];
  }

  method FindNotWhitespace(s: string, begin: nat) returns (it: nat)
    requires begin <= |s|
    ensures begin <= it <= |s| && s[it..] == SkipWhitespace(s[begin..])
  {
    it := begin;
    while it < |s| && IsWhitespace(s[it])
      invariant begin <= it <= |s|
      invariant SkipWhitespace(s[begin..]) == SkipWhitespace(s[it..])
    {
      assert s[it..][1..] == s[it + 1..];
      it := it + 1;
    }
  }

  method ExtractLws(s: string, begin: nat) returns (it: nat)
    requires begin <= |s|
    ensures begin <= it <= |s| && s[it..] == SkipLws(s[begin..])
  {
    it := begin;
    if |s| - begin > 2 && s[begin] == '\r' && s[begin + 1] == '\n' && IsWhitespace(s[begin + 2]) {
      assert s[begin..][3..] == s[begin + 3..];
      it := it + 3;
    }
    it := FindNotWhitespace(s, it);
  }

  method ExtractAllLws(s: string, begin: nat) returns (it: nat)
    requires begin <= |s|
    ensures begin <= it <= |s| && s[it..] == SkipAllLws(s[begin..])
  {
    hide SkipLws;
    var oldIt := begin;
    it := ExtractLws(s, oldIt);
    while it != |s| && oldIt != it
      invariant begin <= oldIt <= it <= |s|
      invariant s[it..] == SkipLws(s[oldIt..])
      invariant SkipAllLws(s[begin..]) == SkipAllLws(s[oldIt..])
      decreases |s| - oldIt
    {
      oldIt := it;
      it := ExtractLws(s, oldIt);
    }
  }

  lemma UnquoteStep(c: char, r: string)
    ensures Unquote([c] + r) ==
      if c == '"' then QuotedString("", r)
      else if c == '\\' && r != "" && r[0] == '"' then Prefixed("\"", Unquote(r[1..]))
      else Prefixed([c], Unquote(r))
  {
    var s := [c] + r;
    assert s[1..] == r;
    assert r != "" ==> s[2..] == r[1..];
  }

  lemma {:induction false} UnquoteNone(body: string)
    requires '"' !in body
    ensures Unquote(body) == NoString
  {
    hide Unquote;
    if body == "" {
      UnquoteEmpty();
    } else {
      assert body == [body[0]] + body[1..];
      UnquoteStep(body[0], body[1..]);
      UnquoteNone(body[1..]);
    }
  }

  lemma UnquoteEmpty()
    ensures Unquote("") == NoString
  {
  }

  predicate EndsInBackslash(s: string) {
    s != "" && s[|s| - 1] == '\\'
  }

  /** Text without a quote runs up to the next quote; a backslash before that one escapes it. */
  lemma {:induction false} UnquoteUpTo(body: string, t: string)
    requires '"' !in body
    ensures Unquote(body + "\"" + t) ==
      if EndsInBackslash(body) then Prefixed(body[..|body| - 1] + "\"", Unquote(t)) else QuotedString(body, t)
  {
    hide Unquote;
    if body == "" {
      assert body + "\"" + t == ['"'] + t;
      UnquoteStep('"', t);
    } else {
      var c, b := body[0], body[1..];
      var r := b + "\"" + t;
      assert body + "\"" + t == [c] + r;
      UnquoteStep(c, r);
      if b == "" && c == '\\' {
        assert r[1..] == t && body[..0] + "\"" == "\"";
      } else {
        UnquoteUpTo(b, t);
        assert [c] + b == body;
        if EndsInBackslash(b) {
          PrefixedTwice([c], b[..|b| - 1] + "\"", Unquote(t));
          assert [c] + (b[..|b| - 1] + "\"") == body[..|body| - 1] + "\"";
        }
      }
    }
  }

  lemma PrefixedTwice(a: string, b: string, q: Quoted)
    ensures Prefixed(a, Prefixed(b, q)) == Prefixed(a + b, q)
  {
    if q.QuotedString? {
      assert a + (b + q.text) == a + b + q.text;
    }
  }

  lemma PrefixedNothing(q: Quoted)
    ensures Prefixed("", q) == q
  {
    if q.QuotedString? {
      assert "" + q.text == q.text;
    }
  }

  /** What the text collected so far becomes at the next quote, or at the end. */
  lemma NextQuote(s: string, text: string, marker: nat, cursor: nat)
    requires 0 < marker <= cursor <= |s| && s[marker - 1] == '"' && '"' !in s[marker..cursor]
    requires cursor < |s| ==> s[cursor] == '"'
    ensures Prefixed(text, Unquote(s[marker..])) ==
      if cursor == |s| then NoString
      else if s[cursor - 1] == '\\' then Prefixed(text + s[marker..cursor - 1] + "\"", Unquote(s[cursor + 1..]))
      else QuotedString(text + s[marker..cursor], s[cursor + 1..])
  {
    hide Unquote;
    var body := s[marker..cursor];
    if cursor == |s| {
      assert s[marker..] == body;
      UnquoteNone(body);
    } else {
      var rest := s[cursor + 1..];
      assert s[marker..] == body + "\"" + rest;
      UnquoteUpTo(body, rest);
      if EndsInBackslash(body) {
        assert body[..|body| - 1] == s[marker..cursor - 1];
        PrefixedTwice(text, body[..|body| - 1] + "\"", Unquote(rest));
        assert text + (body[..|body| - 1] + "\"") == text + s[marker..cursor - 1] + "\"";
      }
    }
  }

  /** Returns begin, and nothing, when there is no whole quoted string. */
  method ExtractQuotedString(s: string, begin: nat) returns (text: string, it: nat)
    requires begin <= |s|
    ensures begin <= it <= |s|
    ensures TakeQuoted(s[begin..]) == if it == begin then NoString else QuotedString(text, s[it..])
    ensures it == begin ==> text == ""
  {
    hide Unquote, IsTokenChar, Prefixed, TakeQuoted;
    ghost var whole := TakeQuoted(s[begin..]);
    TakeQuotedAt(s, begin);
    text := "";
    if |s| == begin {
      return text, begin;
    }
    if s[begin] != '"' {
      return text, begin;
    }
    var cursor := begin + 1;
    var marker := cursor;
    cursor := Find(s, cursor, '"');
    while cursor != |s|
      invariant begin < marker <= cursor <= |s|
      invariant s[marker - 1] == '"' && '"' !in s[marker..cursor] && (cursor < |s| ==> s[cursor] == '"')
      invariant whole == Prefixed(text, Unquote(s[marker..]))
      decreases |s| - cursor
    {
      NextQuote(s, text, marker, cursor);
      if s[cursor - 1] == '\\' {
        text := text + s[marker..cursor - 1];
        text := text + "\"";
        cursor := cursor + 1;
        marker := cursor;
      } else {
        text := text + s[marker..cursor];
        cursor := cursor + 1;
        return text, cursor;
      }
      cursor := Find(s, cursor, '"');
    }
    NextQuote(s, text, marker, cursor);
    return "", begin;
  }

  lemma TakeQuotedAt(s: string, begin: nat)
    requires begin <= |s|
    ensures TakeQuoted(s[begin..]) ==
      if begin == |s| || s[begin] != '"' then NoString else Prefixed("", Unquote(s[begin + 1..]))
  {
    hide Unquote;
    if begin < |s| {
      assert s[begin..][1..] == s[begin + 1..];
      PrefixedNothing(Unquote(s[begin + 1..]));
    }
  }

  // ----- Attribute lists -----

  type AttributeList = map<string, string>

  /** The text left after a list and what was read; or a syntax error, with what was read before it. */
  datatype Parse<T> = Done(rest: string, result: T) | Failed(result: T)

  /** One attribute after its semicolon, and the text left after it. */
  datatype Attribute = Malformed | Attribute(name: string, value: string, rest: string)

  function TakeAttribute(s: string): (a: Attribute)
    ensures a.Attribute? ==> |a.rest| < |s|
  {
    var s1 := SkipAllLws(s);
    var n := TokenLength(s1);
    if n == 0 then Malformed
    else
      var s2 := SkipAllLws(s1[n..]);
      if s2 == "" || s2[0] != '=' then Attribute(s1[..n], "", s2) else TakeValue(s1[..n], SkipAllLws(s2[1..]))
  }

  /** A token or a quoted string. */
  function TakeValue(name: string, s: string): (a: Attribute)
    ensures a.Attribute? ==> |a.rest| < |s|
  {
    var q := TakeQuoted(s);
    var n := TokenLength(s);
    if q.QuotedString? then Attribute(name, q.text, q.rest)
    else if n == 0 then Malformed
    else Attribute(name, s[..n], s[n..])
  }

  /** The loop of extract_attributes on the text that is left. */
  function Attributes(s: string, first: bool, attributes: AttributeList): (p: Parse<AttributeList>)
    ensures p.Done? ==> |p.rest| <= |s| && (first && s != "" ==> |p.rest| < |s|)
    decreases |s|
  {
    var s1 := SkipAllLws(s);
    if s1 == "" then Done("", attributes)
    else if !first && s1[0] != ';' then Done(s1, attributes)
    else
      var a := TakeAttribute(if first then s1 else s1[1..]);
      if a.Malformed? then Failed(attributes) else Attributes(a.rest, false, attributes[a.name := a.value])
  }

  /** Returns begin on a syntax error; the attributes read before it stay in the list. */
  method ExtractAttributes(s: string, begin: nat, attributes: AttributeList)
    returns (cursor: nat, list: AttributeList)
    requires begin <= |s|
    ensures begin <= cursor <= |s|
    ensures list == Attributes(s[begin..], true, attributes).result
    ensures match Attributes(s[begin..], true, attributes)
      case Done(rest, _) => s[cursor..] == rest && (begin < |s| ==> begin < cursor)
      case Failed(_) => cursor == begin
  {
    hide TokenLength, SkipAllLws, TakeQuoted, IsTokenChar, Attributes, TakeAttribute, TakeValue;
    list := attributes;
    var first := true;
    ghost var whole := Attributes(s[begin..], true, attributes);
    NothingLeft(s[begin..], true, list);
    if begin == |s| {
      return begin, list;
    }
    cursor := begin;
    while cursor != |s|
      invariant begin <= cursor <= |s| && (first ==> cursor == begin) && (!first ==> begin < cursor)
      invariant whole == Attributes(s[cursor..], first, list)
      decreases |s| - cursor
    {
      ghost var c0 := cursor;
      cursor := ExtractAllLws(s, cursor);
      AttributesAt(s, c0, cursor, first, list);
      if cursor == |s| {
        break;
      }
      if first {
        first := false;
      } else {
        if s[cursor] == ';' {
          cursor := cursor + 1;
        } else {
          break;
        }
      }
      ghost var c1 := cursor;
      cursor := ExtractAllLws(s, cursor);
      ghost var c2 := cursor;
      var name, it := ExtractToken(s, cursor);
      if name == "" {
        NoAttributeAt(s, c1, c2);
        return begin, list;
      } else {
        cursor := it;
      }
      cursor := ExtractAllLws(s, cursor);
      TakeAttributeAt(s, c1, c2, it, cursor);
      if cursor == |s| || s[cursor] != '=' {
        list := list[name := ""];
        continue;
      }
      cursor := cursor + 1;
      cursor := ExtractAllLws(s, cursor);
      if cursor == |s| {
        NoValue(name, s[cursor..]);
        return begin, list;
      }
      var value;
      ghost var c4 := cursor;
      value, it := ExtractQuotedString(s, cursor);
      if it != cursor {
        TakeValueAt(s, name, c4, it, it);
        list := list[name := value];
        cursor := it;
        continue;
      }
      value, it := ExtractToken(s, cursor);
      TakeValueAt(s, name, c4, c4, it);
      if value == "" {
        return begin, list;
      } else {
        list := list[name := value];
        cursor := it;
      }
    }
    NothingLeft(s[cursor..], first, list);
  }

  // What each step of the specification says at a cursor

  lemma NothingLeft(s: string, first: bool, list: AttributeList)
    ensures s == "" ==> Attributes(s, first, list) == Done("", list)
  {
  }

  lemma NoValue(name: string, s: string)
    ensures s == "" ==> TakeValue(name, s) == Malformed
  {
  }

  lemma AttributesAt(s: string, c0: nat, c1: nat, first: bool, list: AttributeList)
    requires c0 <= c1 <= |s| && s[c1..] == SkipAllLws(s[c0..])
    ensures Attributes(s[c0..], first, list) ==
      if c1 == |s| then Done("", list)
      else if !first && s[c1] != ';' then Done(s[c1..], list)
      else
        var a := TakeAttribute(if first then s[c1..] else s[c1 + 1..]);
        if a.Malformed? then Failed(list) else Attributes(a.rest, false, list[a.name := a.value])
  {
    hide SkipAllLws, TakeAttribute;
    if c1 < |s| {
      assert s[c1..][1..] == s[c1 + 1..];
    }
  }

  lemma NoAttributeAt(s: string, c1: nat, c2: nat)
    requires c1 <= c2 <= |s| && s[c2..] == SkipAllLws(s[c1..]) && TokenLength(s[c2..]) == 0
    ensures TakeAttribute(s[c1..]) == Malformed
  {
    hide SkipAllLws, TokenLength;
  }

  lemma TakeAttributeAt(s: string, c1: nat, c2: nat, it: nat, c3: nat)
    requires c1 <= c2 < it <= c3 <= |s|
    requires s[c2..] == SkipAllLws(s[c1..]) && it == c2 + TokenLength(s[c2..])
    requires s[c3..] == SkipAllLws(s[it..])
    ensures TakeAttribute(s[c1..]) ==
      if c3 == |s| || s[c3] != '=' then Attribute(s[c2..it], "", s[c3..])
      else TakeValue(s[c2..it], SkipAllLws(s[c3 + 1..]))
  {
    hide SkipAllLws, TokenLength, TakeValue;
    TokenSlices(s, c2, it);
    if c3 < |s| {
      assert s[c3..][1..] == s[c3 + 1..];
    }
  }

  lemma TakeValueAt(s: string, name: string, c4: nat, quote: nat, it: nat)
    requires c4 <= quote <= it <= |s|
    requires quote != c4 ==> TakeQuoted(s[c4..]).QuotedString? && TakeQuoted(s[c4..]).rest == s[quote..]
    requires quote == c4 ==> TakeQuoted(s[c4..]) == NoString && it == c4 + TokenLength(s[c4..])
    ensures TakeValue(name, s[c4..]) ==
      if quote != c4 then Attribute(name, TakeQuoted(s[c4..]).text, s[quote..])
      else if it == c4 then Malformed
      else Attribute(name, s[c4..it], s[it..])
  {
    hide TokenLength, TakeQuoted;
    TokenSlices(s, c4, it);
  }

  lemma TokenSlices(s: string, begin: nat, it: nat)
    requires begin <= it <= |s|
    ensures s[begin..][..it - begin] == s[begin..it] && s[begin..][it - begin..] == s[it..]
  {
  }

  // ----- Parameter lists -----

  datatype Parameter = Parameter(name: string, attributes: AttributeList)

  /** The part of an iteration of extract_parameters from the first `;` on: the attributes, if there are any. */
  function TakeAttributes(s: string): (p: Parse<AttributeList>)
    requires s != ""
    ensures p.Done? ==> |p.rest| <= |s|
  {
    if s[0] != ';' then Done(s, map[])
    else if s[1..] == "" then Failed(map[])
    else Attributes(s[1..], true, map[])
  }

  /** The loop of extract_parameters on the text that is left. */
  function Parameters(s: string, parameters: seq<Parameter>): (p: Parse<seq<Parameter>>)
    ensures p.Done? ==> |p.rest| <= |s|
    decreases |s|
  {
    var s1 := SkipAllLws(s);
    var n := TokenLength(s1);
    if s1 == "" then Done("", parameters)
    else if n == 0 then Failed(parameters)
    else
      var s2 := SkipAllLws(s1[n..]);
      if s2 == "" then Done("", parameters + [Parameter(s1[..n], map[])])
      else
        var a := TakeAttributes(s2);
        if a.Failed? then Failed(parameters)
        else NextParameter(SkipAllLws(a.rest), parameters + [Parameter(s1[..n], a.result)])
  }

  /** At the end of an iteration: a comma, with more text after it, calls for another one. */
  function NextParameter(s: string, parameters: seq<Parameter>): (p: Parse<seq<Parameter>>)
    ensures p.Done? ==> |p.rest| <= |s|
    decreases |s|
  {
    if s == "" || s[0] != ',' then Done(s, parameters)
    else if s[1..] == "" then Failed(parameters)
    else Parameters(s[1..], parameters)
  }

  /** Returns begin on a syntax error; the parameters read before it stay in the list. */
  method ExtractParameters(s: string, begin: nat, parameters: seq<Parameter>)
    returns (cursor: nat, list: seq<Parameter>)
    requires begin <= |s|
    ensures begin <= cursor <= |s|
    ensures list == Parameters(s[begin..], parameters).result
    ensures match Parameters(s[begin..], parameters)
      case Done(rest, _) => s[cursor..] == rest
      case Failed(_) => cursor == begin
  {
    hide TokenLength, SkipAllLws, IsTokenChar, Parameters, NextParameter, TakeAttributes, Attributes;
    list := parameters;
    ghost var whole := Parameters(s[begin..], parameters);
    NoParameters(s[begin..], list);
    if begin == |s| {
      return begin, list;
    }
    cursor := begin;
    while cursor != |s|
      invariant begin <= cursor <= |s| && whole == Parameters(s[cursor..], list)
      decreases |s| - cursor
    {
      ghost var c0 := cursor;
      cursor := ExtractAllLws(s, cursor);
      ghost var c1 := cursor;
      var name, it := ExtractToken(s, cursor);
      NoTokenAtEnd(s[cursor..]);
      if cursor == |s| {
        ParametersAt(s, c0, c1, it, it, list);
        break;
      }
      if name == "" {
        ParametersAt(s, c0, c1, it, it, list);
        return begin, list;
      } else {
        cursor := it;
      }
      cursor := ExtractAllLws(s, cursor);
      ghost var c2 := cursor;
      ParametersAt(s, c0, c1, it, c2, list);
      if cursor == |s| {
        list := list + [Parameter(name, map[])];
        break;
      }
      var attributes: AttributeList := map[];
      TakeAttributesAt(s, c2);
      if s[cursor] == ';' {
        cursor := cursor + 1;
        var acursor;
        acursor, attributes := ExtractAttributes(s, cursor, attributes);
        if acursor == cursor {
          return begin, list;
        }
        cursor := acursor;
      }
      ghost var c3 := cursor;
      list := list + [Parameter(name, attributes)];
      cursor := ExtractAllLws(s, cursor);
      NextParameterAt(s, cursor, list);
      if cursor == |s| {
        break;
      }
      if s[cursor] != ',' {
        break;
      }
      cursor := cursor + 1;
      if cursor == |s| {
        return begin, list;
      }
    }
    NoParameters(s[cursor..], list);
  }

  lemma NoParameters(s: string, list: seq<Parameter>)
    ensures s == "" ==> Parameters(s, list) == Done("", list)
  {
  }

  lemma NoTokenAtEnd(s: string)
    ensures s == "" ==> TokenLength(s) == 0
  {
  }

  lemma ParametersAt(s: string, c0: nat, c1: nat, it: nat, c2: nat, list: seq<Parameter>)
    requires c0 <= c1 <= it <= c2 <= |s|
    requires s[c1..] == SkipAllLws(s[c0..]) && it == c1 + TokenLength(s[c1..])
    requires it > c1 ==> s[c2..] == SkipAllLws(s[it..])
    ensures Parameters(s[c0..], list) ==
      if c1 == |s| then Done("", list)
      else if it == c1 then Failed(list)
      else if c2 == |s| then Done("", list + [Parameter(s[c1..it], map[])])
      else
        var a := TakeAttributes(s[c2..]);
        if a.Failed? then Failed(list) else NextParameter(SkipAllLws(a.rest), list + [Parameter(s[c1..it], a.result)])
  {
    hide TokenLength, SkipAllLws, TakeAttributes, NextParameter;
    TokenSlices(s, c1, it);
  }

  lemma TakeAttributesAt(s: string, c: nat)
    requires c < |s|
    ensures TakeAttributes(s[c..]) ==
      if s[c] != ';' then Done(s[c..], map[])
      else if c + 1 == |s| then Failed(map[])
      else Attributes(s[c + 1..], true, map[])
  {
    hide Attributes;
    assert s[c..][1..] == s[c + 1..];
  }

  lemma NextParameterAt(s: string, c: nat, list: seq<Parameter>)
    requires c <= |s|
    ensures NextParameter(s[c..], list) ==
      if c == |s| || s[c] != ',' then Done(s[c..], list)
      else if c + 1 == |s| then Failed(list)
      else Parameters(s[c + 1..], list)
  {
    hide Parameters;
    if c < |s| {
      assert s[c..][1..] == s[c + 1..];
    }
  }
}
