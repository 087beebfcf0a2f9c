/**
 * What the HTTP parsers accept: whitespace is skipped exactly, and whatever is
 * read successfully is the text of what it was read as.  With the round trips
 * of HttpPrinting this says which texts are lists and what they mean.
 */
module HttpGrammar {
  import opened HttpParser
  import opened HttpPrinting

  // ----- Whitespace and tokens -----

  /** Text that goes on with more linear whitespace. */
  predicate GoesOnWithLws(r: string) {
    && r != ""
    && ( || r[0] == ' ' || r[0] == '\t'
         || (|r| > 2 && r[0] == '\r' && r[1] == '\n' && (r[2] == ' ' || r[2] == '\t')))
  }

  lemma {:induction false} WhitespaceSkipped(s: string) returns (w: string)
    ensures s == w + SkipWhitespace(s) && IsLws(w)
    ensures var r := SkipWhitespace(s); r != "" ==> r[0] != ' ' && r[0] != '\t'
    decreases |s|
  {
    hide IsLws;
    if s == "" || !IsWhitespace(s[0]) {
      w := "";
      assert w + s == s;
      NoLws();
    } else {
      var v := WhitespaceSkipped(s[1..]);
      w := [s[0]] + v;
      WhitespaceInFront(s[0], v);
      FirstInFront(s, v, SkipWhitespace(s[1..]));
    }
  }

  lemma FirstInFront(s: string, v: string, r: string)
    requires s != "" && s[1..] == v + r
    ensures s == [s[0]] + v + r
  {
    assert s == [s[0]] + s[1..];
  }

  lemma WhitespaceInFront(c: char, v: string)
    requires IsWhitespace(c) && IsLws(v)
    ensures IsLws([c] + v)
  {
    assert ([c] + v)[1..] == v;
  }

  lemma UnitSkipped(s: string) returns (w: string)
    ensures s == w + SkipLws(s) && IsLws(w)
    ensures |SkipLws(s)| == |s| ==> !GoesOnWithLws(s)
  {
    if |s| > 2 && s[0] == '\r' && s[1] == '\n' && IsWhitespace(s[2]) {
      var v := WhitespaceSkipped(s[3..]);
      w := s[..3] + v;
      assert w[3..] == v && s == s[..3] + s[3..];
    } else {
      w := WhitespaceSkipped(s);
    }
  }

  lemma {:induction false} LwsAppend(v: string, w: string)
    requires IsLws(v) && IsLws(w)
    ensures IsLws(v + w)
    decreases |v|
  {
    if v == "" {
      assert v + w == w;
    } else {
      var k := if v[0] == '\r' then 3 else 1;
      assert (v + w)[k..] == v[k..] + w;
      LwsAppend(v[k..], w);
    }
  }

  /** Skipping leaves out linear whitespace and nothing else, and all of it. */
  lemma {:induction false} LwsSkipped(s: string) returns (w: string)
    ensures s == w + SkipAllLws(s) && IsLws(w) && !GoesOnWithLws(SkipAllLws(s))
    decreases |s|
  {
    hide SkipLws;
    var r := SkipLws(s);
    var v := UnitSkipped(s);
    if r != "" && |r| < |s| {
      var u := LwsSkipped(r);
      w := v + u;
      LwsAppend(v, u);
    } else {
      w := v;
    }
  }

  lemma NothingToSkip(s: string)
    requires !GoesOnWithLws(s)
    ensures SkipAllLws(s) == s
  {
    hide IsLws;
    if s != "" {
      assert SkipWhitespace(s) == s;
    }
  }

  lemma {:induction false} TokenTaken(s: string)
    ensures var n := TokenLength(s); s == s[..n] + s[n..] && (n > 0 ==> IsToken(s[..n]))
  {
    hide IsTokenChar;
    if s != "" && IsTokenChar(s[0]) {
      TokenTaken(s[1..]);
      var n := TokenLength(s);
      assert s[..n] == [s[0]] + s[1..][..n - 1];
    }
  }

  // ----- Quoted strings -----

  lemma {:induction false} UnquotedIsEscaped(s: string)
    ensures Unquote(s).QuotedString? ==>
      var q := Unquote(s); !EndsInBackslash(q.text) && s == Closed(q.text, q.rest)
    decreases |s|
  {
    hide Unquote, Escape;
    if s == "" {
      UnquoteEmpty();
    } else {
      var c, r := s[0], s[1..];
      assert s == [c] + r;
      UnquoteStep(c, r);
      if c == '"' {
        EscapeStart("");
      } else if c == '\\' && r != "" && r[0] == '"' {
        UnquotedIsEscaped(r[1..]);
        EscapedOneMore('"', r[1..]);
        assert r == ['"'] + r[1..];
      } else {
        UnquotedIsEscaped(r);
        EscapedOneMore(c, r);
        if c == '\\' && Unquote(r).QuotedString? && Unquote(r).text == "" {
          EscapeStart("");
        }
      }
    }
  }

  lemma EscapedOneMore(c: char, r: string)
    requires Unquote(r).QuotedString? ==> r == Closed(Unquote(r).text, Unquote(r).rest)
    ensures Unquote(r).QuotedString? ==>
      var q := Unquote(r);
      Closed([c] + q.text, q.rest) == (if c == '"' then ESCAPED_QUOTE else [c]) + r
  {
    hide Unquote, Escape;
    if Unquote(r).QuotedString? {
      EscapeStep(c, Unquote(r).text);
    }
  }

  /** A quoted string that is read is the escaped text between quotes. */
  lemma QuotedIsPrinted(s: string)
    ensures TakeQuoted(s).QuotedString? ==>
      var q := TakeQuoted(s); !EndsInBackslash(q.text) && s == QUOTE + Closed(q.text, q.rest)
  {
    hide Unquote, Closed;
    if s != "" && s[0] == '"' {
      UnquotedIsEscaped(s[1..]);
      assert s == QUOTE + s[1..];
    }
  }

  // ----- Attributes -----

  lemma ValueIsPrinted(name: string, s: string) returns (value: Value)
    ensures TakeValue(name, s).Attribute? ==>
      var t := TakeValue(name, s);
      && t.name == name && t.value == ValueText(value) && !value.NoValue?
      && (value.TokenValue? ==> IsToken(value.token) && s == value.token + t.rest)
      && (value.QuotedValue? ==> !EndsInBackslash(value.text) && s == QUOTE + Closed(value.text, t.rest))
  {
    hide TokenLength, TakeQuoted, Closed, IsTokenChar;
    QuotedIsPrinted(s);
    TokenTaken(s);
    value := if TakeQuoted(s).QuotedString? then QuotedValue(TakeQuoted(s).text) else TokenValue(s[..TokenLength(s)]);
  }

  /** An attribute that is read is the text of an attribute, with no whitespace after it if it has no value. */
  lemma AttributeIsPrinted(s: string) returns (a: AttributeText)
    ensures TakeAttribute(s).Attribute? ==>
      var t := TakeAttribute(s);
      && IsAttribute(a) && a.name == t.name && ValueText(a.value) == t.value && a.after == ""
      && s == PrintAttribute(a, t.rest)
      && (a.value.NoValue? ==> !GoesOnWithLws(t.rest))
  {
    hide TokenLength, SkipAllLws, TakeValue, IsTokenChar, IsLws, GoesOnWithLws, Closed;
    var w1 := LwsSkipped(s);
    var s1 := SkipAllLws(s);
    TokenTaken(s1);
    var n := TokenLength(s1);
    var w2 := LwsSkipped(s1[n..]);
    var s2 := SkipAllLws(s1[n..]);
    NoLws();
    if s2 == "" || s2[0] != '=' {
      a := AttributeText(w1, s1[..n], w2, "", NoValue, "");
    } else {
      var w3 := LwsSkipped(s2[1..]);
      var s3 := SkipAllLws(s2[1..]);
      var value := ValueIsPrinted(s1[..n], s3);
      a := AttributeText(w1, s1[..n], w2, w3, value, "");
      if TakeAttribute(s).Attribute? {
        assert "" + TakeAttribute(s).rest == TakeAttribute(s).rest;
        assert s2 == "=" + s2[1..];
      }
    }
  }

  lemma NoLws()
    ensures IsLws("")
  {
  }

  /** Whitespace after a value belongs to the attribute. */
  lemma WithAfter(a: AttributeText, w: string, rest: string)
    requires IsAttribute(a) && a.after == "" && IsLws(w) && (a.value.NoValue? ==> w == "")
    ensures IsAttribute(a.(after := w)) && PrintAttribute(a, w + rest) == PrintAttribute(a.(after := w), rest)
  {
    hide IsLws, Closed;
    if a.value.NoValue? {
      assert w + rest == rest;
    } else {
      assert a.after + (w + rest) == w + rest;
    }
  }

  /** Whitespace before an attribute belongs to it as well. */
  lemma WithBefore(a: AttributeText, w: string, rest: string)
    requires IsAttribute(a) && IsLws(w)
    ensures IsAttribute(a.(before := w + a.before))
    ensures w + PrintAttribute(a, rest) == PrintAttribute(a.(before := w + a.before), rest)
  {
    hide IsLws, IsToken, PrintValue, EndsInBackslash;
    LwsAppend(w, a.before);
    SameValue(a, w + a.before, rest);
    InFront(w, a.before, a.name + (a.between + PrintValue(a, rest)));
  }

  lemma InFront(v: string, w: string, t: string)
    ensures v + (w + t) == v + w + t
  {
  }

  lemma SameValue(a: AttributeText, before: string, rest: string)
    ensures PrintValue(a.(before := before), rest) == PrintValue(a, rest)
  {
    hide Closed;
  }

  /** What is read after the first attribute is whitespace, the text of more attributes, and what is left. */
  lemma {:induction false} MoreAttributesArePrinted(s: string, list: AttributeList)
    returns (w: string, attributes: seq<AttributeText>)
    ensures Attributes(s, false, list).Done? ==>
      var p := Attributes(s, false, list);
      && IsLws(w) && AreAttributes(attributes)
      && s == w + PrintAttributes(attributes, p.rest) && p.result == Meaning(attributes, list)
      && (!GoesOnWithLws(s) ==> w == "")
      && !GoesOnWithLws(p.rest)
    decreases |s|
  {
    hide SkipAllLws, TakeAttribute, IsAttribute, IsLws, GoesOnWithLws, PrintAttribute;
    w := LwsSkipped(s);
    attributes := [];
    var s1 := SkipAllLws(s);
    if !GoesOnWithLws(s) {
      NothingToSkip(s);
    }
    if s1 == "" {
      assert w + "" == w && !GoesOnWithLws("") by { EmptyEnds(); }
    } else if s1[0] == ';' && TakeAttribute(s1[1..]).Attribute? {
      var t := TakeAttribute(s1[1..]);
      var a := AttributeIsPrinted(s1[1..]);
      var list1 := list[t.name := t.value];
      var v, more := MoreAttributesArePrinted(t.rest, list1);
      if Attributes(t.rest, false, list1).Done? {
        var rest := Attributes(t.rest, false, list1).rest;
        var tail := PrintAttributes(more, rest);
        WithAfter(a, v, tail);
        attributes := [a.(after := v)] + more;
        assert attributes[1..] == more && s1 == ";" + s1[1..];
        OneMoreMeaning(attributes, list);
      }
    }
  }

  lemma EmptyEnds()
    ensures !GoesOnWithLws("")
  {
  }

  lemma OneMoreMeaning(attributes: seq<AttributeText>, list: AttributeList)
    requires attributes != []
    ensures Meaning(attributes, list) ==
      Meaning(attributes[1..], list[attributes[0].name := ValueText(attributes[0].value)])
  {
  }

  /**
   * When a list of attributes is read successfully, the text up to what is left
   * is the text of a list that means what was read, or whitespace and no list.
   */
  lemma AttributesArePrinted(s: string, list: AttributeList) returns (attributes: seq<AttributeText>)
    ensures Attributes(s, true, list).Done? ==>
      var p := Attributes(s, true, list);
      && AreAttributes(attributes) && p.result == Meaning(attributes, list) && !GoesOnWithLws(p.rest)
      && if attributes == [] then IsLws(s) && p.rest == "" else ";" + s == PrintAttributes(attributes, p.rest)
  {
    hide SkipAllLws, TakeAttribute, IsAttribute, IsLws, GoesOnWithLws, PrintAttribute;
    attributes := [];
    var w := LwsSkipped(s);
    var s1 := SkipAllLws(s);
    EmptyEnds();
    if s1 == "" {
      assert w + "" == w;
    } else if TakeAttribute(s1).Attribute? {
      var t := TakeAttribute(s1);
      var a := AttributeIsPrinted(s1);
      var list1 := list[t.name := t.value];
      var v, more := MoreAttributesArePrinted(t.rest, list1);
      if Attributes(t.rest, false, list1).Done? {
        var tail := PrintAttributes(more, Attributes(t.rest, false, list1).rest);
        WithAfter(a, v, tail);
        WithBefore(a.(after := v), w, tail);
        attributes := [a.(after := v, before := w + a.before)] + more;
        assert attributes[1..] == more;
        OneMoreMeaning(attributes, list);
      }
    }
  }

  // ----- Parameters -----

  /**
   * What may stand behind the last parameter: what is left, or, at the end of
   * the text, a comma or a semicolon with whitespace after it.
   */
  predicate IsTail(tail: string, rest: string) {
    || tail == rest
    || (rest == "" && |tail| > 1 && (tail[0] == ',' || tail[0] == ';') && IsLws(tail[1..]))
  }

  /** The attributes of a parameter, with what is behind them if they end in a bare semicolon. */
  lemma TakenAttributesArePrinted(s: string) returns (attributes: seq<AttributeText>, tail: string)
    requires s != "" && !GoesOnWithLws(s)
    ensures TakeAttributes(s).Done? ==>
      var p := TakeAttributes(s);
      && AreAttributes(attributes) && p.result == Meaning(attributes, map[])
      && s == PrintAttributes(attributes, tail) && IsTail(tail, p.rest) && !GoesOnWithLws(p.rest)
      && (tail != p.rest ==> p.rest == "")
  {
    hide Attributes, IsLws, GoesOnWithLws;
    attributes, tail := [], s;
    if s[0] == ';' && s[1..] != "" {
      attributes := AttributesArePrinted(s[1..], map[]);
      assert s == ";" + s[1..];
      if attributes != [] && Attributes(s[1..], true, map[]).Done? {
        tail := Attributes(s[1..], true, map[]).rest;
      }
    }
  }

  predicate Printed(s: string, ps: seq<ParameterText>, tail: string) {
    if ps == [] then IsLws(s) && tail == "" else s == PrintParameters(ps, tail)
  }

  /**
   * When a parameter list is read successfully, the text up to what is left is
   * the text of a list that means what was read; only at the end of the text
   * may a comma or a semicolon stand before whitespace.
   */
  lemma {:induction false} ParametersArePrinted(s: string, list: seq<Parameter>)
    returns (ps: seq<ParameterText>, tail: string)
    ensures Parameters(s, list).Done? ==>
      var p := Parameters(s, list);
      && AreParameters(ps) && p.result == list + ParameterMeanings(ps)
      && Printed(s, ps, tail) && IsTail(tail, p.rest)
    decreases |s|
  {
    hide SkipAllLws, TokenLength, TakeAttributes, NextParameter, IsLws, IsTokenChar, GoesOnWithLws, PrintAttributes,
      AreAttributes, Meaning;
    ps, tail := [], "";
    var w1 := LwsSkipped(s);
    var s1 := SkipAllLws(s);
    TokenTaken(s1);
    var n := TokenLength(s1);
    var w2 := LwsSkipped(s1[n..]);
    var s2 := SkipAllLws(s1[n..]);
    if s1 == "" {
      assert w1 + "" == w1 && list + [] == list;
    } else if n > 0 && s2 == "" {
      ps := [ParameterText(w1, s1[..n], w2, [])];
      PrintsNone("");
      assert w2 + "" == w2;
    } else if n > 0 && TakeAttributes(s2).Done? {
      var attributes, t := TakenAttributesArePrinted(s2);
      var a := TakeAttributes(s2);
      NothingToSkip(a.rest);
      var p := ParameterText(w1, s1[..n], w2, attributes);
      var more, u := NextIsPrinted(a.rest, t, list + [Parameter(p.name, a.result)]);
      ps, tail := [p] + more, u;
      assert s == PrintParameter(p, t);
      assert ps[1..] == more;
      assert list + [Parameter(p.name, a.result)] + ParameterMeanings(more) == list + ParameterMeanings(ps);
    }
  }

  lemma PrintsNone(rest: string)
    ensures PrintAttributes([], rest) == rest && Meaning([], map[]) == map[] && AreAttributes([])
  {
  }

  /** After a parameter: the end, or a comma and more parameters. */
  lemma {:induction false} NextIsPrinted(s: string, t: string, list: seq<Parameter>)
    returns (more: seq<ParameterText>, tail: string)
    requires IsTail(t, s) && (t != s ==> s == "")
    ensures NextParameter(s, list).Done? ==>
      var p := NextParameter(s, list);
      && AreParameters(more) && p.result == list + ParameterMeanings(more)
      && t == (if more == [] then tail else "," + PrintParameters(more, tail)) && IsTail(tail, p.rest)
    decreases |s|
  {
    hide Parameters, IsLws, PrintAttributes;
    more, tail := [], t;
    assert list + [] == list;
    if s != "" && s[0] == ',' && s[1..] != "" {
      assert s == "," + s[1..];
      more, tail := ParametersArePrinted(s[1..], list);
      if more == [] {
        tail := s;
      }
    }
  }

  // ----- Syntax errors -----

  /** Text where a token should begin and none does; whitespace alone may not come before the end. */
  predicate NoTokenIn(w: string, r: string) {
    IsLws(w) && !StartsToken(r) && !StartsLws(r) && (r == "" ==> w == "")
  }

  lemma NoAttributeTaken(w: string, r: string)
    requires NoTokenIn(w, r)
    ensures TakeAttribute(w + r) == Malformed && SkipAllLws(w + r) == r
  {
    hide SkipAllLws, IsLws;
    LwsThen(w, r);
  }

  lemma {:induction false} AttributesUpTo(s: string, attributes: seq<AttributeText>, rest: string, list: AttributeList)
    requires AreAttributes(attributes) && Separated(rest)
    requires SkipAllLws(s) == PrintAttributes(attributes, rest)
    ensures Attributes(s, false, list) == Attributes(rest, false, Meaning(attributes, list))
    decreases |attributes|
  {
    hide SkipAllLws, IsAttribute, IsTokenChar, PrintAttribute, TakeAttribute, Separated, PrintAttributes;
    PrintedStep(attributes, rest);
    if attributes == [] {
      StopsSkipping(rest);
    } else {
      var tail := PrintAttributes(attributes[1..], rest);
      PrintedSeparated(attributes[1..], rest);
      AttributeReadsBack(attributes[0], tail);
      var t := TakeAttribute(PrintAttribute(attributes[0], tail));
      AttributesUpTo(t.rest, attributes[1..], rest, list[t.name := t.value]);
    }
  }

  lemma StopsSkipping(rest: string)
    requires Separated(rest)
    ensures SkipAllLws(rest) == rest
  {
    hide SkipAllLws, IsTokenChar;
    NoLwsIsSkipped(rest);
  }

  lemma PrintedSeparated(attributes: seq<AttributeText>, rest: string)
    requires Separated(rest)
    ensures Separated(PrintAttributes(attributes, rest))
  {
    hide IsTokenChar;
    EqualsIsNotAToken();
  }

  /** After a semicolon there has to be an attribute; the ones before the error are kept. */
  lemma AttributeErrorKeeps(attributes: seq<AttributeText>, w: string, r: string, list: AttributeList)
    requires attributes != [] && AreAttributes(attributes) && NoTokenIn(w, r)
    ensures Attributes(PrintAttributes(attributes, ";" + (w + r))[1..], true, list) == Failed(Meaning(attributes, list))
  {
    hide SkipAllLws, IsAttribute, IsTokenChar, PrintAttribute, TakeAttribute, Separated, PrintAttributes, NoTokenIn;
    var bad := ";" + (w + r);
    assert bad[1..] == w + r;
    SemicolonSeparates(w + r);
    NoAttributeTaken(w, r);
    var tail := PrintAttributes(attributes[1..], bad);
    PrintedStep(attributes, bad);
    PrintedSeparated(attributes[1..], bad);
    FirstAndRest(attributes);
    AttributeReadsBack(attributes[0], tail);
    SkipsToAttribute(attributes[0], tail, list);
    var t := TakeAttribute(PrintAttribute(attributes[0], tail));
    AttributesUpTo(t.rest, attributes[1..], bad, list[t.name := t.value]);
    StopsSkipping(bad);
  }

  lemma SemicolonSeparates(s: string)
    ensures Separated(";" + s)
  {
    EqualsIsNotAToken();
  }

  /** After a comma there has to be a parameter; the ones before the error are kept. */
  lemma ParameterErrorKeeps(ps: seq<ParameterText>, w: string, r: string, list: seq<Parameter>)
    requires ps != [] && AreParameters(ps) && NoTokenIn(w, r)
    ensures Parameters(PrintParameters(ps, "," + (w + r)), list) == Failed(list + ParameterMeanings(ps))
  {
    hide SkipAllLws, PrintParameters, AreParameters, IsLws, EndsAttributes, TakeAttribute;
    CommaSeparates(w + r);
    ParametersUpTo(ps, "," + (w + r), list);
    assert ("," + (w + r))[1..] == w + r;
    NoAttributeTaken(w, r);
    NoToken(r);
  }

  lemma NoToken(r: string)
    requires !StartsToken(r)
    ensures TokenLength(r) == 0
  {
  }

  /** An error in the attributes of a parameter loses that parameter, and none before it. */
  lemma AttributeErrorLoses(p: ParameterText, w: string, r: string, list: seq<Parameter>)
    requires IsParameter(p) && NoTokenIn(w, r)
    ensures Parameters(PrintParameter(p, ";" + (w + r)), list) == Failed(list)
  {
    hide SkipAllLws, IsTokenChar, IsLws, TokenLength, PrintAttributes, Attributes, AreAttributes, Meaning,
      StartsToken, StartsLws, NoTokenIn;
    var bad := ";" + (w + r);
    var v := PrintAttributes(p.attributes, bad);
    SemicolonSeparates(w + r);
    PrintedSeparated(p.attributes, bad);
    SeparatedStarts(v);
    LwsKeepsTokensApart(p.after, v);
    TokenThen(p.name, p.after + v);
    TokenStart(p.name);
    assert (p.name + (p.after + v))[0] == p.name[0];
    LwsThen(p.before, p.name + (p.after + v));
    LwsThen(p.after, v);
    AttributesFail(p.attributes, w, r);
  }

  lemma TokenStart(name: string)
    requires IsToken(name)
    ensures forall t: string :: t != "" && t[0] == name[0] ==> !StartsLws(t)
  {
    hide IsTokenChar;
    NotAToken(name[0]);
  }

  lemma AttributesFail(attributes: seq<AttributeText>, w: string, r: string)
    requires AreAttributes(attributes) && NoTokenIn(w, r)
    ensures var v := PrintAttributes(attributes, ";" + (w + r)); v != "" && TakeAttributes(v).Failed?
  {
    hide SkipAllLws, IsAttribute, IsTokenChar, PrintAttribute, TakeAttribute, IsLws;
    var bad := ";" + (w + r);
    assert bad[1..] == w + r;
    NoLws();
    NoAttributeTaken(w, r);
    NoAttributeTaken("", r);
    assert "" + r == r;
    if attributes != [] {
      AttributeErrorKeeps(attributes, w, r, map[]);
      PrintedStep(attributes, bad);
    }
  }
}
