/** The license policy on text (scripts/ci/check_npm_license_policy.py:19-60): splitting an
    expression into tokens, and the whole check. */
module LicenseText {
  import opened LicenseGrammar
  import opened Seqs
  import opened Shared
  import opened Whitespace

  /** The characters of license names. */
  predicate IsNameChar(c: char) {
    'A' <= c <= 'Z' || 'a' <= c <= 'z' || '0' <= c <= '9' || c in ".+-"
  }

  lemma NameCharacters(c: char)
    ensures IsNameChar(c) <==>
      c in "ABCDEFGHIJKLMNOPQRSTUVWXYZ" || c in "abcdefghijklmnopqrstuvwxyz" || c in "0123456789" || c in ".+-"
  {
  }

  function NameLength(s: string): (n: nat)
    ensures n <= |s| && (forall i :: 0 <= i < n ==> IsNameChar(s[i])) && (n < |s| ==> !IsNameChar(s[n]))
  {
    if |s| > 0 && IsNameChar(s[0]) then 1 + NameLength(s[1..]) else 0
  }

  /** The operator stands at the start of s and is not the beginning of a longer word. */
  predicate Operator(s: string, word: string) {
    |word| <= |s| && s[..|word|] == word && (|word| < |s| && IsNameChar(s[|word|]) ==> s[|word|] in ".+-")
  }

  datatype Scan = NoToken | Found(token: Token, rest: string)

  function ScanToken(s: string): (r: Scan)
    ensures r.Found? ==> |r.rest| < |s|
  {
    if |s| == 0 then NoToken
    else if s[0] == '(' then Found(LParen, s[1..])
    else if s[0] == ')' then Found(RParen, s[1..])
    else if Operator(s, "AND") then Found(And, s[3..])
    else if Operator(s, "OR") then Found(Or, s[2..])
    else
      var n := NameLength(s);
      if n == 0 then NoToken else Found(Id(s[..n]), s[n..])
  }

  /** One match of the token pattern, which takes leading spaces along. */
  function NextToken(s: string): (r: Scan)
    ensures r.Found? ==> |r.rest| < |s|
  {
    LeftStripShortens(s);
    ScanToken(LeftStrip(s))
  }

  lemma {:induction false} LeftStripShortens(s: string)
    ensures |LeftStrip(s)| <= |s|
  {
    if |s| > 0 && IsSpace(s[0]) {
      LeftStripShortens(s[1..]);
    }
  }

  function Lex(s: string): Option<seq<Token>>
    decreases |s|
  {
    if |s| == 0 then Some([])
    else
      var t := NextToken(s);
      if t.NoToken? then None
      else
        var rest := Lex(t.rest);
        if rest.None? then None else Some([t.token] + rest.value)
  }

  method Tokenize(s: string) returns (tokens: Option<seq<Token>>)
    ensures tokens == Lex(s)
  {
    var found: seq<Token>, rest := [], s;
    PrependNothing(Lex(s));
    while |rest| > 0
      invariant Lex(s) == Prepend(found, Lex(rest))
      decreases |rest|
    {
      var t := NextToken(rest);
      if t.NoToken? {
        return None;
      }
      PrependMore(found, t.token, Lex(t.rest));
      found := found + [t.token];
      rest := t.rest;
    }
    EmptyRight(found);
    return Some(found);
  }

  function Prepend(tokens: seq<Token>, rest: Option<seq<Token>>): Option<seq<Token>> {
    if rest.None? then None else Some(tokens + rest.value)
  }

  lemma PrependNothing(rest: Option<seq<Token>>)
    ensures Prepend([], rest) == rest
  {
    if rest.Some? {
      EmptyLeft(rest.value);
    }
  }

  lemma PrependMore(found: seq<Token>, t: Token, rest: Option<seq<Token>>)
    ensures Prepend(found, Prepend([t], rest)) == Prepend(found + [t], rest)
  {
    if rest.Some? {
      Assoc(found, [t], rest.value);
    }
  }

  // ------------------------------------------------------------- the whole check

  /** One package with a generic label is known to be BSD-2-Clause; one old spelling is an
      alias. */
  function Normal(expression: string, package: string, version: string): string {
    var s := Strip(expression);
    if package == "duck" && version == "0.1.12" && s == "BSD" then "BSD-2-Clause"
    else if s == "MIT/X11" then "MIT"
    else s
  }

  /** The text spells some expression that evaluates to allowed. */
  ghost predicate TextAllowed(expression: string, package: string, version: string) {
    var tokens := Lex(Normal(expression, package, version));
    expression != "" && tokens.Some? && SpellsAllowed(tokens.value)
  }

  /** A missing license, or an empty one, is None or "". */
  method LicenseExpressionAllowed(expression: Option<string>, package: string, version: string) returns (allowed: bool)
    ensures allowed <==> expression.Some? && TextAllowed(expression.value, package, version)
  {
    if expression.None? || expression.value == "" {
      return false;
    }
    var tokens := Tokenize(Normal(expression.value, package, version));
    if tokens.None? {
      return false;
    }
    AcceptsExactlyAllowed(tokens.value);
    var parser := new Parser(tokens.value);
    allowed := parser.Allowed();
  }

  // -------------------------------------------------------------- printed tokens

  function Spell(t: Token): string {
    match t
    case LParen => "("
    case RParen => ")"
    case And => "AND"
    case Or => "OR"
    case Id(name) => name
  }

  /** The tokens, with one space between two. */
  function Print(ts: seq<Token>): string {
    if |ts| == 0 then ""
    else if |ts| == 1 then Spell(ts[0])
    else Spell(ts[0]) + " " + Print(ts[1..])
  }

  /** A name that is read as one: no operator is split off its front. */
  predicate Plain(name: string) {
    |name| > 0 && (forall c <- name :: IsNameChar(c)) && !Operator(name, "AND") && !Operator(name, "OR")
  }

  predicate PlainToken(t: Token) {
    t.Id? ==> Plain(t.name)
  }

  /** Whatever follows a spelled token, if it begins with a space, is left over. */
  lemma ScanSpelled(t: Token, after: string)
    requires PlainToken(t) && (|after| > 0 ==> after[0] == ' ')
    ensures ScanToken(Spell(t) + after) == Found(t, after)
  {
    var s := Spell(t) + after;
    match t
    case Id(name) => ScanName(name, after);
    case And => assert s[..3] == "AND" && s[3..] == after;
    case Or => assert s[..2] == "OR" && s[2..] == after && s[0] == 'O';
    case _ => assert s[1..] == after;
  }

  lemma ScanName(name: string, after: string)
    requires Plain(name) && (|after| > 0 ==> after[0] == ' ')
    ensures ScanToken(name + after) == Found(Id(name), after)
  {
    var s := name + after;
    assert forall i :: 0 <= i < |name| ==> s[i] == name[i] && name[i] in name;
    NameEnds(s, |name|);
    OperatorInName(name, after, "AND");
    OperatorInName(name, after, "OR");
    assert s[..|name|] == name && s[|name|..] == after;
    assert IsNameChar(s[0]);
  }

  lemma {:induction false} NameEnds(s: string, n: nat)
    requires n <= |s| && (forall i :: 0 <= i < n ==> IsNameChar(s[i])) && (n < |s| ==> !IsNameChar(s[n]))
    ensures NameLength(s) == n
  {
    if n > 0 {
      NameEnds(s[1..], n - 1);
    }
  }

  lemma OperatorInName(name: string, after: string, word: string)
    requires forall c <- name :: IsNameChar(c)
    requires (|after| > 0 ==> after[0] == ' ') && ' ' !in word
    ensures Operator(name + after, word) ==> Operator(name, word)
  {
    var s := name + after;
    if |word| <= |name| {
      TakeOfConcat(name, after, |word|);
      assert |word| < |name| ==> s[|word|] == name[|word|];
    } else if |word| <= |s| {
      assert s[..|word|][|name|] == after[0];
      assert ' ' in s[..|word|];
    }
  }

  /** What the scanner takes for a name is plain. */
  lemma ScanFindsPlain(s: string)
    requires ScanToken(s).Found?
    ensures PlainToken(ScanToken(s).token)
  {
    var t := ScanToken(s).token;
    if t.Id? {
      var n := NameLength(s);
      assert forall c <- t.name :: IsNameChar(c);
      NameOperator(s, n, "AND");
      NameOperator(s, n, "OR");
    }
  }

  lemma NameOperator(s: string, n: nat, word: string)
    requires n == NameLength(s) && !Operator(s, word)
    ensures !Operator(s[..n], word)
  {
    if |word| <= n {
      assert s[..n][..|word|] == s[..|word|];
    }
  }

  lemma {:induction false} LexFindsPlain(s: string)
    requires Lex(s).Some?
    ensures forall t <- Lex(s).value :: PlainToken(t)
    decreases |s|
  {
    if |s| > 0 {
      LexFindsPlain(NextToken(s).rest);
      LeftStripShortens(s);
      ScanFindsPlain(LeftStrip(s));
    }
  }

  lemma SpellShape(t: Token)
    requires PlainToken(t)
    ensures |Spell(t)| > 0 && !IsSpace(Spell(t)[0]) && !IsSpace(Spell(t)[|Spell(t)| - 1])
  {
    if t.Id? {
      assert t.name[0] in t.name && t.name[|t.name| - 1] in t.name;
    }
  }

  /** A spelled token is the first one read, with or without a space before it. */
  lemma NextSpelled(t: Token, after: string)
    requires PlainToken(t) && (|after| > 0 ==> after[0] == ' ')
    ensures NextToken(Spell(t) + after) == Found(t, after)
    ensures NextToken(" " + (Spell(t) + after)) == Found(t, after)
  {
    var s := Spell(t) + after;
    SpellShape(t);
    ScanSpelled(t, after);
    assert s[0] == Spell(t)[0];
    assert LeftStrip(s) == s;
    assert (" " + s)[1..] == s;
  }

  /** The rest of a printed list, behind its first token. */
  function Behind(ts: seq<Token>): string
    requires |ts| > 0
  {
    if |ts| == 1 then "" else " " + Print(ts[1..])
  }

  lemma PrintFirst(ts: seq<Token>)
    requires |ts| > 0
    ensures Print(ts) == Spell(ts[0]) + Behind(ts)
  {
    if |ts| == 1 {
      EmptyRight(Spell(ts[0]));
    } else {
      Assoc(Spell(ts[0]), " ", Print(ts[1..]));
    }
  }

  lemma {:induction false} PrintedRead(ts: seq<Token>)
    requires |ts| > 0 && forall t <- ts :: PlainToken(t)
    ensures Lex(Print(ts)) == Some(ts) && Lex(" " + Print(ts)) == Some(ts)
    decreases |ts|
  {
    PrintFirst(ts);
    SpellShape(ts[0]);
    NextSpelled(ts[0], Behind(ts));
    if |ts| > 1 {
      PrintedRead(ts[1..]);
    }
    assert Lex(Behind(ts)) == Some(ts[1..]);
    assert [ts[0]] + ts[1..] == ts;
  }

  /** Printed tokens read back as they were exactly when no name begins with an operator
      that stands for itself, such as "AND-1". */
  lemma {:induction false} PrintRoundTrip(ts: seq<Token>)
    ensures Lex(Print(ts)) == Some(ts) <==> forall t <- ts :: PlainToken(t)
  {
    if Lex(Print(ts)) == Some(ts) {
      LexFindsPlain(Print(ts));
    }
    if |ts| > 0 && forall t <- ts :: PlainToken(t) {
      PrintedRead(ts);
    }
  }

  lemma SpellShapes(ts: seq<Token>, i: nat)
    requires i < |ts| && forall t <- ts :: PlainToken(t)
    ensures |Spell(ts[i])| > 0 && !IsSpace(Spell(ts[i])[0]) && !IsSpace(Spell(ts[i])[|Spell(ts[i])| - 1])
    ensures '/' !in Spell(ts[i])
  {
    assert ts[i] in ts;
    SpellShape(ts[i]);
  }

  lemma {:induction false} PrintTrimmed(ts: seq<Token>)
    requires |ts| > 0 && forall t <- ts :: PlainToken(t)
    ensures |Print(ts)| > 0 && Trimmed(Print(ts)) && '/' !in Print(ts)
    decreases |ts|
  {
    PrintFirst(ts);
    SpellShapes(ts, 0);
    if |ts| > 1 {
      PrintTrimmed(ts[1..]);
      var p := Print(ts[1..]);
      assert Behind(ts) == " " + p;
      assert Print(ts)[|Print(ts)| - 1] == p[|p| - 1];
    }
  }

  /** The one package with a generic label. */
  predicate Exempt(text: string, package: string, version: string) {
    package == "duck" && version == "0.1.12" && text == "BSD"
  }

  /** A printed expression of plain names is allowed exactly when it evaluates to allowed, or
      is the generic label of the exempt package. */
  lemma PrintedExpressionAllowed(e: Expr, package: string, version: string)
    requires forall t <- Tokens(e, Whole) :: PlainToken(t)
    ensures var text := Print(Tokens(e, Whole));
      TextAllowed(text, package, version) <==> Eval(e) || Exempt(text, package, version)
  {
    var ts := Tokens(e, Whole);
    var text := Print(ts);
    PrintTrimmed(ts);
    StripKeeps(text);
    assert '/' in "MIT/X11";
    if Exempt(text, package, version) {
      var name := "BSD-2-Clause";
      assert name[..3][0] == 'B' && name[..2][0] == 'B' && name[3] == '-' && name[5] == '-';
      assert forall c <- name :: IsNameChar(c);
      PlainNameAllowed(name);
    } else {
      assert Normal(text, package, version) == text;
      PrintedRead(ts);
      SpelledByOneValue(e);
    }
  }

  lemma SpelledByOneValue(e: Expr)
    ensures SpellsAllowed(Tokens(e, Whole)) <==> Eval(e)
  {
    ParserEvaluates(e);
    AcceptsExactlyAllowed(Tokens(e, Whole));
  }

  lemma PlainNameAllowed(name: string)
    requires PlainToken(Id(name))
    ensures Lex(name).Some? && (SpellsAllowed(Lex(name).value) <==> Eval(Leaf(name)))
  {
    PrintedRead([Id(name)]);
    SpelledByOneValue(Leaf(name));
  }

  /** "AND-1" is read as an operator and a name. */
  lemma OperatorSplitOff()
    ensures Lex("AND-1") == Some([And, Id("-1")]) && !Plain("AND-1")
  {
    var s := "AND-1";
    assert s[..3] == "AND" && s[3..] == "-1" && LeftStrip(s) == s;
    assert Operator(s, "AND") && ScanToken(s) == Found(And, "-1");
    assert Plain("-1") by {
      assert "-1"[0] == '-' && forall c <- "-1" :: IsNameChar(c);
    }
    PrintedRead([Id("-1")]);
    assert [And] + [Id("-1")] == [And, Id("-1")];
  }
}
