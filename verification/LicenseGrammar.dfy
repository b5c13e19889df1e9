/** SPDX license expressions and their recursive-descent parser
    (scripts/ci/check_npm_license_policy.py:61-101), on tokens. AND binds tighter than OR, as
    in section D.4.5 of SPDX Specification 2.3 Annex D. */
module LicenseGrammar {
  import opened Seqs

  datatype Token = LParen | RParen | And | Or | Id(name: string)

  const ALLOWED_LICENSES: set<string> := {
    "0BSD", "Apache-2.0", "BSD-2-Clause", "BSD-3-Clause", "BlueOak-1.0.0", "ISC",
    "MIT-0", "MIT", "MPL-2.0", "Python-2.0", "Zlib"
  }

  predicate IsAllowed(name: string) {
    name in ALLOWED_LICENSES
  }

  // ------------------------------------------------------------------ trees

  datatype Expr = Leaf(name: string) | Paren(inner: Expr) | Both(left: Expr, right: Expr) | Either(left: Expr, right: Expr)

  predicate Eval(e: Expr) {
    match e
    case Leaf(name) => IsAllowed(name)
    case Paren(x) => Eval(x)
    case Both(l, r) => Eval(l) && Eval(r)
    case Either(l, r) => Eval(l) || Eval(r)
  }

  /** Where an expression stands: as a whole, as an operand of AND, or as a primary. */
  datatype Level = Whole | Operand | Primary

  predicate NeedsParens(e: Expr, level: Level) {
    (e.Either? && level != Whole) || (e.Both? && level == Primary)
  }

  /** Orders the levels at which one expression is printed or parsed by way of another. */
  function Rank(e: Expr, level: Level): nat {
    if e.Either? then (if level.Whole? then 0 else if level.Primary? then 1 else 2)
    else if e.Both? then (if level.Operand? then 0 else if level.Whole? then 1 else 2)
    else (if level.Primary? then 0 else if level.Operand? then 1 else 2)
  }

  /** The tokens of an expression, with the parentheses its place calls for. */
  function Tokens(e: Expr, level: Level): (ts: seq<Token>)
    ensures |ts| > 0
    decreases e, Rank(e, level)
  {
    if NeedsParens(e, level) then [LParen] + Tokens(e, Whole) + [RParen]
    else match e
      case Leaf(name) => [Id(name)]
      case Paren(x) => [LParen] + Tokens(x, Whole) + [RParen]
      case Both(l, r) => Tokens(l, Operand) + [And] + Tokens(r, Operand)
      case Either(l, r) => Tokens(l, Whole) + [Or] + Tokens(r, Whole)
  }

  // --------------------------------------------------------------- the parser

  datatype Parsed = Error | Ok(value: bool, next: nat)

  predicate Within(ts: seq<Token>, i: nat, p: Parsed) {
    p.Ok? ==> i < p.next <= |ts|
  }

  function ParsePrimary(ts: seq<Token>, i: nat): (p: Parsed)
    ensures Within(ts, i, p)
    decreases |ts| - i, 0
  {
    if i >= |ts| then Error
    else match ts[i]
      case LParen =>
        var p := ParseOr(ts, i + 1);
        if p.Ok? && p.next < |ts| && ts[p.next] == RParen then Ok(p.value, p.next + 1) else Error
      case Id(name) => Ok(IsAllowed(name), i + 1)
      case _ => Error
  }

  function ParseAnd(ts: seq<Token>, i: nat): (p: Parsed)
    ensures Within(ts, i, p)
    decreases |ts| - i, 1
  {
    var p := ParsePrimary(ts, i);
    if p.Error? then Error else AndTail(ts, p.next, p.value)
  }

  function AndTail(ts: seq<Token>, i: nat, value: bool): (p: Parsed)
    requires i <= |ts|
    ensures p.Ok? ==> i <= p.next <= |ts|
    decreases |ts| - i, 1
  {
    if i == |ts| || ts[i] != And then Ok(value, i)
    else
      var p := ParsePrimary(ts, i + 1);
      if p.Error? then Error else AndTail(ts, p.next, p.value && value)
  }

  function ParseOr(ts: seq<Token>, i: nat): (p: Parsed)
    ensures Within(ts, i, p)
    decreases |ts| - i, 2
  {
    var p := ParseAnd(ts, i);
    if p.Error? then Error else OrTail(ts, p.next, p.value)
  }

  function OrTail(ts: seq<Token>, i: nat, value: bool): (p: Parsed)
    requires i <= |ts|
    ensures p.Ok? ==> i <= p.next <= |ts|
    decreases |ts| - i, 2
  {
    if i == |ts| || ts[i] != Or then Ok(value, i)
    else
      var p := ParseAnd(ts, i + 1);
      if p.Error? then Error else OrTail(ts, p.next, value || p.value)
  }

  predicate Accepts(ts: seq<Token>) {
    ParseOr(ts, 0) == Ok(true, |ts|)
  }

  /** The parser of the source: nested procedures that advance one shared index. A raised
      ValueError is a false ok. */
  class Parser {
    const ts: seq<Token>
    var index: nat

    constructor (ts: seq<Token>)
      ensures this.ts == ts && index == 0
    {
      this.ts, index := ts, 0;
    }

    method Primary() returns (ok: bool, value: bool)
      modifies this
      ensures var p := ParsePrimary(ts, old(index)); if ok then p == Ok(value, index) else p == Error
      decreases |ts| - index, 0
    {
      if index >= |ts| {
        return false, false;
      }
      var token := ts[index];
      if token == LParen {
        index := index + 1;
        ok, value := Disjunction();
        if !ok || index >= |ts| || ts[index] != RParen {
          return false, false;
        }
        index := index + 1;
        return true, value;
      }
      if token in {RParen, And, Or} {
        return false, false;
      }
      index := index + 1;
      return true, IsAllowed(token.name);
    }

    method Conjunction() returns (ok: bool, value: bool)
      modifies this
      ensures var p := ParseAnd(ts, old(index)); if ok then p == Ok(value, index) else p == Error
      decreases |ts| - index, 1
    {
      ok, value := Primary();
      while ok && index < |ts| && ts[index] == And
        invariant ok ==> old(index) < index <= |ts| && ParseAnd(ts, old(index)) == AndTail(ts, index, value)
        invariant !ok ==> ParseAnd(ts, old(index)) == Error
        decreases ok, |ts| - index
      {
        index := index + 1;
        var next: bool;
        ok, next := Primary();
        value := next && value;
      }
    }

    method Disjunction() returns (ok: bool, value: bool)
      modifies this
      ensures var p := ParseOr(ts, old(index)); if ok then p == Ok(value, index) else p == Error
      decreases |ts| - index, 2
    {
      ok, value := Conjunction();
      while ok && index < |ts| && ts[index] == Or
        invariant ok ==> old(index) < index <= |ts| && ParseOr(ts, old(index)) == OrTail(ts, index, value)
        invariant !ok ==> ParseOr(ts, old(index)) == Error
        decreases ok, |ts| - index
      {
        index := index + 1;
        var alternative: bool;
        ok, alternative := Conjunction();
        value := value || alternative;
      }
    }

    method Allowed() returns (allowed: bool)
      requires index == 0
      modifies this
      ensures allowed == Accepts(ts)
    {
      var ok, value := Disjunction();
      allowed := ok && index == |ts| && value;
    }
  }

  // ------------------------------------------------ printed trees are parsed

  /** The place j of a token t between xs and ys. */
  lemma AtThree(ts: seq<Token>, i: nat, k: nat, xs: seq<Token>, t: Token, ys: seq<Token>) returns (j: nat)
    requires At(ts, i, k, xs + [t] + ys)
    ensures j == i + |xs| && At(ts, i, j, xs) && j < |ts| && ts[j] == t && At(ts, j + 1, k, ys)
  {
    j := i + |xs|;
    AtConcat(ts, i, k, xs + [t], ys);
    AtConcat(ts, i, j + 1, xs, [t]);
    assert ts[j..j + 1][0] == t;
  }

  lemma AtBoth(e: Expr, ts: seq<Token>, i: nat, k: nat) returns (j: nat)
    requires e.Both? && At(ts, i, k, Tokens(e, Operand))
    ensures i < j < k && At(ts, i, j, Tokens(e.left, Operand)) && ts[j] == And && At(ts, j + 1, k, Tokens(e.right, Operand))
  {
    j := AtThree(ts, i, k, Tokens(e.left, Operand), And, Tokens(e.right, Operand));
  }

  lemma AtEither(e: Expr, ts: seq<Token>, i: nat, k: nat) returns (j: nat)
    requires e.Either? && At(ts, i, k, Tokens(e, Whole))
    ensures i < j < k && At(ts, i, j, Tokens(e.left, Whole)) && ts[j] == Or && At(ts, j + 1, k, Tokens(e.right, Whole))
  {
    j := AtThree(ts, i, k, Tokens(e.left, Whole), Or, Tokens(e.right, Whole));
  }

  lemma AtParens(ts: seq<Token>, i: nat, k: nat, inner: seq<Token>)
    requires At(ts, i, k, [LParen] + inner + [RParen])
    ensures i + 1 < k <= |ts| && ts[i] == LParen && At(ts, i + 1, k - 1, inner) && ts[k - 1] == RParen
  {
    AtConcat(ts, i, k, [LParen] + inner, [RParen]);
    AtConcat(ts, i, k - 1, [LParen], inner);
    assert ts[i..i + 1][0] == LParen && ts[k - 1..k][0] == RParen;
  }

  /** Outside its own level an expression prints as at the next tighter one. */
  lemma TighterTokens(e: Expr)
    ensures !e.Either? ==> Tokens(e, Whole) == Tokens(e, Operand)
    ensures !e.Both? ==> Tokens(e, Operand) == Tokens(e, Primary)
  {
  }

  lemma AndTailStep(ts: seq<Token>, i: nat, value: bool, k: nat, next: bool)
    requires i < |ts| && ts[i] == And && i < k <= |ts|
    requires ParsePrimary(ts, i + 1) == Ok(next, k)
    ensures AndTail(ts, i, value) == AndTail(ts, k, next && value)
  {
  }

  lemma OrTailStep(ts: seq<Token>, i: nat, value: bool, k: nat, alternative: bool)
    requires i < |ts| && ts[i] == Or && i < k <= |ts|
    requires ParseAnd(ts, i + 1) == AndTail(ts, k, alternative) && (k < |ts| ==> ts[k] != And)
    ensures OrTail(ts, i, value) == OrTail(ts, k, value || alternative)
  {
  }

  lemma {:induction false} ParenthesizedParsed(e: Expr, ts: seq<Token>, i: nat, k: nat)
    requires At(ts, i, k, [LParen] + Tokens(e, Whole) + [RParen])
    ensures ParsePrimary(ts, i) == Ok(Eval(e), k)
    decreases e, Rank(e, Whole), 2
  {
    AtParens(ts, i, k, Tokens(e, Whole));
    WholeParsed(e, ts, i + 1, k - 1);
  }

  lemma {:induction false} PrimaryParsed(e: Expr, ts: seq<Token>, i: nat, k: nat)
    requires At(ts, i, k, Tokens(e, Primary))
    ensures ParsePrimary(ts, i) == Ok(Eval(e), k)
    decreases e, Rank(e, Primary), 0
  {
    if e.Leaf? {
      assert ts[i..k][0] == Id(e.name);
    } else if e.Paren? {
      ParenthesizedParsed(e.inner, ts, i, k);
    } else {
      ParenthesizedParsed(e, ts, i, k);
    }
  }

  /** An operand of AND from i to k: parsing there goes on at k with its value. */
  lemma {:induction false} OperandParsed(e: Expr, ts: seq<Token>, i: nat, k: nat)
    requires At(ts, i, k, Tokens(e, Operand))
    ensures ParseAnd(ts, i) == AndTail(ts, k, Eval(e))
    decreases e, Rank(e, Operand), 0
  {
    if e.Both? {
      var j := AtBoth(e, ts, i, k);
      OperandParsed(e.left, ts, i, j);
      AndOperandParsed(e.right, ts, j, k, Eval(e.left));
    } else {
      TighterTokens(e);
      PrimaryParsed(e, ts, i, k);
    }
  }

  lemma {:induction false} AndOperandParsed(e: Expr, ts: seq<Token>, i: nat, k: nat, value: bool)
    requires i < |ts| && ts[i] == And && At(ts, i + 1, k, Tokens(e, Operand))
    ensures AndTail(ts, i, value) == AndTail(ts, k, Eval(e) && value)
    decreases e, Rank(e, Operand), 1
  {
    if e.Both? {
      var j := AtBoth(e, ts, i + 1, k);
      AndOperandParsed(e.left, ts, i, j, value);
      AndOperandParsed(e.right, ts, j, k, Eval(e.left) && value);
    } else {
      TighterTokens(e);
      PrimaryParsed(e, ts, i + 1, k);
      AndTailStep(ts, i, value, k, Eval(e));
    }
  }

  /** A whole expression from i to k, not followed by AND. */
  lemma {:induction false} WholeParsed(e: Expr, ts: seq<Token>, i: nat, k: nat)
    requires At(ts, i, k, Tokens(e, Whole)) && (k < |ts| ==> ts[k] != And)
    ensures ParseOr(ts, i) == OrTail(ts, k, Eval(e))
    decreases e, Rank(e, Whole), 0
  {
    if e.Either? {
      var j := AtEither(e, ts, i, k);
      WholeParsed(e.left, ts, i, j);
      OrWholeParsed(e.right, ts, j, k, Eval(e.left));
    } else {
      TighterTokens(e);
      OperandParsed(e, ts, i, k);
    }
  }

  lemma {:induction false} OrWholeParsed(e: Expr, ts: seq<Token>, i: nat, k: nat, value: bool)
    requires i < |ts| && ts[i] == Or && At(ts, i + 1, k, Tokens(e, Whole)) && (k < |ts| ==> ts[k] != And)
    ensures OrTail(ts, i, value) == OrTail(ts, k, value || Eval(e))
    decreases e, Rank(e, Whole), 1
  {
    if e.Either? {
      var j := AtEither(e, ts, i + 1, k);
      OrWholeParsed(e.left, ts, i, j, value);
      OrWholeParsed(e.right, ts, j, k, value || Eval(e.left));
    } else {
      TighterTokens(e);
      OperandParsed(e, ts, i + 1, k);
      OrTailStep(ts, i, value, k, Eval(e));
    }
  }

  /** On the tokens of any expression the parser uses them all and returns its value. */
  lemma ParserEvaluates(e: Expr)
    ensures ParseOr(Tokens(e, Whole), 0) == Ok(Eval(e), |Tokens(e, Whole)|)
  {
    var ts := Tokens(e, Whole);
    assert ts[0..|ts|] == ts;
    WholeParsed(e, ts, 0, |ts|);
  }

  // --------------------------------------------- what is parsed is a tree

  lemma {:induction false} PrimaryDerives(ts: seq<Token>, i: nat) returns (e: Expr)
    requires ParsePrimary(ts, i).Ok?
    ensures e.Leaf? || e.Paren?
    ensures ts[i..ParsePrimary(ts, i).next] == Tokens(e, Primary) && Eval(e) == ParsePrimary(ts, i).value
    decreases |ts| - i, 0
  {
    if ts[i].Id? {
      e := Leaf(ts[i].name);
    } else {
      var inner := OrDerives(ts, i + 1);
      var j := ParseOr(ts, i + 1).next;
      e := Paren(inner);
      assert ts[i..j + 1] == [LParen] + ts[i + 1..j] + [RParen];
    }
  }

  lemma {:induction false} AndDerives(ts: seq<Token>, i: nat) returns (e: Expr)
    requires ParseAnd(ts, i).Ok?
    ensures !e.Either?
    ensures ts[i..ParseAnd(ts, i).next] == Tokens(e, Operand) && Eval(e) == ParseAnd(ts, i).value
    decreases |ts| - i, 1
  {
    e := PrimaryDerives(ts, i);
    e := AndTailDerives(ts, i, ParsePrimary(ts, i).next, e);
  }

  lemma {:induction false} AndTailDerives(ts: seq<Token>, start: nat, i: nat, left: Expr) returns (e: Expr)
    requires start < i <= |ts| && AndTail(ts, i, Eval(left)).Ok?
    requires !left.Either? && ts[start..i] == Tokens(left, Operand)
    ensures !e.Either?
    ensures ts[start..AndTail(ts, i, Eval(left)).next] == Tokens(e, Operand)
    ensures Eval(e) == AndTail(ts, i, Eval(left)).value
    decreases |ts| - i, 1
  {
    if i == |ts| || ts[i] != And {
      e := left;
    } else {
      var right := PrimaryDerives(ts, i + 1);
      var j := ParsePrimary(ts, i + 1).next;
      SliceAround(ts, start, i, j);
      e := AndTailDerives(ts, start, j, Both(left, right));
    }
  }

  lemma {:induction false} OrDerives(ts: seq<Token>, i: nat) returns (e: Expr)
    requires ParseOr(ts, i).Ok?
    ensures ts[i..ParseOr(ts, i).next] == Tokens(e, Whole) && Eval(e) == ParseOr(ts, i).value
    decreases |ts| - i, 2
  {
    e := AndDerives(ts, i);
    e := OrTailDerives(ts, i, ParseAnd(ts, i).next, e);
  }

  lemma {:induction false} OrTailDerives(ts: seq<Token>, start: nat, i: nat, left: Expr) returns (e: Expr)
    requires start < i <= |ts| && OrTail(ts, i, Eval(left)).Ok?
    requires ts[start..i] == Tokens(left, Whole)
    ensures ts[start..OrTail(ts, i, Eval(left)).next] == Tokens(e, Whole)
    ensures Eval(e) == OrTail(ts, i, Eval(left)).value
    decreases |ts| - i, 2
  {
    if i == |ts| || ts[i] != Or {
      e := left;
    } else {
      var right := AndDerives(ts, i + 1);
      var j := ParseAnd(ts, i + 1).next;
      SliceAround(ts, start, i, j);
      e := OrTailDerives(ts, start, j, Either(left, right));
    }
  }

  /** Some expression with these tokens evaluates to allowed. */
  ghost predicate SpellsAllowed(ts: seq<Token>) {
    exists e :: Tokens(e, Whole) == ts && Eval(e)
  }

  /** The policy accepts a token list exactly when it is the token list of some expression
      that evaluates to allowed. */
  lemma AcceptsExactlyAllowed(ts: seq<Token>)
    ensures Accepts(ts) <==> SpellsAllowed(ts)
  {
    if Accepts(ts) {
      var e := OrDerives(ts, 0);
      assert ts[0..|ts|] == ts;
    }
    forall e | Tokens(e, Whole) == ts && Eval(e) ensures Accepts(ts) {
      ParserEvaluates(e);
    }
  }
}
