/** Packaging of long tool results (manage/workgroup/builtin_hooks.py:37-52, 129-226): a text
    over the token threshold keeps a head and a tail around a hint that counts what was left
    out. The weights 0.6 and 0.3 are counted exactly, in twentieths of a token, so that half
    a budget is a whole number. */
module ToolResult {
  import opened Decimal
  import opened Seqs
  import opened Whitespace

  const TOKEN: int := 20

  function Weight(c: char): nat {
    if 0x4E00 <= c as int <= 0x9FFF || 0x3400 <= c as int <= 0x4DBF then 12 else 6
  }

  function Estimate(text: string): nat {
    if |text| == 0 then 0 else Weight(text[0]) + Estimate(text[1..])
  }

  /** Chinese, Japanese and Korean ideographs: the main block and extension A. */
  predicate Ideograph(c: char) {
    0x4E00 <= c as int < 0xA000 || 0x3400 <= c as int < 0x4DC0
  }

  /** An ideograph counts 0.6 tokens, any other character 0.3. */
  lemma {:induction false} EstimateByScript(text: string)
    ensures (forall c <- text :: Ideograph(c)) ==> 10 * Estimate(text) == 6 * TOKEN * |text|
    ensures (forall c <- text :: !Ideograph(c)) ==> 10 * Estimate(text) == 3 * TOKEN * |text|
  {
    if |text| > 0 {
      EstimateByScript(text[1..]);
      assert text[0] in text && forall c :: c in text[1..] ==> c in text;
    }
  }

  lemma {:induction false} EstimateConcat(a: string, b: string)
    ensures Estimate(a + b) == Estimate(a) + Estimate(b)
  {
    if |a| == 0 {
      EmptyLeft(b);
    } else {
      DropConcat(a, b, 1);
      EstimateConcat(a[1..], b);
    }
  }

  lemma {:induction false} EstimateEven(text: string)
    ensures Estimate(text) % 2 == 0 && Estimate(text) >= 6 * |text|
  {
    if |text| > 0 {
      EstimateEven(text[1..]);
    }
  }

  // -------------------------------------------------------------- head and tail

  /** A prefix within the budget that cannot be extended; its first character is always taken. */
  predicate IsHead(text: string, budget: int, n: nat) {
    n <= |text| && (n == 0 <==> budget <= 0 || |text| == 0) &&
    (n > 1 ==> Estimate(text[..n]) <= budget) &&
    (0 < n < |text| ==> Estimate(text[..n + 1]) > budget)
  }

  /** The same at the other end. */
  predicate IsTail(text: string, budget: int, n: nat) {
    n <= |text| && (n == 0 <==> budget <= 0 || |text| == 0) &&
    (n > 1 ==> Estimate(text[|text| - n..]) <= budget) &&
    (0 < n < |text| ==> Estimate(text[|text| - n - 1..]) > budget)
  }

  lemma EstimateSnoc(text: string, n: nat)
    requires n < |text|
    ensures Estimate(text[..n + 1]) == Estimate(text[..n]) + Weight(text[n])
  {
    TakeSnoc(text, n);
    EstimateConcat(text[..n], [text[n]]);
    assert Estimate([text[n]]) == Weight(text[n]);
  }

  lemma EstimateCons(text: string, n: nat)
    requires n < |text|
    ensures Estimate(text[|text| - n - 1..]) == Weight(text[|text| - n - 1]) + Estimate(text[|text| - n..])
  {
    var s := text[|text| - n - 1..];
    assert s[0] == text[|text| - n - 1] && s[1..] == text[|text| - n..];
  }

  /** h is the number of characters taken. */
  method TakePrefixForBudget(text: string, budget: int) returns (head: string, h: nat)
    ensures IsHead(text, budget, h) && head == text[..h]
  {
    if budget <= 0 || |text| == 0 {
      return "", 0;
    }
    var used, n := 0, 0;
    while n < |text|
      invariant 0 <= n <= |text| && used == Estimate(text[..n])
      invariant n > 1 ==> used <= budget
    {
      EstimateEven(text[..n]);
      EstimateSnoc(text, n);
      if used + Weight(text[n]) > budget && used > 0 {
        break;
      }
      used := used + Weight(text[n]);
      n := n + 1;
    }
    head, h := text[..n], n;
  }

  /** t is the number of characters taken. */
  method TakeSuffixForBudget(text: string, budget: int) returns (tail: string, t: nat)
    ensures IsTail(text, budget, t) && tail == text[|text| - t..]
  {
    if budget <= 0 || |text| == 0 {
      return "", 0;
    }
    var used, n := 0, 0;
    while n < |text|
      invariant 0 <= n <= |text| && used == Estimate(text[|text| - n..])
      invariant n > 1 ==> used <= budget
    {
      EstimateEven(text[|text| - n..]);
      EstimateCons(text, n);
      if used + Weight(text[|text| - n - 1]) > budget && used > 0 {
        break;
      }
      used := used + Weight(text[|text| - n - 1]);
      n := n + 1;
    }
    tail, t := text[|text| - n..], n;
  }

  // ------------------------------------------------------------------ the hint

  /** The hint without its number; after ends with the quoted path. */
  datatype Hint = Hint(before: string, after: string)

  lemma {:induction false} DigitsEstimate(n: nat)
    ensures Estimate(Digits(n)) == 6 * |Digits(n)|
    ensures forall c <- Digits(n) :: c in "0123456789"
  {
    if n >= 10 {
      DigitsEstimate(n / 10);
      EstimateConcat(Digits(n / 10), ["0123456789"[n % 10]]);
    }
  }

  function Write(hint: Hint, omitted: nat): string {
    hint.before + Digits(omitted) + hint.after
  }

  lemma WriteEstimate(hint: Hint, omitted: nat)
    ensures Estimate(Write(hint, omitted)) == Estimate(hint.before) + 6 * |Digits(omitted)| + Estimate(hint.after)
  {
    EstimateConcat(hint.before + Digits(omitted), hint.after);
    EstimateConcat(hint.before, Digits(omitted));
    DigitsEstimate(omitted);
  }

  /** A longer number costs the hint six twentieths a digit. */
  lemma WriteGrows(hint: Hint, omitted: nat)
    ensures Estimate(Write(hint, omitted)) == Estimate(Write(hint, 0)) + 6 * (|Digits(omitted)| - 1)
  {
    WriteEstimate(hint, omitted);
    WriteEstimate(hint, 0);
  }

  // ----------------------------------------------------------------- the summary

  /** What the threshold leaves for head and tail, with four tokens kept in reserve. */
  function Budget(maxTokens: int, hint: Hint): int {
    TOKEN * maxTokens - (Estimate(Write(hint, 0)) + 4 * TOKEN)
  }

  function Round(twentieths: nat): nat {
    (twentieths + TOKEN / 2) / TOKEN
  }

  /** To the nearest token, halves up. */
  lemma RoundsToNearest(twentieths: nat)
    ensures 20 * Round(twentieths) <= twentieths + 10 < 20 * Round(twentieths) + 20
  {
  }

  function Omitted(text: string, h: nat, t: nat): nat
    requires h <= |text| && t <= |text|
  {
    var omitted := Estimate(text) - Estimate(text[..h]) - Estimate(text[|text| - t..]);
    Round(if omitted < 0 then 0 else omitted)
  }

  predicate Over(text: string, maxTokens: int) {
    Estimate(text) > TOKEN * maxTokens
  }

  /** head + hint + tail */
  predicate IsCut(text: string, budget: int, hint: Hint, h: nat, t: nat, out: string) {
    IsHead(text, budget / 2, h) && IsTail(text, budget / 2, t) &&
    out == text[..h] + Write(hint, Omitted(text, h, t)) + text[|text| - t..]
  }

  ghost predicate IsSummary(text: string, maxTokens: int, hint: Hint, out: string) {
    if maxTokens <= 0 || !Over(text, maxTokens) then out == text
    else if Budget(maxTokens, hint) < TOKEN then out == Write(hint, Round(Estimate(text)))
    else IsCutSomewhere(text, Budget(maxTokens, hint), hint, out)
  }

  ghost predicate IsCutSomewhere(text: string, budget: int, hint: Hint, out: string) {
    exists h, t :: IsCut(text, budget, hint, h, t, out)
  }

  lemma BudgetEven(maxTokens: int, hint: Hint)
    ensures var budget := Budget(maxTokens, hint); budget - budget / 2 == budget / 2
  {
    EstimateEven(Write(hint, 0));
    assert Budget(maxTokens, hint) == 2 * (10 * maxTokens - Estimate(Write(hint, 0)) / 2 - 40);
  }

  /** The part of _format_head_tail_with_hint that has room for a head and a tail. */
  method CutToBudget(text: string, budget: int, hint: Hint) returns (out: string)
    requires budget - budget / 2 == budget / 2
    ensures IsCutSomewhere(text, budget, hint, out)
  {
    var headBudget := budget / 2;
    var tailBudget := budget - headBudget;
    var head, h := TakePrefixForBudget(text, headBudget);
    var tail, t := TakeSuffixForBudget(text, tailBudget);
    var omitted := Estimate(text) - Estimate(head) - Estimate(tail);
    if omitted < 0 {
      omitted := 0;
    }
    out := head + Write(hint, Round(omitted)) + tail;
    CutIs(text, budget, hint, h, t, Round(omitted), out);
  }

  lemma CutIs(text: string, budget: int, hint: Hint, h: nat, t: nat, omitted: nat, out: string)
    requires IsHead(text, budget / 2, h) && IsTail(text, budget / 2, t) && omitted == Omitted(text, h, t)
    requires out == text[..h] + Write(hint, omitted) + text[|text| - t..]
    ensures IsCutSomewhere(text, budget, hint, out)
  {
    assert IsCut(text, budget, hint, h, t, out);
  }

  method FormatHeadTailWithHint(text: string, maxTokens: int, hint: Hint) returns (out: string)
    ensures IsSummary(text, maxTokens, hint, out)
  {
    var total := Estimate(text);
    if maxTokens <= 0 || total <= TOKEN * maxTokens {
      return text;
    }
    var hintTokens := Estimate(Write(hint, 0)) + 4 * TOKEN;
    var budget := TOKEN * maxTokens - hintTokens;
    assert Over(text, maxTokens) && budget == Budget(maxTokens, hint);
    if budget < TOKEN {
      out := Write(hint, Round(total));
    } else {
      BudgetEven(maxTokens, hint);
      out := CutToBudget(text, budget, hint);
    }
  }

  // -------------------------------------------------- head and tail never overlap

  lemma HeadSmall(text: string, budget: int, h: nat)
    requires IsHead(text, budget, h) && budget >= 10
    ensures Estimate(text[..h]) <= budget + 2
  {
    if h == 1 {
      assert text[..1] == [text[0]];
      assert Estimate([text[0]]) == Weight(text[0]);
    }
  }

  lemma TailSmall(text: string, budget: int, t: nat)
    requires IsTail(text, budget, t) && budget >= 10
    ensures Estimate(text[|text| - t..]) <= budget + 2
  {
    if t == 1 {
      var s := text[|text| - 1..];
      assert s == [s[0]];
      assert Estimate([s[0]]) == Weight(s[0]);
    }
  }

  lemma EstimateSplit(text: string, i: nat)
    requires i <= |text|
    ensures Estimate(text) == Estimate(text[..i]) + Estimate(text[i..])
  {
    SplitAt(text, i);
    EstimateConcat(text[..i], text[i..]);
  }

  /** A head and a tail that meet weigh at least the whole. */
  lemma CoverWeighs(text: string, h: nat, t: nat)
    requires h <= |text| && t <= |text| && h + t >= |text|
    ensures Estimate(text[..h]) + Estimate(text[|text| - t..]) >= Estimate(text)
  {
    var i := |text| - t;
    EstimateSplit(text, i);
    EstimateSplit(text[..h], i);
    assert text[..h][..i] == text[..i];
  }

  /** Head and tail stay apart, and what is counted as omitted is exactly what lies between. */
  lemma HeadAndTailApart(text: string, maxTokens: int, hint: Hint, h: nat, t: nat, out: string)
    requires Over(text, maxTokens) && Budget(maxTokens, hint) >= TOKEN
    requires IsCut(text, Budget(maxTokens, hint), hint, h, t, out)
    ensures 0 < h && 0 < t && h + t < |text|
    ensures out == text[..h] + Write(hint, Round(Estimate(text[h..|text| - t]))) + text[|text| - t..]
    ensures Estimate(text[..h]) + Estimate(text[|text| - t..]) <= Budget(maxTokens, hint) + 4
  {
    var budget := Budget(maxTokens, hint);
    HeadSmall(text, budget / 2, h);
    TailSmall(text, budget / 2, t);
    if h + t >= |text| {
      CoverWeighs(text, h, t);
    } else {
      EstimateSplit(text, h);
      EstimateSplit(text[h..], |text| - t - h);
      assert text[h..][..|text| - t - h] == text[h..|text| - t];
      assert text[h..][|text| - t - h..] == text[|text| - t..];
    }
  }

  /** The four tokens in reserve pay for thirteen digits. */
  lemma CutFits(text: string, maxTokens: int, hint: Hint, h: nat, t: nat, out: string)
    requires Over(text, maxTokens) && Budget(maxTokens, hint) >= TOKEN && Estimate(text) < TOKEN * Tens(13)
    requires IsCut(text, Budget(maxTokens, hint), hint, h, t, out)
    ensures !Over(out, maxTokens)
  {
    HeadAndTailApart(text, maxTokens, hint, h, t, out);
    var omitted := Omitted(text, h, t);
    EstimateEven(text[..h]);
    EstimateEven(text[|text| - t..]);
    DigitsShort(omitted, 13);
    WriteGrows(hint, omitted);
    EstimateConcat(text[..h] + Write(hint, omitted), text[|text| - t..]);
    EstimateConcat(text[..h], Write(hint, omitted));
  }

  /** Under a threshold of the empty hint plus five tokens the summary of a text of fewer
      than 10^13 tokens fits; under a smaller one it fits exactly when the bare hint does. */
  lemma SummaryFits(text: string, maxTokens: int, hint: Hint, out: string)
    requires maxTokens > 0 && IsSummary(text, maxTokens, hint, out)
    requires Budget(maxTokens, hint) >= TOKEN ==> Estimate(text) < TOKEN * Tens(13)
    ensures !Over(out, maxTokens) <==>
      !Over(text, maxTokens) || Budget(maxTokens, hint) >= TOKEN ||
      Estimate(Write(hint, Round(Estimate(text)))) <= TOKEN * maxTokens
  {
    if Over(text, maxTokens) && Budget(maxTokens, hint) >= TOKEN {
      var h, t :| IsCut(text, Budget(maxTokens, hint), hint, h, t, out);
      CutFits(text, maxTokens, hint, h, t, out);
    }
  }

  // ----------------------------------------------------------------- packaging

  const DEFAULT_THRESHOLD: int := 12000

  /** U+FF08 U+7A7A U+8F93 U+51FA U+FF09 */
  const EMPTY_OUTPUT: string := "\U{FF08}\U{7A7A}\U{8F93}\U{51FA}\U{FF09}"

  datatype Spill = NotWritten | Written(content: string)

  datatype Packaged = Packaged(history: string, spill: Spill)

  /** What to package: the stripped text, a placeholder for nothing, spaces as they are. */
  function Subject(raw: string): string {
    if Strip(raw) != "" then Strip(raw) else if raw == "" then EMPTY_OUTPUT else raw
  }

  function Threshold(given: int): int {
    if given > 0 then given else DEFAULT_THRESHOLD
  }

  ghost predicate IsPackaged(raw: string, listed: bool, given: int, hint: Hint, root: bool, p: Packaged) {
    var text := Subject(raw);
    if !listed || !Over(text, Threshold(given)) then p == Packaged(text, NotWritten)
    else IsSummary(text, Threshold(given), hint, p.history) && p.spill == if root then Written(text) else NotWritten
  }

  /** listed: the hook is on and the tool is one of those it applies to. root: there is a
      directory to write to. */
  method PackageToolResult(raw: string, listed: bool, given: int, hint: Hint, root: bool) returns (p: Packaged)
    ensures IsPackaged(raw, listed, given, hint, root, p)
  {
    var trimmed := Strip(raw);
    var text;
    if trimmed == "" && raw == "" {
      text := EMPTY_OUTPUT;
    } else if trimmed == "" {
      text := raw;
    } else {
      text := trimmed;
    }
    if !listed {
      return Packaged(text, NotWritten);
    }
    var threshold := if given > 0 then given else DEFAULT_THRESHOLD;
    if Estimate(text) <= TOKEN * threshold {
      return Packaged(text, NotWritten);
    }
    var summary := FormatHeadTailWithHint(text, threshold, hint);
    return Packaged(summary, if root then Written(text) else NotWritten);
  }

  /** What the code's own hint texts satisfy: they begin and end with an ellipsis. */
  predicate Solid(hint: Hint) {
    |hint.before| > 0 && |hint.after| > 0 && !IsSpace(hint.before[0]) && !IsSpace(hint.after[|hint.after| - 1])
  }

  /** The threshold leaves a token for head and tail, and the text has fewer than 10^13. */
  ghost predicate Roomy(raw: string, given: int, hint: Hint) {
    Budget(Threshold(given), hint) >= TOKEN && Estimate(Subject(raw)) < TOKEN * Tens(13)
  }

  lemma WriteTrimmed(hint: Hint, omitted: nat)
    requires Solid(hint)
    ensures |Write(hint, omitted)| > 2 && Trimmed(Write(hint, omitted))
  {
  }

  lemma SubjectShape(raw: string)
    ensures Subject(raw) != ""
    ensures if AllSpace(raw) && raw != "" then Subject(raw) == raw else Trimmed(Subject(raw))
  {
    StripTrims(raw);
  }

  lemma EmptyOutputShort(maxTokens: int, hint: Hint)
    requires Budget(maxTokens, hint) >= TOKEN
    ensures !Over(EMPTY_OUTPUT, maxTokens)
  {
    var s := EMPTY_OUTPUT;
    EstimateBound(s);
    assert |s| == 5;
  }

  lemma {:induction false} EstimateBound(text: string)
    ensures Estimate(text) <= 12 * |text|
  {
    if |text| > 0 {
      EstimateBound(text[1..]);
    }
  }

  /** With room for it, what goes into the history fits the threshold. */
  lemma PackagedFits(raw: string, given: int, hint: Hint, root: bool, p: Packaged)
    requires IsPackaged(raw, true, given, hint, root, p) && Roomy(raw, given, hint)
    ensures !Over(p.history, Threshold(given))
  {
    SummaryFits(Subject(raw), Threshold(given), hint, p.history);
  }

  /** A cut of a trimmed text is trimmed; a cut of spaces strips to its hint. */
  lemma CutStrips(text: string, maxTokens: int, hint: Hint, h: nat, t: nat, out: string)
    requires Over(text, maxTokens) && Budget(maxTokens, hint) >= TOKEN && Solid(hint)
    requires IsCut(text, Budget(maxTokens, hint), hint, h, t, out)
    ensures Trimmed(text) ==> Trimmed(out) && out != ""
    ensures AllSpace(text) ==> Strip(out) == Write(hint, Omitted(text, h, t)) && |Strip(out)| < |out|
    ensures Estimate(Write(hint, Omitted(text, h, t))) <= Estimate(out)
  {
    HeadAndTailApart(text, maxTokens, hint, h, t, out);
    var middle := Write(hint, Omitted(text, h, t));
    WriteTrimmed(hint, Omitted(text, h, t));
    EstimateConcat(text[..h] + middle, text[|text| - t..]);
    EstimateConcat(text[..h], middle);
    if AllSpace(text) {
      StripMiddle(text[..h], middle, text[|text| - t..]);
    }
  }

  /** Packaging again changes nothing, and writes nothing, exactly when the text was not a
      long run of spaces. */
  lemma PackagingIsIdempotent(raw: string, given: int, hint: Hint, root: bool, p: Packaged, q: Packaged)
    requires Roomy(raw, given, hint) && Solid(hint)
    requires IsPackaged(raw, true, given, hint, root, p) && IsPackaged(p.history, true, given, hint, root, q)
    ensures q == Packaged(p.history, NotWritten) <==> !(AllSpace(raw) && Over(raw, Threshold(given)))
  {
    var text, max := Subject(raw), Threshold(given);
    SubjectShape(raw);
    PackagedFits(raw, given, hint, root, p);
    if Over(text, max) {
      var h, t :| IsCut(text, Budget(max, hint), hint, h, t, p.history);
      CutStrips(text, max, hint, h, t, p.history);
      EmptyOutputShort(max, hint);
    }
    if Trimmed(p.history) {
      StripKeeps(p.history);
    }
  }

  function Spaces(n: nat): (s: string)
    ensures |s| == n && AllSpace(s)
  {
    if n == 0 then "" else " " + Spaces(n - 1)
  }

  lemma {:induction false} SpacesEstimate(n: nat)
    ensures Estimate(Spaces(n)) == 6 * n
  {
    if n > 0 {
      SpacesEstimate(n - 1);
      assert Spaces(n)[1..] == Spaces(n - 1);
    }
  }

  lemma {:induction false} TensGrow(k: nat)
    ensures Tens(k) > k
  {
    if k > 0 {
      TensGrow(k - 1);
    }
  }

  lemma ShortHint()
    ensures Budget(10, Hint("(", ")")) >= TOKEN && Solid(Hint("(", ")"))
  {
    WriteEstimate(Hint("(", ")"), 0);
    EstimateBound("(");
    EstimateBound(")");
  }

  /** Forty spaces under a threshold of ten tokens are packaged differently the second time. */
  lemma BlankTextChanges(n: nat, given: int, hint: Hint, root: bool, p: Packaged, q: Packaged)
    requires n == 40 && given == 10 && hint == Hint("(", ")")
    requires IsPackaged(Spaces(n), true, given, hint, root, p) && IsPackaged(p.history, true, given, hint, root, q)
    ensures q != Packaged(p.history, NotWritten)
  {
    SubjectShape(Spaces(n));
    SpacesEstimate(n);
    TensGrow(13);
    ShortHint();
    PackagingIsIdempotent(Spaces(n), given, hint, root, p, q);
  }

  /** A text is written to disk, and then whole, exactly if the hook applies, the text is over
      the threshold and there is a directory; without that it goes into the history as it is.
      No threshold means twelve thousand tokens. */
  lemma SpilledExactly(raw: string, listed: bool, given: int, hint: Hint, root: bool, p: Packaged)
    requires IsPackaged(raw, listed, given, hint, root, p)
    ensures var text, limit := Subject(raw), if given >= 1 then given else 12000;
      && (p.spill == Written(text) <==> listed && root && Estimate(text) > 20 * limit)
      && (p.spill.Written? ==> p.spill.content == text)
      && (!listed || Estimate(text) <= 20 * limit ==> p == Packaged(text, NotWritten))
  {
  }
}
