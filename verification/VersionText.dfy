/** Reading a version from text (manage/releases/semver.py:6-17). Case folding is that of the
    letters A to Z. */
module VersionText {
  import opened Decimal
  import opened Seqs
  import opened Versions
  import opened Whitespace

  /** The first place of c in s, or the end. */
  function Index(s: string, c: char): (i: nat)
    ensures i <= |s| && c !in s[..i] && (i < |s| ==> s[i] == c)
  {
    if |s| == 0 || s[0] == c then 0
    else
      assert s[..1 + Index(s[1..], c)] == [s[0]] + s[1..][..Index(s[1..], c)];
      1 + Index(s[1..], c)
  }

  lemma {:induction false} IndexIs(a: string, c: char, b: string)
    requires c !in a
    ensures Index(a + [c] + b, c) == |a| && Index(a, c) == |a|
  {
    if |a| > 0 {
      assert (a + [c] + b)[1..] == a[1..] + [c] + b;
      IndexIs(a[1..], c, b);
    }
  }

  function Split(s: string): (pieces: seq<string>)
    ensures |pieces| > 0
    decreases |s|
  {
    var i := Index(s, '.');
    if i == |s| then [s] else [s[..i]] + Split(s[i + 1..])
  }

  function DropV(s: string): string {
    if |s| > 0 && s[0] in "vV" then DropV(s[1..]) else s
  }

  function LowerChar(c: char): char {
    if 'A' <= c <= 'Z' then (c as int + 32) as char else c
  }

  const UPPER: string := "ABCDEFGHIJKLMNOPQRSTUVWXYZ"
  const LOWER: string := "abcdefghijklmnopqrstuvwxyz"

  /** Each capital becomes the small letter in its place of the alphabet; nothing else changes. */
  lemma LowerLetters(c: char)
    ensures forall k :: 0 <= k < 26 ==> LowerChar(UPPER[k]) == LOWER[k]
    ensures c !in UPPER ==> LowerChar(c) == c
  {
    if 'A' <= c <= 'Z' {
      assert UPPER[c as int - 'A' as int] == c;
    }
  }

  function Lower(s: string): (r: string)
    ensures |r| == |s| && forall i :: 0 <= i < |s| ==> r[i] == LowerChar(s[i])
  {
    seq(|s|, i requires 0 <= i < |s| => LowerChar(s[i]))
  }

  predicate IsNumber(piece: string) {
    Strip(piece) != "" && AllDigits(Strip(piece))
  }

  /** The numbers before the first piece that is not one. */
  function Numbers(pieces: seq<string>): seq<nat> {
    if |pieces| == 0 || !IsNumber(pieces[0]) then []
    else [Value(Strip(pieces[0]))] + Numbers(pieces[1..])
  }

  function Tail(text: string): string {
    var i := Index(text, '-');
    if i == |text| then "" else Lower(text[i + 1..])
  }

  function Parse(raw: string): Version {
    var text := DropV(Strip(raw));
    Version(Numbers(Split(text[..Index(text, '-')])), Tail(text))
  }

  method ParseVersion(raw: string) returns (v: Version)
    ensures v == Parse(raw)
  {
    var text := DropV(Strip(raw));
    if text == "" {
      assert Split("") == [""] && Strip("") == "";
      return Version([], "");
    }
    var i := Index(text, '-');
    var pieces := Split(text[..i]);
    var parts: seq<nat> := [];
    var k := 0;
    while k < |pieces|
      invariant 0 <= k <= |pieces| && Numbers(pieces) == parts + Numbers(pieces[k..])
    {
      var piece := Strip(pieces[k]);
      if piece == "" || !AllDigits(piece) {
        break;
      }
      Assoc(parts, [Value(piece)], Numbers(pieces[k + 1..]));
      assert pieces[k..][1..] == pieces[k + 1..];
      parts := parts + [Value(piece)];
      k := k + 1;
    }
    assert Numbers(pieces[k..]) == [];
    EmptyRight(parts);
    return Version(parts, Tail(text));
  }

  // ---------------------------------------------------------------- round trip

  function Join(parts: seq<nat>): string {
    if |parts| == 0 then ""
    else if |parts| == 1 then Digits(parts[0])
    else Digits(parts[0]) + "." + Join(parts[1..])
  }

  function Show(v: Version): string {
    Join(v.parts) + (if v.pre == "" then "" else "-" + v.pre)
  }

  /** What a prerelease read from text looks like. */
  predicate Folded(pre: string) {
    Lower(pre) == pre && (|pre| > 0 ==> !IsSpace(pre[|pre| - 1]))
  }

  lemma {:induction false} NumberPiece(n: nat)
    ensures IsNumber(Digits(n)) && Strip(Digits(n)) == Digits(n) && Value(Digits(n)) == n
    ensures '.' !in Digits(n)
  {
    DigitsValue(n);
    StripKeeps(Digits(n));
  }

  lemma {:induction false} JoinShape(parts: seq<nat>)
    ensures forall i :: 0 <= i < |Join(parts)| ==> Join(parts)[i] == '.' || '0' <= Join(parts)[i] <= '9'
    ensures |parts| > 0 ==> |Join(parts)| > 0
  {
    if |parts| > 0 {
      DigitsValue(parts[0]);
      JoinShape(parts[1..]);
    }
  }

  lemma SplitFirst(first: string, rest: string)
    requires '.' !in first
    ensures Split(first) == [first] && Split(first + "." + rest) == [first] + Split(rest)
  {
    var whole := first + "." + rest;
    IndexIs(first, '.', rest);
    assert whole[..|first|] == first && whole[|first| + 1..] == rest;
  }

  lemma NumbersFirst(n: nat, pieces: seq<string>)
    ensures Numbers([Digits(n)] + pieces) == [n] + Numbers(pieces)
  {
    NumberPiece(n);
    assert ([Digits(n)] + pieces)[1..] == pieces;
  }

  lemma {:induction false} JoinSplits(parts: seq<nat>)
    ensures Numbers(Split(Join(parts))) == parts
  {
    if |parts| == 0 {
      assert Split("") == [""] && Strip("") == "";
    } else {
      NumberPiece(parts[0]);
      SplitFirst(Digits(parts[0]), Join(parts[1..]));
      if |parts| == 1 {
        NumbersFirst(parts[0], []);
        EmptyRight([Digits(parts[0])]);
      } else {
        NumbersFirst(parts[0], Split(Join(parts[1..])));
        JoinSplits(parts[1..]);
      }
    }
  }

  lemma LowerTwice(s: string)
    ensures Lower(Lower(s)) == Lower(s)
  {
  }

  lemma {:induction false} DropVEnds(s: string)
    requires Trimmed(s)
    ensures |DropV(s)| > 0 ==> !IsSpace(DropV(s)[|DropV(s)| - 1])
  {
    if |s| > 0 && s[0] in "vV" {
      if |s| > 1 && IsSpace(s[1]) {
        DropVStops(s[1..]);
      } else {
        DropVEnds(s[1..]);
      }
    }
  }

  lemma DropVStops(s: string)
    requires |s| > 0 && IsSpace(s[0])
    ensures DropV(s) == s
  {
  }

  lemma SpaceStaysSpace(c: char)
    ensures IsSpace(LowerChar(c)) == IsSpace(c)
  {
  }

  lemma TailIsFolded(text: string)
    requires |text| > 0 ==> !IsSpace(text[|text| - 1])
    ensures Folded(Tail(text))
  {
    var i := Index(text, '-');
    if i < |text| {
      LowerTwice(text[i + 1..]);
      SpaceStaysSpace(text[|text| - 1]);
    }
  }

  lemma ParseIsFolded(raw: string)
    ensures Folded(Parse(raw).pre)
  {
    StripTrims(raw);
    DropVEnds(Strip(raw));
    TailIsFolded(DropV(Strip(raw)));
  }

  lemma ShowEnds(v: Version)
    requires Folded(v.pre) && Show(v) != ""
    ensures '0' <= Show(v)[0] <= '9' || Show(v)[0] in ".-"
    ensures !IsSpace(Show(v)[|Show(v)| - 1])
  {
    JoinShape(v.parts);
    var main := Join(v.parts);
    if v.pre == "" {
      EmptyRight(main);
    } else {
      assert Show(v)[|Show(v)| - 1] == v.pre[|v.pre| - 1];
    }
  }

  lemma ShowIsText(v: Version)
    requires Folded(v.pre)
    ensures DropV(Strip(Show(v))) == Show(v)
  {
    if Show(v) != "" {
      ShowEnds(v);
    }
    StripKeeps(Show(v));
  }

  lemma ShowCut(v: Version)
    ensures Index(Show(v), '-') == |Join(v.parts)| && Show(v)[..|Join(v.parts)|] == Join(v.parts)
    ensures Tail(Show(v)) == Lower(v.pre)
  {
    var main := Join(v.parts);
    JoinShape(v.parts);
    IndexIs(main, '-', v.pre);
    if v.pre == "" {
      EmptyRight(main);
    } else {
      Assoc(main, "-", v.pre);
      assert (main + "-" + v.pre)[|main| + 1..] == v.pre;
    }
  }

  lemma ShowParses(v: Version)
    requires Folded(v.pre)
    ensures Parse(Show(v)) == v
  {
    ShowIsText(v);
    ShowCut(v);
    JoinSplits(v.parts);
  }

  /** A version shown as text reads back as it was exactly when its prerelease is lower case
      and does not end in white space. */
  lemma ShowRoundTrip(v: Version)
    ensures Parse(Show(v)) == v <==> Folded(v.pre)
  {
    ParseIsFolded(Show(v));
    if Folded(v.pre) {
      ShowParses(v);
    }
  }

  /** So any two folded versions compare as their texts do. */
  lemma TextsCompareAlike(a: Version, b: Version)
    requires Folded(a.pre) && Folded(b.pre)
    ensures Compare(Parse(Show(a)), Parse(Show(b))) == Compare(a, b)
  {
    ShowParses(a);
    ShowParses(b);
  }

  /** A "v" in front makes no difference. */
  lemma LeadingV(s: string)
    requires |s| > 0 && !IsSpace(s[0])
    ensures Parse("v" + s) == Parse(s)
  {
    assert ("v" + s)[1..] == s;
    assert LeftStrip("v" + s) == "v" + s && LeftStrip(s) == s;
    RightStripTail('v', s);
  }

  lemma {:induction false} RightStripTail(c: char, s: string)
    requires !IsSpace(c) && |s| > 0 && !IsSpace(s[0])
    ensures RightStrip([c] + s) == [c] + RightStrip(s) && ([c] + RightStrip(s))[1..] == RightStrip(s)
  {
    if IsSpace(s[|s| - 1]) {
      assert ([c] + s)[..|s|] == [c] + s[..|s| - 1];
      RightStripTail(c, s[..|s| - 1]);
    }
  }
}
