/** Python's notion of white space in strings, and str.strip. */
module Whitespace {
  import opened Seqs

  /** The characters Python strips. */
  predicate IsSpace(c: char) {
    var n := c as int;
    9 <= n <= 13 || 28 <= n <= 32 || n in {0x85, 0xA0, 0x1680, 0x2028, 0x2029, 0x202F, 0x205F, 0x3000} ||
    0x2000 <= n <= 0x200A
  }

  /** They are the tab to the carriage return, the four separators and the space, and those
      beyond ASCII. */
  lemma SpaceCharacters(c: char)
    ensures IsSpace(c) <==>
      c in "\t\n\U{000B}\U{000C}\r\U{001C}\U{001D}\U{001E}\U{001F} \U{0085}\U{00A0}\U{1680}" ||
      c in "\U{2000}\U{2001}\U{2002}\U{2003}\U{2004}\U{2005}\U{2006}\U{2007}\U{2008}\U{2009}\U{200A}" ||
      c in "\U{2028}\U{2029}\U{202F}\U{205F}\U{3000}"
  {
  }

  predicate AllSpace(s: string) {
    forall c <- s :: IsSpace(c)
  }

  predicate Trimmed(s: string) {
    |s| > 0 ==> !IsSpace(s[0]) && !IsSpace(s[|s| - 1])
  }

  function LeftStrip(s: string): string {
    if |s| > 0 && IsSpace(s[0]) then LeftStrip(s[1..]) else s
  }

  function RightStrip(s: string): string {
    if |s| > 0 && IsSpace(s[|s| - 1]) then RightStrip(s[..|s| - 1]) else s
  }

  function Strip(s: string): string {
    RightStrip(LeftStrip(s))
  }

  lemma {:induction false} LeftStripDrops(a: string, s: string)
    requires AllSpace(a) && (|s| > 0 ==> !IsSpace(s[0]))
    ensures LeftStrip(a + s) == s
  {
    if |a| == 0 {
      EmptyLeft(s);
    } else {
      DropConcat(a, s, 1);
      LeftStripDrops(a[1..], s);
    }
  }

  lemma {:induction false} RightStripDrops(s: string, b: string)
    requires AllSpace(b) && (|s| > 0 ==> !IsSpace(s[|s| - 1]))
    ensures RightStrip(s + b) == s
  {
    if |b| == 0 {
      EmptyRight(s);
    } else {
      assert (s + b)[..|s + b| - 1] == s + b[..|b| - 1];
      RightStripDrops(s, b[..|b| - 1]);
    }
  }

  /** Strip is the trimmed middle between two runs of spaces. */
  lemma StripMiddle(a: string, s: string, b: string)
    requires AllSpace(a) && AllSpace(b) && |s| > 0 && Trimmed(s)
    ensures Strip(a + s + b) == s
  {
    Assoc(a, s, b);
    LeftStripDrops(a, s + b);
    RightStripDrops(s, b);
  }

  lemma {:induction false} LeftStripped(s: string)
    ensures LeftStrip(s) == "" <==> AllSpace(s)
    ensures LeftStrip(s) != "" ==> !IsSpace(LeftStrip(s)[0])
  {
    if |s| > 0 && IsSpace(s[0]) {
      LeftStripped(s[1..]);
      assert forall c <- s :: c == s[0] || c in s[1..];
    } else if |s| > 0 {
      assert s[0] in s;
    }
  }

  lemma {:induction false} RightStripped(s: string)
    requires |s| > 0 && !IsSpace(s[0])
    ensures RightStrip(s) != "" && Trimmed(RightStrip(s))
  {
    if IsSpace(s[|s| - 1]) {
      RightStripped(s[..|s| - 1]);
    }
  }

  lemma StripTrims(s: string)
    ensures Strip(s) == "" <==> AllSpace(s)
    ensures Trimmed(Strip(s))
  {
    LeftStripped(s);
    if LeftStrip(s) != "" {
      RightStripped(LeftStrip(s));
    }
  }

  lemma StripKeeps(s: string)
    requires Trimmed(s)
    ensures Strip(s) == s
  {
    if |s| > 0 {
      StripMiddle("", s, "");
      EmptyLeft(s);
      EmptyRight(s);
    }
  }
}
