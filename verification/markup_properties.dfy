/**
 Properties of `formatAnswerText`: what each step leaves alone, how the
 steps compose on the shapes the answers use (emphasis, bullet lists,
 headings, numbered items, code spans), and the consequences of the step
 order, such as headings and numbered items only ever converting at the
 very start of the text.
 */
module MarkupProperties {
  import opened Wrappers
  import opened Text
  import opened Markup

  /** A character no step treats specially wherever it stands: not an
      asterisk, backtick, hash, `<` or line terminator. */
  predicate InertChar(c: char) {
    c != '*' && c != '`' && c != '#' && c != '<' && !IsLineTerminator(c)
  }

  predicate Inert(s: string) {
    forall c :: c in s ==> InertChar(c)
  }

  lemma OccursAtHead(s: string, k: int, pat: string)
    requires |pat| > 0
    ensures OccursAt(s, k, pat) ==> s[k] == pat[0]
  {
    if OccursAt(s, k, pat) {
      assert s[k..k + |pat|][0] == s[k];
    }
  }

  // ---------------------------------------------------------------------
  // Lazy spans
  // ---------------------------------------------------------------------

  /** Text without the opening delimiter's first character passes through
      a lazy-span step untouched, whatever follows it. */
  lemma {:induction false} LazyPassthrough(u: string, v: string, open: string, close: string, newOpen: string, newClose: string)
    requires |open| > 0 && |close| > 0
    requires open[0] !in u
    ensures LazySpans(u + v, open, close, newOpen, newClose) == u + LazySpans(v, open, close, newOpen, newClose)
    decreases |u|
  {
    if u != [] {
      var s := u + v;
      OccursAtHead(s, 0, open);
      assert s[0] == u[0] && u[0] in u;
      assert !OccursAt(s, 0, open);
      assert s[1..] == u[1..] + v;
      LazyPassthrough(u[1..], v, open, close, newOpen, newClose);
      calc {
        LazySpans(s, open, close, newOpen, newClose);
        [u[0]] + LazySpans(u[1..] + v, open, close, newOpen, newClose);
        [u[0]] + (u[1..] + LazySpans(v, open, close, newOpen, newClose));
        { assert u == [u[0]] + u[1..]; }
        u + LazySpans(v, open, close, newOpen, newClose);
      }
    } else {
      assert u + v == v;
    }
  }

  /** A lazy-span step changes nothing in text that lacks the first
      character of its opening delimiter. */
  lemma LazyIdentity(s: string, open: string, close: string, newOpen: string, newClose: string)
    requires |open| > 0 && |close| > 0
    requires open[0] !in s
    ensures LazySpans(s, open, close, newOpen, newClose) == s
  {
    LazyPassthrough(s, [], open, close, newOpen, newClose);
    assert s + [] == s;
  }

  /** A line that starts with the delimiter character and holds no other
      is left alone: `.` cannot reach a closing delimiter on a later line. */
  lemma LazySkipsUnclosedLine(u: string, v: string, open: string, close: string, newOpen: string, newClose: string)
    requires |open| > 0 && |close| > 0 && |open| <= |u|
    requires u[0] == open[0] && close[0] == open[0]
    requires NoLineTerminator(u)
    requires forall k :: 1 <= k < |u| ==> u[k] != open[0]
    requires v == [] || IsLineTerminator(v[0])
    ensures LazySpans(u + v, open, close, newOpen, newClose) == u + LazySpans(v, open, close, newOpen, newClose)
  {
    var s := u + v;
    NoCloseOnLine(u, v, |open|, close);
    NoCloseBeyondLine(u, v, |open|);
    NoCloseFound(s, |open|, |u|, close);
    assert s[1..] == u[1..] + v;
    LazyPassthrough(u[1..], v, open, close, newOpen, newClose);
  }

  /** With no closing delimiter up to the end of the line at `e`, and the
      line ending there, the search for one fails. */
  lemma NoCloseFound(s: string, from: nat, e: nat, close: string)
    requires from <= e <= |s| && |close| > 0
    requires forall j :: from <= j <= e ==> !OccursAt(s, j, close)
    requires forall j :: e < j <= |s| ==> !NoLineTerminatorIn(s, from, j)
    ensures FindClose(s, from, close).None?
  {
  }

  /** No closing delimiter starts between `from` and the end of `u`, nor
      at the line terminator after it. */
  lemma NoCloseOnLine(u: string, v: string, from: nat, close: string)
    requires |close| > 0 && 1 <= from <= |u| && close[0] == u[0]
    requires forall k :: 1 <= k < |u| ==> u[k] != close[0]
    requires v == [] || IsLineTerminator(v[0])
    requires NoLineTerminator(u)
    ensures forall j :: from <= j <= |u| ==> !OccursAt(u + v, j, close)
  {
    var s := u + v;
    forall j | from <= j <= |u|
      ensures !OccursAt(s, j, close)
    {
      OccursAtHead(s, j, close);
      if j < |u| {
        assert s[j] == u[j];
      } else if j < |s| {
        assert s[j] == v[0] && u[0] in u;
      }
    }
  }

  /** Matching cannot run past the end of the first line. */
  lemma NoCloseBeyondLine(u: string, v: string, from: nat)
    requires from <= |u|
    requires v == [] || IsLineTerminator(v[0])
    ensures forall j :: |u| < j <= |u + v| ==> !NoLineTerminatorIn(u + v, from, j)
  {
    var s := u + v;
    forall j | |u| < j <= |s|
      ensures !NoLineTerminatorIn(s, from, j)
    {
      assert s[|u|] == v[0];
    }
  }

  /** The `<sup>` step rewrites every match to itself, so it changes nothing. */
  lemma {:induction false} SuperscriptIdentity(s: string)
    ensures Superscript(s) == s
    decreases |s|
  {
    if s != [] {
      if OccursAt(s, 0, "<sup>") && FindClose(s, 5, "</sup>").Some? {
        var j := FindClose(s, 5, "</sup>").value;
        SuperscriptIdentity(s[j + 6..]);
        SupSpanSplit(s, j);
      } else {
        SuperscriptIdentity(s[1..]);
        assert s == [s[0]] + s[1..];
      }
    }
  }

  lemma SupSpanSplit(s: string, j: nat)
    requires 5 <= j && j + 6 <= |s|
    requires OccursAt(s, 0, "<sup>") && OccursAt(s, j, "</sup>")
    ensures "<sup>" + s[5..j] + "</sup>" + s[j + 6..] == s
  {
    assert s[..5] == "<sup>";
    assert s[j..j + 6] == "</sup>";
    assert s == s[..5] + s[5..j] + s[j..j + 6] + s[j + 6..];
  }

  /** Bold pairs a `**` with the nearest `**` after it on the same line;
      what follows is formatted on its own. */
  lemma BoldPairsNearest(c: string, rest: string)
    requires '*' !in c && NoLineTerminator(c)
    ensures Bold("**" + c + "**" + rest) == "<strong>" + c + "</strong>" + Bold(rest)
  {
    var s := "**" + c + "**" + rest;
    var e := 2 + |c|;
    assert s[e..e + 2] == "**";
    assert OccursAt(s, 0, "**") && OccursAt(s, e, "**");
    assert NoLineTerminatorIn(s, 2, e) by {
      forall k | 2 <= k < e ensures !IsLineTerminator(s[k]) {
        assert s[k] == c[k - 2];
      }
    }
    forall j | 2 <= j < e
      ensures !OccursAt(s, j, "**")
    {
      OccursAtHead(s, j, "**");
      assert s[j] == c[j - 2];
    }
    assert FindClose(s, 2, "**") == Some(e);
    assert s[2..e] == c;
    assert s[e + 2..] == rest;
  }

  /** Italic pairs a `*` with the nearest `*` after it on the same line;
      what follows is formatted on its own. */
  lemma ItalicPairsNearest(c: string, rest: string)
    requires '*' !in c && NoLineTerminator(c)
    ensures Italic("*" + c + "*" + rest) == "<em>" + c + "</em>" + Italic(rest)
  {
    var s := "*" + c + "*" + rest;
    var e := 1 + |c|;
    assert s[e..e + 1] == "*";
    assert OccursAt(s, 0, "*") && OccursAt(s, e, "*");
    assert NoLineTerminatorIn(s, 1, e) by {
      forall k | 1 <= k < e ensures !IsLineTerminator(s[k]) {
        assert s[k] == c[k - 1];
      }
    }
    forall j | 1 <= j < e
      ensures !OccursAt(s, j, "*")
    {
      OccursAtHead(s, j, "*");
      assert s[j] == c[j - 1];
    }
    assert FindClose(s, 1, "*") == Some(e);
    assert s[1..e] == c;
    assert s[e + 1..] == rest;
  }

  /** Where the opening delimiter occurs nowhere, a lazy span step copies
      the text unchanged. */
  lemma {:induction false} LazyWithoutOpen(s: string, open: string, close: string, newOpen: string, newClose: string)
    requires |open| > 0 && |close| > 0
    requires forall k :: 0 <= k ==> !OccursAt(s, k, open)
    ensures LazySpans(s, open, close, newOpen, newClose) == s
    decreases |s|
  {
    if |s| > 0 {
      var t := s[1..];
      forall k | 0 <= k && OccursAt(t, k, open)
        ensures OccursAt(s, k + 1, open)
      {
        assert s[k + 1..k + 1 + |open|] == t[k..k + |open|];
      }
      LazyWithoutOpen(t, open, close, newOpen, newClose);
      assert s == [s[0]] + t;
    }
  }

  /** Italic runs on bold's output, where the asterisks bold consumed are
      gone: a bold span with no asterisk inside comes out as `<strong>`
      alone. */
  lemma ItalicAfterBold(c: string)
    requires '*' !in c && NoLineTerminator(c)
    ensures Italic(Bold("**" + c + "**")) == "<strong>" + c + "</strong>"
  {
    var b := "<strong>" + c + "</strong>";
    BoldSpanAlone(c);
    StarFreeTags(c);
    LazyIdentity(b, "*", "*", "<em>", "</em>");
  }

  lemma BoldSpanAlone(c: string)
    requires '*' !in c && NoLineTerminator(c)
    ensures Bold("**" + c + "**") == "<strong>" + c + "</strong>"
  {
    BoldPairsNearest(c, []);
    assert "**" + c + "**" + [] == "**" + c + "**";
    assert "<strong>" + c + "</strong>" + [] == "<strong>" + c + "</strong>";
  }

  lemma StarFreeTags(c: string)
    requires '*' !in c
    ensures '*' !in "<strong>" + c + "</strong>"
  {
  }

  // ---------------------------------------------------------------------
  // Line rules
  // ---------------------------------------------------------------------

  /** A stretch of one line that does not start a match passes through a
      line rule untouched; after it `^` no longer holds. */
  lemma {:induction false} LineRulePassthrough(u: string, v: string, atLineStart: bool, m: Marker, open: string, close: string)
    requires ValidMarker(m) && |u| > 0 && NoLineTerminator(u)
    requires atLineStart ==> MarkerLength(m, u + v).None?
    ensures LineRule(u + v, atLineStart, m, open, close) == u + LineRule(v, false, m, open, close)
    decreases |u|
  {
    var s := u + v;
    assert s[1..] == u[1..] + v;
    assert !IsLineTerminator(u[0]);
    if |u| > 1 {
      LineRulePassthrough(u[1..], v, false, m, open, close);
    }
  }

  /** A line rule over text with no line terminator can only match at the
      very start. */
  lemma LineRuleWithoutBreaks(s: string, atLineStart: bool, m: Marker, open: string, close: string)
    requires ValidMarker(m) && NoLineTerminator(s)
    requires atLineStart ==> MarkerLength(m, s).None?
    ensures LineRule(s, atLineStart, m, open, close) == s
  {
    if s != [] {
      assert s + [] == s;
      LineRulePassthrough(s, [], atLineStart, m, open, close);
    }
  }

  /** A literal-prefix line rule changes nothing in text that lacks the
      prefix's first character. */
  lemma {:induction false} LineRuleAbsent(s: string, atLineStart: bool, p: string, open: string, close: string)
    requires |p| > 0 && p[0] !in s
    ensures LineRule(s, atLineStart, Literal(p), open, close) == s
    decreases |s|
  {
    if s != [] {
      OccursAtHead(s, 0, p);
      LineRuleAbsent(s[1..], IsLineTerminator(s[0]), p, open, close);
    }
  }

  /** At a line start where the marker `w` is followed by the line `x`, the
      rule emits `open x close` and resumes at the line's end. */
  lemma LineRuleMatch(w: string, x: string, v: string, m: Marker, open: string, close: string)
    requires ValidMarker(m) && MarkerLength(m, w + x + v) == Some(|w|)
    requires NoLineTerminator(x)
    requires v == [] || IsLineTerminator(v[0])
    ensures LineRule(w + x + v, true, m, open, close) == open + x + close + LineRule(v, false, m, open, close)
  {
    var s := w + x + v;
    var n := |w|;
    var e := LineEnd(s, n);
    forall k | n <= k < n + |x|
      ensures !IsLineTerminator(s[k])
    {
      assert s[k] == x[k - n];
    }
    if v != [] {
      assert IsLineTerminator(s[n + |x|]);
    }
    assert e == n + |x|;
    assert s[n..e] == x;
    assert s[e..] == v;
  }

  /** After a line terminator `^` holds again. */
  lemma LineRuleAfterBreak(c: char, w: string, atLineStart: bool, m: Marker, open: string, close: string)
    requires ValidMarker(m) && IsLineTerminator(c)
    requires atLineStart ==> MarkerLength(m, [c] + w).None?
    ensures LineRule([c] + w, atLineStart, m, open, close) == [c] + LineRule(w, true, m, open, close)
  {
    assert ([c] + w)[1..] == w;
  }

  // ---------------------------------------------------------------------
  // Breaks and the list block
  // ---------------------------------------------------------------------

  /** The break step works character by character, so it distributes
      over concatenation. */
  lemma {:induction false} BreaksAppend(a: string, b: string)
    ensures Breaks(a + b) == Breaks(a) + Breaks(b)
    decreases |a|
  {
    if a != [] {
      var c, w := a[0], a[1..];
      assert a == [c] + w;
      assert a + b == [c] + (w + b);
      BreaksAppend(w, b);
      BreaksCons(c, w);
      BreaksCons(c, w + b);
      assert Breaks(a + b) == BreakOf(c) + (Breaks(w) + Breaks(b));
    } else {
      assert a + b == b;
    }
  }

  function BreakOf(c: char): string {
    if c == '\n' then "<br>" else [c]
  }

  lemma BreaksCons(c: char, w: string)
    ensures Breaks([c] + w) == BreakOf(c) + Breaks(w)
  {
    assert ([c] + w)[0] == c;
    assert ([c] + w)[1..] == w;
  }

  /** Where every `<` is followed by a character other than `l` there is
      no `<li>`, so nothing is wrapped in a list. */
  lemma ListBlockWithoutOpenTags(s: string)
    requires forall k :: 0 <= k < |s| - 1 && s[k] == '<' ==> s[k + 1] != 'l'
    ensures ListBlock(s) == s
  {
    NoOpenTag(s);
  }

  lemma NoOpenTag(s: string)
    requires forall k :: 0 <= k < |s| - 1 && s[k] == '<' ==> s[k + 1] != 'l'
    ensures IndexOf(s, "<li>", 0).None?
  {
    forall k | 0 <= k
      ensures !OccursAt(s, k, "<li>")
    {
      if k + 4 <= |s| {
        assert s[k..k + 4][0] == s[k] && s[k..k + 4][1] == s[k + 1];
      }
    }
  }

  /** Without a `<` nothing is wrapped in a list. */
  lemma ListBlockWithoutTags(s: string)
    requires '<' !in s
    ensures ListBlock(s) == s
  {
    forall k | 0 <= k < |s| ensures s[k] != '<' {
      assert s[k] in s;
    }
    ListBlockWithoutOpenTags(s);
  }

  // ---------------------------------------------------------------------
  // Code spans
  // ---------------------------------------------------------------------

  /* The four lemmas below fix `CodeSpans` on every input: text splits
     into a backtick-free stretch, then nothing, an unclosed backtick, an
     empty pair, or a closed span followed by more text. */

  /** Text before the first backtick is copied through. */
  lemma {:induction false} CodePassthrough(u: string, v: string)
    requires '`' !in u
    ensures CodeSpans(u + v) == u + CodeSpans(v)
    decreases |u|
  {
    var s := u + v;
    if u == [] {
      assert s == v;
    } else {
      assert s[0] == u[0] && u[0] in u;
      assert s[1..] == u[1..] + v;
      assert CodeSpans(s) == [s[0]] + CodeSpans(s[1..]);
      CodePassthrough(u[1..], v);
      ConsRegroup(u, CodeSpans(v));
    }
  }

  lemma ConsRegroup(u: string, w: string)
    requires u != []
    ensures [u[0]] + (u[1..] + w) == u + w
  {
    assert u == [u[0]] + u[1..];
  }

  /** A backtick with no partner after it stays a backtick. */
  lemma CodeUnclosed(u: string)
    requires '`' !in u
    ensures CodeSpans("`" + u) == "`" + u
  {
    var s := "`" + u;
    assert s[1..] == u;
    forall k | 1 <= k
      ensures !OccursAt(s, k, "`")
    {
      if k < |s| {
        assert s[k..k + 1][0] == s[k] == u[k - 1] && u[k - 1] in u;
      }
    }
    assert IndexOf(s, "`", 1).None?;
  }

  /** Two adjacent backticks enclose nothing: the first stays, and the
      second may open the next span. */
  lemma CodeEmptyPair(rest: string)
    ensures CodeSpans("``" + rest) == "`" + CodeSpans("`" + rest)
  {
    var s := "``" + rest;
    assert s[1..2] == "`";
    assert IndexOf(s, "`", 1) == Some(1);
    assert s[1..] == "`" + rest;
  }

  /** A closed span ends at the nearest backtick, which may lie on a later
      line, and the rest of the text is processed on its own. */
  lemma CodeSpanThenRest(c: string, rest: string)
    requires '`' !in c && c != []
    ensures CodeSpans("`" + c + "`" + rest) == "<code>" + c + "</code>" + CodeSpans(rest)
  {
    var s := "`" + c + "`" + rest;
    var e := 1 + |c|;
    assert OccursAt(s, e, "`") by {
      assert s[e..e + 1] == "`";
    }
    forall k | 1 <= k < e
      ensures !OccursAt(s, k, "`")
    {
      assert s[k..k + 1][0] == s[k] == c[k - 1] && c[k - 1] in c;
    }
    assert IndexOf(s, "`", 1) == Some(e);
    assert s[1..e] == c;
    assert s[e + 1..] == rest;
  }

  // ---------------------------------------------------------------------
  // Steps 6 to 11 on text without line terminators
  // ---------------------------------------------------------------------

  /** On text with no line terminator and no backtick that starts with
      neither `#` nor a digit, the steps after the line breaks change
      nothing. */
  lemma LateStagesIdentity(x: string)
    requires NoLineTerminator(x) && '`' !in x
    requires x == [] || (x[0] != '#' && !IsDigit(x[0]))
    ensures Heading3(x) == x && Heading2(x) == x && Heading1(x) == x
    ensures Superscript(CodeSpans(NumberedItems(x))) == x
  {
    OccursAtHead(x, 0, "### ");
    LineRuleWithoutBreaks(x, true, Literal("### "), "<h3>", "</h3>");
    OccursAtHead(x, 0, "## ");
    LineRuleWithoutBreaks(x, true, Literal("## "), "<h2>", "</h2>");
    OccursAtHead(x, 0, "# ");
    LineRuleWithoutBreaks(x, true, Literal("# "), "<h1>", "</h1>");
    FinalStagesIdentity(x);
  }

  /** Numbered items, code spans and superscripts leave alone text with no
      line terminator and no backtick that does not start with a digit. */
  lemma FinalStagesIdentity(x: string)
    requires NoLineTerminator(x) && '`' !in x
    requires x == [] || !IsDigit(x[0])
    ensures Superscript(CodeSpans(NumberedItems(x))) == x
  {
    if x != [] {
      assert DigitRunEnd(x, 0) == 0;
    }
    LineRuleWithoutBreaks(x, true, Numbered, "<li>", "</li>");
    SuperscriptIdentity(x);
  }

  /** Text with no asterisk passes the first three steps untouched. */
  lemma StarFreeEarlyStages(x: string)
    requires '*' !in x
    ensures Bullets(Italic(Bold(x))) == x
  {
    LazyIdentity(x, "**", "**", "<strong>", "</strong>");
    LazyIdentity(x, "*", "*", "<em>", "</em>");
    LineRuleAbsent(x, true, "* ", "<li>", "</li>");
  }

  /** Text with no asterisk, `<` or newline passes the first five steps
      untouched. */
  lemma EarlyStagesIdentity(s: string)
    requires '*' !in s && '<' !in s && '\n' !in s
    ensures Bullets(Italic(Bold(s))) == s && ListBlock(s) == s && Breaks(s) == s
  {
    StarFreeEarlyStages(s);
    ListBlockWithoutTags(s);
  }

  /** The chain, stage by stage: whatever each stage yields, the answer is
      what the last one yields. */
  lemma FormatThroughStages(t: string, early: string, listed: string, broken: string, h3: string, h2: string, h1: string, out: string)
    requires t != []
    requires Bullets(Italic(Bold(t))) == early
    requires ListBlock(early) == listed && Breaks(listed) == broken
    requires Heading3(broken) == h3 && Heading2(h3) == h2 && Heading1(h2) == h1
    requires Superscript(CodeSpans(NumberedItems(h1))) == out
    ensures FormatAnswerText(Some(t)) == out
  {
  }
}
