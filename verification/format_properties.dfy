/**
 What `formatAnswerText` produces for whole answers: plain prose, emphasis,
 headings, numbered items, code spans and bullet lists, and what the step
 order does to headings that do not open the text.
 */
module FormatProperties {
  import opened Wrappers
  import opened Text
  import opened Markup
  import opened MarkupProperties

  /** No `<` is directly followed by `l`, so `<li>` does not occur. */
  predicate NoListOpen(s: string) {
    forall k :: 0 <= k < |s| - 1 && s[k] == '<' ==> s[k + 1] != 'l'
  }

  lemma NoListOpenConcat(a: string, b: string)
    requires NoListOpen(a) && NoListOpen(b)
    requires a == [] || a[|a| - 1] != '<'
    ensures NoListOpen(a + b)
  {
    var s := a + b;
    if a != [] {
      assert s[|a| - 1] == a[|a| - 1];
    }
    forall k | 0 <= k < |s| - 1 && s[k] == '<'
      ensures s[k + 1] != 'l'
    {
      if k + 1 < |a| {
        assert s[k] == a[k] && s[k + 1] == a[k + 1];
      } else if k + 1 > |a| {
        assert s[k] == b[k - |a|] && s[k + 1] == b[k + 1 - |a|];
      }
    }
  }

  lemma InertHasNoListOpen(c: string)
    requires Inert(c)
    ensures NoListOpen(c)
  {
    forall k | 0 <= k < |c| - 1
      ensures c[k] != '<'
    {
      assert c[k] in c;
    }
  }

  lemma InertFacts(c: string)
    requires Inert(c)
    ensures '*' !in c && '`' !in c && '#' !in c && '<' !in c && '\n' !in c
    ensures NoLineTerminator(c)
  {
  }

  /** Absent or empty text is rendered as the empty string. */
  lemma EmptyAnswer()
    ensures FormatAnswerText(None) == []
    ensures FormatAnswerText(Some([])) == []
  {
  }

  /** Prose with no asterisk, backtick, `#`, line terminator or `<li>`
      that does not open with a digit comes out exactly as it went in. */
  lemma PlainTextUnchanged(t: string)
    requires '*' !in t && '`' !in t && '#' !in t && NoLineTerminator(t)
    requires IndexOf(t, "<li>", 0).None?
    requires t == [] || !IsDigit(t[0])
    ensures FormatAnswerText(Some(t)) == t
  {
    if t != [] {
      StarFreeEarlyStages(t);
      assert '\n' !in t by {
        assert IsLineTerminator('\n');
      }
      LateStagesIdentity(t);
      FormatThroughStages(t, t, t, t, t, t, t, t);
    }
  }

  // ---------------------------------------------------------------------
  // Bold
  // ---------------------------------------------------------------------

  /** `**c**` becomes `<strong>c</strong>`. */
  lemma BoldFormatted(c: string)
    requires Inert(c)
    ensures FormatAnswerText(Some("**" + c + "**")) == "<strong>" + c + "</strong>"
  {
    var x := "<strong>" + c + "</strong>";
    EmphasisTags();
    BoldEarlyStages(c);
    TaggedLateStages("<strong>", c, "</strong>");
    FormatThroughStages("**" + c + "**", x, x, x, x, x, x, x);
  }

  lemma BoldEarlyStages(c: string)
    requires Inert(c)
    ensures var x := "<strong>" + c + "</strong>";
      Bullets(Italic(Bold("**" + c + "**"))) == x && ListBlock(x) == x && Breaks(x) == x
  {
    ItalicAfterBold(c);
    EmphasisTags();
    TaggedEarlyStages("<strong>", c, "</strong>");
  }

  /** `*c*` with non-empty inert `c` becomes `<em>c</em>`: the bold step
      finds no `**`, and the italic step pairs the two asterisks. */
  lemma ItalicFormatted(c: string)
    requires Inert(c) && c != []
    ensures FormatAnswerText(Some("*" + c + "*")) == "<em>" + c + "</em>"
  {
    var x := "<em>" + c + "</em>";
    EmphasisTags();
    ItalicEarlyStages(c);
    TaggedLateStages("<em>", c, "</em>");
    FormatThroughStages("*" + c + "*", x, x, x, x, x, x, x);
  }

  lemma ItalicEarlyStages(c: string)
    requires Inert(c) && c != []
    ensures var x := "<em>" + c + "</em>";
      Bullets(Italic(Bold("*" + c + "*"))) == x && ListBlock(x) == x && Breaks(x) == x
  {
    InertFacts(c);
    SingleStarsSkipBold(c);
    ItalicPairsNearest(c, []);
    assert "*" + c + "*" + [] == "*" + c + "*";
    assert "<em>" + c + "</em>" + [] == "<em>" + c + "</em>";
    EmphasisTags();
    TaggedEarlyStages("<em>", c, "</em>");
  }

  /** Around a non-empty span without asterisks, two single asterisks
      never form `**`, so the bold step leaves them to the italic step. */
  lemma SingleStarsSkipBold(c: string)
    requires '*' !in c && c != []
    ensures Bold("*" + c + "*") == "*" + c + "*"
  {
    var s := "*" + c + "*";
    forall k | 0 <= k
      ensures !OccursAt(s, k, "**")
    {
      if k + 2 <= |s| {
        var j := if k == 0 then 1 else k;
        assert s[j] == c[j - 1] && c[j - 1] in c;
        assert s[k..k + 2][j - k] == s[j];
      }
    }
    LazyWithoutOpen(s, "**", "**", "<strong>", "</strong>");
  }

  /** An inline tag pair: it opens with `<`, holds no asterisk, backtick,
      line terminator or `<li>`, and the opening tag does not end in `<`. */
  predicate TagPair(open: string, close: string) {
    && open != [] && open[0] == '<' && open[|open| - 1] != '<'
    && '*' !in open && '*' !in close && '`' !in open && '`' !in close
    && NoLineTerminator(open) && NoLineTerminator(close)
    && NoListOpen(open) && NoListOpen(close)
  }

  lemma EmphasisTags()
    ensures TagPair("<strong>", "</strong>") && TagPair("<em>", "</em>")
  {
    assert IsLineTerminator('\n');
  }

  /** Inert text between the tags carries no `*`, no newline and no
      `<li>`, so the bullet, list and break steps leave it alone. */
  lemma TaggedEarlyStages(open: string, c: string, close: string)
    requires TagPair(open, close) && Inert(c)
    ensures var x := open + c + close;
      Bullets(x) == x && ListBlock(x) == x && Breaks(x) == x
  {
    InertFacts(c);
    var x := open + c + close;
    assert '*' !in x;
    LineRuleAbsent(x, true, "* ", "<li>", "</li>");
    assert '\n' !in x by {
      assert IsLineTerminator('\n');
    }
    InertHasNoListOpen(c);
    NoListOpenConcat(open, c);
    var a := open + c;
    if c != [] {
      assert a[|a| - 1] == c[|c| - 1] && c[|c| - 1] in c;
    } else {
      assert a == open;
    }
    NoListOpenConcat(a, close);
    ListBlockWithoutOpenTags(x);
  }

  /** The tagged span is one line opening with `<`, without a backtick, so
      the heading, numbered-item, code and superscript steps leave it
      alone. */
  lemma TaggedLateStages(open: string, c: string, close: string)
    requires TagPair(open, close) && Inert(c)
    ensures var x := open + c + close;
      Heading3(x) == x && Heading2(x) == x && Heading1(x) == x
      && Superscript(CodeSpans(NumberedItems(x))) == x
  {
    InertFacts(c);
    var x := open + c + close;
    assert x[0] == open[0];
    LateStagesIdentity(x);
  }

  // ---------------------------------------------------------------------
  // Headings
  // ---------------------------------------------------------------------

  /** A marker line made of a literal prefix and inert text passes the
      first five steps untouched. */
  lemma MarkerLineEarlyStages(p: string, b: string)
    requires '*' !in p && '<' !in p && '\n' !in p
    requires Inert(b)
    ensures var s := p + b;
      Bullets(Italic(Bold(s))) == s && ListBlock(s) == s && Breaks(s) == s
  {
    InertFacts(b);
    EarlyStagesIdentity(p + b);
  }

  /** A heading line converted at the start of the text. */
  lemma HeadingLineMatch(p: string, b: string, open: string, close: string)
    requires |p| > 0 && NoLineTerminator(b)
    ensures LineRule(p + b, true, Literal(p), open, close) == open + b + close
  {
    assert p + b == p + b + [];
    assert OccursAt(p + b, 0, p) by {
      assert (p + b)[0..|p|] == p;
    }
    LineRuleMatch(p, b, [], Literal(p), open, close);
  }

  /** `# b` at the very start becomes a level-one heading. */
  lemma Heading1Formatted(b: string)
    requires Inert(b)
    ensures FormatAnswerText(Some("# " + b)) == "<h1>" + b + "</h1>"
  {
    var s := "# " + b;
    var y := "<h1>" + b + "</h1>";
    MarkerLineEarlyStages("# ", b);
    Heading1Stages(b);
    HeadingOutputSettled(y, b);
    FormatThroughStages(s, s, s, s, s, s, y, y);
  }

  /** Steps 6 to 8 on `# b`: only the last of them matches. */
  lemma Heading1Stages(b: string)
    requires Inert(b)
    ensures var s := "# " + b;
      Heading3(s) == s && Heading2(s) == s && Heading1(s) == "<h1>" + b + "</h1>"
  {
    var s := "# " + b;
    InertFacts(b);
    ShorterHeadingUntouched(s, 1, "### ", "<h3>", "</h3>");
    ShorterHeadingUntouched(s, 1, "## ", "<h2>", "</h2>");
    HeadingLineMatch("# ", b, "<h1>", "</h1>");
  }

  /** `## b` at the very start becomes a level-two heading. */
  lemma Heading2Formatted(b: string)
    requires Inert(b)
    ensures FormatAnswerText(Some("## " + b)) == "<h2>" + b + "</h2>"
  {
    var s := "## " + b;
    var y := "<h2>" + b + "</h2>";
    MarkerLineEarlyStages("## ", b);
    Heading2Stages(b);
    HeadingOutputSettled(y, b);
    FormatThroughStages(s, s, s, s, s, y, y, y);
  }

  /** Steps 6 and 7 on `## b`: the `###` rule does not match, the `##`
      rule does. */
  lemma Heading2Stages(b: string)
    requires Inert(b)
    ensures var s := "## " + b;
      Heading3(s) == s && Heading2(s) == "<h2>" + b + "</h2>"
  {
    var s := "## " + b;
    InertFacts(b);
    ShorterHeadingUntouched(s, 2, "### ", "<h3>", "</h3>");
    HeadingLineMatch("## ", b, "<h2>", "</h2>");
  }

  /** `### b` at the very start becomes a level-three heading. */
  lemma Heading3Formatted(b: string)
    requires Inert(b)
    ensures FormatAnswerText(Some("### " + b)) == "<h3>" + b + "</h3>"
  {
    var s := "### " + b;
    var y := "<h3>" + b + "</h3>";
    MarkerLineEarlyStages("### ", b);
    InertFacts(b);
    HeadingLineMatch("### ", b, "<h3>", "</h3>");
    HeadingOutputSettled(y, b);
    FormatThroughStages(s, s, s, s, y, y, y, y);
  }

  /** A single line that differs from the marker at position `i` is left
      alone: `### ` is tried first and does not take `# ` or `## ` lines. */
  lemma ShorterHeadingUntouched(s: string, i: nat, p: string, open: string, close: string)
    requires i < |p| && i < |s| && s[i] != p[i]
    requires NoLineTerminator(s)
    ensures LineRule(s, true, Literal(p), open, close) == s
  {
    if |p| <= |s| {
      assert s[0..|p|][i] == s[i];
    }
    LineRuleWithoutBreaks(s, true, Literal(p), open, close);
  }

  /** A finished heading, item or tag-wrapped span starts with `<` and so
      is left alone by every later step. */
  lemma HeadingOutputSettled(y: string, b: string)
    requires Inert(b)
    requires y == "<h1>" + b + "</h1>" || y == "<h2>" + b + "</h2>" || y == "<h3>" + b + "</h3>"
    ensures Heading3(y) == y && Heading2(y) == y && Heading1(y) == y
    ensures Superscript(CodeSpans(NumberedItems(y))) == y
  {
    InertFacts(b);
    LateStagesIdentity(y);
  }

  /** A heading runs to the end of the text, not of its line: the newline
      became `<br>` before the heading step, so `.*` reaches past it. */
  lemma HeadingSwallowsRest(b: string, c: string)
    requires Inert(b) && Inert(c)
    ensures FormatAnswerText(Some("# " + b + "\n" + c)) == "<h1>" + b + "<br>" + c + "</h1>"
  {
    var s := "# " + b + "\n" + c;
    var w := "# " + b + "<br>" + c;
    var y := "<h1>" + b + "<br>" + c + "</h1>";
    JoinedEarlyStages("# " + b, c);
    SwallowHeadingStages(b, c);
    InertFacts(b);
    InertFacts(c);
    BreakTagsPlain();
    JoinedSettled("<h1>", b, c, "</h1>");
    FormatThroughStages(s, s, s, w, w, w, y, y);
  }

  lemma BreakTagsPlain()
    ensures NoLineTerminator("<h1>") && NoLineTerminator("</h1>") && NoLineTerminator("<br>")
    ensures NoLineTerminator("<li>") && NoLineTerminator("</li>")
    ensures '`' !in "<h1>" && '`' !in "</h1>" && '`' !in "<br>" && '`' !in "<li>" && '`' !in "</li>"
  {
  }

  /** Two lines joined by `<br>` inside a tag pair are one line without a
      backtick that opens with `<`: the steps after the break step leave
      it alone. */
  lemma JoinedSettled(open: string, b: string, c: string, close: string)
    requires open != [] && open[0] == '<'
    requires NoLineTerminator(open) && NoLineTerminator(b) && NoLineTerminator(c) && NoLineTerminator(close)
    requires '`' !in open && '`' !in b && '`' !in c && '`' !in close
    ensures var y := open + b + "<br>" + c + close;
      && '`' !in y
      && Heading3(y) == y && Heading2(y) == y && Heading1(y) == y
      && Superscript(CodeSpans(NumberedItems(y))) == y
  {
    var y := open + b + "<br>" + c + close;
    BreakTagsPlain();
    assert y[0] == open[0];
    LateStagesIdentity(y);
  }

  /** Two inert lines: the first five steps only turn the newline into
      `<br>`. */
  lemma JoinedEarlyStages(a: string, c: string)
    requires '*' !in a && '<' !in a && NoLineTerminator(a) && Inert(c)
    ensures var s := a + "\n" + c;
      Bullets(Italic(Bold(s))) == s && ListBlock(s) == s && Breaks(s) == a + "<br>" + c
  {
    InertFacts(c);
    assert '\n' !in a by {
      assert IsLineTerminator('\n');
    }
    var s := a + "\n" + c;
    StarFreeEarlyStages(s);
    ListBlockWithoutTags(s);
    LineBreakJoins(a, c);
  }

  lemma SwallowHeadingStages(b: string, c: string)
    requires Inert(b) && Inert(c)
    ensures var w := "# " + b + "<br>" + c;
      Heading3(w) == w && Heading2(w) == w && Heading1(w) == "<h1>" + b + "<br>" + c + "</h1>"
  {
    InertFacts(b);
    InertFacts(c);
    var w := "# " + b + "<br>" + c;
    var r := b + "<br>" + c;
    SwallowRegroup("# ", b, c);
    SwallowRegroup("<h1>", b, c);
    ShorterHeadingUntouched(w, 1, "### ", "<h3>", "</h3>");
    ShorterHeadingUntouched(w, 1, "## ", "<h2>", "</h2>");
    HeadingLineMatch("# ", r, "<h1>", "</h1>");
  }

  /** A newline between two texts without one becomes `<br>`. */
  lemma LineBreakJoins(a: string, c: string)
    requires '\n' !in a && '\n' !in c
    ensures Breaks(a + "\n" + c) == a + "<br>" + c
  {
    BreakBetween(a, c);
    assert a + "\n" + c == a + ("\n" + c);
    assert a + ("<br>" + c) == a + "<br>" + c;
  }

  lemma SwallowRegroup(p: string, b: string, c: string)
    ensures p + b + "<br>" + c == p + (b + "<br>" + c)
    ensures p + (b + "<br>" + c) + "</h1>" == p + b + "<br>" + c + "</h1>"
  {
  }

  /** A heading marker after a line break is not converted: the break
      became `<br>` first, so `^` no longer holds there. */
  lemma HeadingAfterBreakStaysLiteral(a: string, b: string)
    requires Inert(a) && Inert(b)
    requires a == [] || !IsDigit(a[0])
    ensures FormatAnswerText(Some(a + "\n# " + b)) == a + "<br># " + b
  {
    var s := a + "\n# " + b;
    var x := a + "<br># " + b;
    BreakEarlyStages(a, b);
    BreakLateStages(a, b);
    FormatThroughStages(s, s, s, x, x, x, x, x);
  }

  lemma BreakEarlyStages(a: string, b: string)
    requires Inert(a) && Inert(b)
    ensures var s := a + "\n# " + b;
      Bullets(Italic(Bold(s))) == s && ListBlock(s) == s && Breaks(s) == a + "<br># " + b
  {
    InertFacts(a);
    InertFacts(b);
    var s := a + "\n# " + b;
    StarFreeEarlyStages(s);
    ListBlockWithoutTags(s);
    BreakBecomesTag(a, b);
  }

  lemma BreakBecomesTag(a: string, b: string)
    requires '\n' !in a && '\n' !in b
    ensures Breaks(a + "\n# " + b) == a + "<br># " + b
  {
    var w := "# " + b;
    assert '\n' !in w;
    BreakBetween(a, w);
    HeadingAfterBreakRegroup(a, b);
  }

  /** A newline between two newline-free texts becomes `<br>`. */
  lemma BreakBetween(a: string, w: string)
    requires '\n' !in a && '\n' !in w
    ensures Breaks(a + ("\n" + w)) == a + ("<br>" + w)
  {
    BreaksAppend(a, "\n" + w);
    NewlineBecomesTag(w);
  }

  lemma HeadingAfterBreakRegroup(a: string, b: string)
    ensures a + "\n# " + b == a + ("\n" + ("# " + b))
    ensures a + ("<br>" + ("# " + b)) == a + "<br># " + b
  {
  }

  lemma NewlineBecomesTag(w: string)
    requires '\n' !in w
    ensures Breaks("\n" + w) == "<br>" + w
  {
    assert ("\n" + w)[0] == '\n';
    assert ("\n" + w)[1..] == w;
  }

  lemma BreakLateStages(a: string, b: string)
    requires Inert(a) && Inert(b)
    requires a == [] || !IsDigit(a[0])
    ensures var x := a + "<br># " + b;
      Heading3(x) == x && Heading2(x) == x && Heading1(x) == x
      && Superscript(CodeSpans(NumberedItems(x))) == x
  {
    InertFacts(a);
    InertFacts(b);
    var x := a + "<br># " + b;
    if a != [] {
      assert x[0] == a[0] && a[0] in a;
    }
    LateStagesIdentity(x);
  }

  // ---------------------------------------------------------------------
  // Numbered items
  // ---------------------------------------------------------------------

  /** `<digits>. b` at the very start becomes a bare list item; the
      number is dropped. */
  lemma NumberedItemFormatted(d: string, b: string)
    requires |d| > 0 && forall k :: 0 <= k < |d| ==> IsDigit(d[k])
    requires Inert(b)
    ensures FormatAnswerText(Some(d + ". " + b)) == "<li>" + b + "</li>"
  {
    var s := d + ". " + b;
    var y := "<li>" + b + "</li>";
    NumberedEarlyStages(d, b);
    InertFacts(b);
    NumberedMatch(d, b);
    ItemSettled(b);
    FormatThroughStages(s, s, s, s, s, s, s, y);
  }

  /** A numbered item also runs to the end of the text: the next numbered
      line, now behind a `<br>`, is taken into the same item. */
  lemma NumberedItemSwallowsRest(d: string, b: string, c: string)
    requires |d| > 0 && forall k :: 0 <= k < |d| ==> IsDigit(d[k])
    requires Inert(b) && Inert(c)
    ensures FormatAnswerText(Some(d + ". " + b + "\n" + c)) == "<li>" + b + "<br>" + c + "</li>"
  {
    var s := d + ". " + b + "\n" + c;
    var w := d + ". " + b + "<br>" + c;
    var y := "<li>" + b + "<br>" + c + "</li>";
    InertFacts(b);
    DigitsAreInert(d);
    assert NoLineTerminator(d + ". " + b) by {
      forall k | 0 <= k < |d| ensures IsDigit(d[k]) {}
    }
    JoinedEarlyStages(d + ". " + b, c);
    SwallowItemStages(d, b, c);
    InertFacts(c);
    BreakTagsPlain();
    JoinedSettled("<li>", b, c, "</li>");
    SuperscriptIdentity(y);
    FormatThroughStages(s, s, s, w, w, w, w, y);
  }

  lemma SwallowItemStages(d: string, b: string, c: string)
    requires |d| > 0 && forall k :: 0 <= k < |d| ==> IsDigit(d[k])
    requires Inert(b) && Inert(c)
    ensures var w := d + ". " + b + "<br>" + c;
      Heading3(w) == w && Heading2(w) == w && Heading1(w) == w
      && NumberedItems(w) == "<li>" + b + "<br>" + c + "</li>"
  {
    InertFacts(b);
    InertFacts(c);
    DigitsAreInert(d);
    var w := d + ". " + b + "<br>" + c;
    ItemRegroup(d + ". ", b, c);
    ItemRegroup("<li>", b, c);
    assert '#' !in w;
    LineRuleAbsent(w, true, "### ", "<h3>", "</h3>");
    LineRuleAbsent(w, true, "## ", "<h2>", "</h2>");
    LineRuleAbsent(w, true, "# ", "<h1>", "</h1>");
    NumberedMatch(d, b + "<br>" + c);
  }

  lemma ItemRegroup(p: string, b: string, c: string)
    ensures p + b + "<br>" + c == p + (b + "<br>" + c)
    ensures p + (b + "<br>" + c) + "</li>" == p + b + "<br>" + c + "</li>"
  {
  }

  /** A finished item has no backtick and its `<sup>` step is the identity. */
  lemma ItemSettled(b: string)
    requires Inert(b)
    ensures var y := "<li>" + b + "</li>"; Superscript(CodeSpans(y)) == y
  {
    var y := "<li>" + b + "</li>";
    InertFacts(b);
    assert '`' !in y;
    SuperscriptIdentity(y);
  }

  lemma DigitsAreInert(d: string)
    requires forall k :: 0 <= k < |d| ==> IsDigit(d[k])
    ensures '*' !in d && '<' !in d && '\n' !in d && '#' !in d
  {
    forall k | 0 <= k < |d| ensures IsDigit(d[k]) {}
  }

  lemma NumberedEarlyStages(d: string, b: string)
    requires forall k :: 0 <= k < |d| ==> IsDigit(d[k])
    requires Inert(b)
    ensures var s := d + ". " + b;
      && Bullets(Italic(Bold(s))) == s && ListBlock(s) == s && Breaks(s) == s
      && Heading3(s) == s && Heading2(s) == s && Heading1(s) == s
  {
    InertFacts(b);
    DigitsAreInert(d);
    var s := d + ". " + b;
    EarlyStagesIdentity(s);
    assert '#' !in s;
    LineRuleAbsent(s, true, "### ", "<h3>", "</h3>");
    LineRuleAbsent(s, true, "## ", "<h2>", "</h2>");
    LineRuleAbsent(s, true, "# ", "<h1>", "</h1>");
  }

  lemma NumberedMatch(d: string, b: string)
    requires |d| > 0 && forall k :: 0 <= k < |d| ==> IsDigit(d[k])
    requires NoLineTerminator(b)
    ensures NumberedItems(d + ". " + b) == "<li>" + b + "</li>"
  {
    var s := d + ". " + b;
    forall k | 0 <= k < |d| ensures IsDigit(s[k]) {
      assert s[k] == d[k];
    }
    assert s[|d|] == '.';
    assert DigitRunEnd(s, 0) == |d|;
    assert s[|d|..|d| + 2] == ". ";
    assert s == (d + ". ") + b + [];
    LineRuleMatch(d + ". ", b, [], Numbered, "<li>", "</li>");
  }

  // ---------------------------------------------------------------------
  // Code spans
  // ---------------------------------------------------------------------

  /** `` `c` `` becomes `<code>c</code>`. */
  lemma CodeFormatted(c: string)
    requires Inert(c) && c != []
    ensures FormatAnswerText(Some("`" + c + "`")) == "<code>" + c + "</code>"
  {
    var s := "`" + c + "`";
    var y := "<code>" + c + "</code>";
    CodeInsideText([], c, []);
    WithoutSurroundings(s, "`", c, "`");
    WithoutSurroundings(y, "<code>", c, "</code>");
  }

  lemma WithoutSurroundings(s: string, o: string, c: string, e: string)
    requires s == o + c + e
    ensures [] + o + c + e + [] == s
  {
  }

  /** A span in the middle of a line is replaced where it stands; the
      prose on either side is kept. */
  lemma CodeInsideText(a: string, c: string, b: string)
    requires Inert(a) && Inert(c) && Inert(b) && c != []
    requires a == [] || !IsDigit(a[0])
    ensures FormatAnswerText(Some(a + "`" + c + "`" + b)) == a + "<code>" + c + "</code>" + b
  {
    var s := a + "`" + c + "`" + b;
    var y := a + "<code>" + c + "</code>" + b;
    CodeEarlyStages(a, c, b);
    CodeMatch(a, c, b);
    SuperscriptIdentity(y);
    FormatThroughStages(s, s, s, s, s, s, s, y);
  }

  lemma CodeEarlyStages(a: string, c: string, b: string)
    requires Inert(a) && Inert(c) && Inert(b)
    requires a == [] || !IsDigit(a[0])
    ensures var s := a + "`" + c + "`" + b;
      && Bullets(Italic(Bold(s))) == s && ListBlock(s) == s && Breaks(s) == s
      && Heading3(s) == s && Heading2(s) == s && Heading1(s) == s
      && NumberedItems(s) == s
  {
    InertFacts(a);
    InertFacts(c);
    InertFacts(b);
    var s := a + "`" + c + "`" + b;
    if a != [] {
      assert s[0] == a[0];
    }
    OneLineEarlyStages(s);
  }

  /** One line with no asterisk, `<`, `#` or leading digit goes through
      every step before the code step unchanged. */
  lemma OneLineEarlyStages(s: string)
    requires '*' !in s && '<' !in s && '#' !in s && NoLineTerminator(s)
    requires s == [] || !IsDigit(s[0])
    ensures Bullets(Italic(Bold(s))) == s && ListBlock(s) == s && Breaks(s) == s
    ensures Heading3(s) == s && Heading2(s) == s && Heading1(s) == s
    ensures NumberedItems(s) == s
  {
    assert '\n' !in s by {
      assert IsLineTerminator('\n');
    }
    EarlyStagesIdentity(s);
    LineRuleAbsent(s, true, "### ", "<h3>", "</h3>");
    LineRuleAbsent(s, true, "## ", "<h2>", "</h2>");
    LineRuleAbsent(s, true, "# ", "<h1>", "</h1>");
    assert DigitRunEnd(s, 0) == 0;
    LineRuleWithoutBreaks(s, true, Numbered, "<li>", "</li>");
  }

  lemma CodeMatch(a: string, c: string, b: string)
    requires Inert(a) && Inert(c) && Inert(b) && c != []
    ensures CodeSpans(a + "`" + c + "`" + b) == a + "<code>" + c + "</code>" + b
  {
    InertFacts(a);
    InertFacts(c);
    InertFacts(b);
    var rest := "`" + c + "`" + b;
    assert a + "`" + c + "`" + b == a + rest;
    CodePassthrough(a, rest);
    CodeSpanThenRest(c, b);
    RegroupFive(a, "<code>", c, "</code>", b);
  }

  lemma RegroupFive(a: string, o: string, c: string, e: string, b: string)
    ensures a + (o + c + e + b) == a + o + c + e + b
  {
  }
}
