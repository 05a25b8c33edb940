/**
 Bullet lists through `formatAnswerText`. An answer is modelled as lines,
 each a `* ` bullet or a plain line. When the first and the last line are
 bullets, the whole answer becomes one `<ul>`: every bullet an `<li>`, the
 plain lines between them carried along, and every newline a `<br>`.
 */
module BulletLists {
  import opened Wrappers
  import opened Text
  import opened Markup
  import opened MarkupProperties

  /** One line of an answer. */
  datatype Line = Item(text: string) | Para(text: string)

  /** The line as it appears in the answer text. */
  function SourceLine(l: Line): string {
    match l
    case Item(x) => "* " + x
    case Para(x) => x
  }

  /** The line as the list step leaves it. */
  function HtmlLine(l: Line): string {
    match l
    case Item(x) => "<li>" + x + "</li>"
    case Para(x) => x
  }

  /** The answer text: the lines joined by newlines. */
  function SourceText(lines: seq<Line>): string
    requires |lines| > 0
    decreases |lines|
  {
    SourceLine(lines[0]) + SourceTail(lines)
  }

  /** Everything after the first line, from its newline on. */
  function SourceTail(lines: seq<Line>): string
    requires |lines| > 0
    decreases |lines|, 0
  {
    if |lines| == 1 then [] else "\n" + SourceText(lines[1..])
  }

  /** The rendered lines joined by `sep`. */
  function HtmlText(lines: seq<Line>, sep: string): string
    requires |lines| > 0
    decreases |lines|
  {
    HtmlLine(lines[0]) + HtmlTail(lines, sep)
  }

  function HtmlTail(lines: seq<Line>, sep: string): string
    requires |lines| > 0
    decreases |lines|, 0
  {
    if |lines| == 1 then [] else sep + HtmlText(lines[1..], sep)
  }

  predicate InertLines(lines: seq<Line>) {
    forall k :: 0 <= k < |lines| ==> Inert(lines[k].text)
  }

  /** An answer that opens and closes with a bullet and whose lines carry
      no markup of their own. */
  predicate BulletDocument(lines: seq<Line>) {
    && |lines| > 0
    && lines[0].Item? && lines[|lines| - 1].Item?
    && InertLines(lines)
  }

  lemma InertHead(lines: seq<Line>)
    requires |lines| > 0 && InertLines(lines)
    ensures Inert(lines[0].text)
  {
  }

  lemma InertTail(lines: seq<Line>)
    requires |lines| > 1 && InertLines(lines)
    ensures InertLines(lines[1..])
  {
    forall k | 0 <= k < |lines| - 1 ensures Inert(lines[1..][k].text) {
      assert lines[1..][k] == lines[k + 1];
    }
  }

  /** What follows a line is empty or starts with its newline. */
  lemma TailStartsWithBreak(lines: seq<Line>)
    requires |lines| > 0
    ensures SourceTail(lines) == [] || SourceTail(lines)[0] == '\n'
    ensures |lines| > 1 ==> SourceTail(lines) == ['\n'] + SourceText(lines[1..])
  {
  }

  // ---------------------------------------------------------------------
  // Steps 1 and 2: no emphasis spans across bullet lines
  // ---------------------------------------------------------------------

  /** A bullet line with inert text: its only asterisk is the first
      character and it holds no line terminator. */
  lemma BulletLineShape(x: string)
    requires Inert(x)
    ensures var u := "* " + x;
      |u| >= 2 && u[0] == '*' && NoLineTerminator(u)
      && forall k :: 1 <= k < |u| ==> u[k] != '*'
  {
    var u := "* " + x;
    forall k | 2 <= k < |u| ensures u[k] == x[k - 2] && x[k - 2] in x {}
    assert u[1] == ' ';
  }

  /** One line, followed by its newline or nothing, passes a `*`-delimited
      lazy step unchanged. */
  lemma StarStepKeepsLine(l: Line, v: string, open: string, close: string, newOpen: string, newClose: string)
    requires Inert(l.text)
    requires 0 < |open| <= 2 && |close| > 0 && open[0] == '*' && close[0] == '*'
    requires v == [] || v[0] == '\n'
    ensures LazySpans(SourceLine(l) + v, open, close, newOpen, newClose) == SourceLine(l) + LazySpans(v, open, close, newOpen, newClose)
  {
    match l
    case Item(x) =>
      BulletLineShape(x);
      LazySkipsUnclosedLine("* " + x, v, open, close, newOpen, newClose);
    case Para(x) =>
      LazyPassthrough(x, v, open, close, newOpen, newClose);
  }

  /** A bullet's `* ` never opens an emphasis span: the line holds no
      other asterisk and `.` does not reach the next line. */
  lemma {:induction false} StarStepsKeepLines(lines: seq<Line>, open: string, close: string, newOpen: string, newClose: string)
    requires |lines| > 0 && InertLines(lines)
    requires 0 < |open| <= 2 && |close| > 0 && open[0] == '*' && close[0] == '*'
    ensures LazySpans(SourceText(lines), open, close, newOpen, newClose) == SourceText(lines)
    decreases |lines|
  {
    InertHead(lines);
    TailStartsWithBreak(lines);
    var v := SourceTail(lines);
    StarStepKeepsLine(lines[0], v, open, close, newOpen, newClose);
    if |lines| > 1 {
      InertTail(lines);
      StarStepsKeepLines(lines[1..], open, close, newOpen, newClose);
      LazyPassthrough("\n", SourceText(lines[1..]), open, close, newOpen, newClose);
    }
  }

  // ---------------------------------------------------------------------
  // Step 3: every bullet line becomes an item
  // ---------------------------------------------------------------------

  /** Right before a newline, or at the end, it makes no difference
      whether `^` holds. */
  lemma BulletRuleAtBreak(v: string)
    requires v == [] || v[0] == '\n'
    ensures LineRule(v, true, Literal("* "), "<li>", "</li>") == LineRule(v, false, Literal("* "), "<li>", "</li>")
  {
    if v != [] {
      OccursAtHead(v, 0, "* ");
      assert v == [v[0]] + v[1..];
      LineRuleAfterBreak(v[0], v[1..], true, Literal("* "), "<li>", "</li>");
      LineRuleAfterBreak(v[0], v[1..], false, Literal("* "), "<li>", "</li>");
    }
  }

  /** One line at a line start: a bullet becomes an item, a plain line
      stays. */
  lemma BulletRuleOnLine(l: Line, v: string)
    requires Inert(l.text)
    requires v == [] || v[0] == '\n'
    ensures LineRule(SourceLine(l) + v, true, Literal("* "), "<li>", "</li>")
      == HtmlLine(l) + LineRule(v, false, Literal("* "), "<li>", "</li>")
  {
    var m := Literal("* ");
    match l
    case Item(x) =>
      assert OccursAt("* " + x + v, 0, "* ") by {
        assert ("* " + x + v)[0..2] == "* ";
      }
      LineRuleMatch("* ", x, v, m, "<li>", "</li>");
    case Para(x) =>
      if x != [] {
        OccursAtHead(x + v, 0, "* ");
        assert (x + v)[0] == x[0] && x[0] in x;
        LineRulePassthrough(x, v, true, m, "<li>", "</li>");
      } else {
        assert x + v == v;
        BulletRuleAtBreak(v);
      }
  }

  /** Every `* ` line becomes `<li>…</li>`; plain lines stay as they are. */
  lemma {:induction false} BulletsMarkItems(lines: seq<Line>)
    requires |lines| > 0 && InertLines(lines)
    ensures LineRule(SourceText(lines), true, Literal("* "), "<li>", "</li>") == HtmlText(lines, "\n")
    decreases |lines|
  {
    InertHead(lines);
    TailStartsWithBreak(lines);
    BulletRuleOnLine(lines[0], SourceTail(lines));
    if |lines| > 1 {
      InertTail(lines);
      BulletsMarkItems(lines[1..]);
      LineRuleAfterBreak('\n', SourceText(lines[1..]), false, Literal("* "), "<li>", "</li>");
    }
  }

  // ---------------------------------------------------------------------
  // Step 4: one `<ul>` around everything from the first item to the last
  // ---------------------------------------------------------------------

  /** Every `<` in `a` is followed, inside `a`, by something other than
      `/`, so `</li>` cannot start in `a`. */
  predicate NoCloseTagIn(a: string) {
    forall k :: 0 <= k < |a| && a[k] == '<' ==> k + 1 < |a| && a[k + 1] != '/'
  }

  /** Splitting at `</li>` peels off the piece before the first one. */
  lemma SplitAtFirstClose(a: string, b: string)
    requires NoCloseTagIn(a)
    ensures Split(a + "</li>" + b, "</li>") == [a] + Split(b, "</li>")
  {
    var s := a + "</li>" + b;
    assert OccursAt(s, |a|, "</li>") by {
      assert s[|a|..|a| + 5] == "</li>";
    }
    forall k | 0 <= k < |a|
      ensures !OccursAt(s, k, "</li>")
    {
      assert s[k] == a[k];
      if k + 1 < |a| {
        assert s[k + 1] == a[k + 1];
      }
      if k + 5 <= |s| {
        assert s[k..k + 5][0] == s[k] && s[k..k + 5][1] == s[k + 1];
      }
    }
    assert IndexOf(s, "</li>", 0) == Some(|a|);
    assert s[..|a|] == a;
    assert s[|a| + 5..] == b;
  }

  lemma CloseItemsEmpty()
    ensures CloseItems([]) == []
  {
    assert IndexOf([], "</li>", 0).None?;
    assert Split([], "</li>") == [[]];
    assert IsBlank([]);
    assert NonBlank([[]]) == [];
  }

  /** A piece that is not blank is kept, closed again, and the rest is
      handled the same way. */
  lemma CloseItemsPeel(a: string, b: string)
    requires NoCloseTagIn(a) && !IsBlank(a)
    ensures CloseItems(a + "</li>" + b) == a + "</li>" + CloseItems(b)
  {
    SplitAtFirstClose(a, b);
    var p := Split(b, "</li>");
    assert ([a] + p)[1..] == p;
    assert NonBlank([a] + p) == [a] + NonBlank(p);
    var q := NonBlank(p);
    assert ([a] + q)[1..] == q;
  }

  /** The piece before an item's `</li>`: what came before it in the
      match, then `<li>` and the item's text. */
  lemma ItemPieceFacts(pre: string, x: string)
    requires '<' !in pre && Inert(x)
    ensures NoCloseTagIn(pre + "<li>" + x)
    ensures !IsBlank(pre + "<li>" + x)
  {
    var a := pre + "<li>" + x;
    forall k | 0 <= k < |a|
      ensures a[k] == '<' ==> k == |pre|
    {
      if k < |pre| {
        assert a[k] == pre[k] && pre[k] in pre;
      } else if k >= |pre| + 4 {
        assert a[k] == x[k - |pre| - 4] && x[k - |pre| - 4] in x;
      }
    }
    assert a[|pre| + 1] == 'l';
    assert a[|pre|] == '<' && !IsWhitespace('<');
  }

  lemma ItemSplitsAtClose(pre: string, lines: seq<Line>)
    requires |lines| > 0 && lines[0].Item?
    ensures pre + HtmlText(lines, "\n") == (pre + "<li>" + lines[0].text) + "</li>" + HtmlTail(lines, "\n")
  {
  }

  lemma ParaJoinsNext(pre: string, lines: seq<Line>)
    requires |lines| > 0 && lines[0].Para? && lines[|lines| - 1].Item?
    ensures |lines| > 1
    ensures pre + HtmlText(lines, "\n") == (pre + lines[0].text + "\n") + HtmlText(lines[1..], "\n")
  {
    assert lines[0] != lines[|lines| - 1];
    var r := HtmlText(lines[1..], "\n");
    assert HtmlText(lines, "\n") == lines[0].text + ("\n" + r);
    Regroup(pre, lines[0].text, "\n", r);
  }

  lemma Regroup(a: string, b: string, c: string, d: string)
    ensures a + (b + (c + d)) == (a + b + c) + d
  {
  }

  /** The list body comes back unchanged: only the empty piece after the
      final `</li>` is dropped, and every other piece gets its `</li>`
      back. `pre` is what precedes the lines in the match. */
  lemma {:induction false} CloseItemsKeepLines(pre: string, lines: seq<Line>)
    requires '<' !in pre
    requires |lines| > 0 && lines[|lines| - 1].Item? && InertLines(lines)
    ensures CloseItems(pre + HtmlText(lines, "\n")) == pre + HtmlText(lines, "\n")
    decreases |lines|
  {
    InertHead(lines);
    if lines[0].Item? {
      if |lines| > 1 {
        InertTail(lines);
        CloseItemsKeepLines("\n", lines[1..]);
      }
      CloseItemsAtItem(pre, lines);
    } else {
      var pre' := pre + lines[0].text + "\n";
      InertTail(lines);
      CloseItemsKeepLines(pre', lines[1..]);
      ParaJoinsNext(pre, lines);
    }
  }

  /** The step of the induction at an item line. */
  lemma CloseItemsAtItem(pre: string, lines: seq<Line>)
    requires '<' !in pre && |lines| > 0 && lines[0].Item? && Inert(lines[0].text)
    requires |lines| > 1 ==> CloseItems("\n" + HtmlText(lines[1..], "\n")) == "\n" + HtmlText(lines[1..], "\n")
    ensures CloseItems(pre + HtmlText(lines, "\n")) == pre + HtmlText(lines, "\n")
  {
    var a := pre + "<li>" + lines[0].text;
    ItemPieceFacts(pre, lines[0].text);
    ItemSplitsAtClose(pre, lines);
    CloseItemsPeel(a, HtmlTail(lines, "\n"));
    if |lines| == 1 {
      CloseItemsEmpty();
    }
  }

  lemma {:induction false} HtmlTextEnds(lines: seq<Line>, sep: string)
    requires |lines| > 0
    ensures var t := HtmlText(lines, sep); var l := HtmlLine(lines[|lines| - 1]);
      |l| <= |t| && t[|t| - |l|..] == l
    decreases |lines|
  {
    var t := HtmlText(lines, sep);
    var l := HtmlLine(lines[|lines| - 1]);
    if |lines| > 1 {
      HtmlTextEnds(lines[1..], sep);
      assert lines[1..][|lines| - 2] == lines[|lines| - 1];
      var r := HtmlText(lines[1..], sep);
      assert HtmlTail(lines, sep) == sep + r;
      assert t == HtmlLine(lines[0]) + (sep + r);
      SuffixOfAppend(HtmlLine(lines[0]), sep, r, l);
    } else {
      assert t == HtmlLine(lines[0]) + [];
    }
  }

  lemma SuffixOfAppend(x: string, y: string, r: string, l: string)
    requires |l| <= |r| && r[|r| - |l|..] == l
    ensures var t := x + (y + r); |l| <= |t| && t[|t| - |l|..] == l
  {
    var t := x + (y + r);
    assert t[|t| - |l|..] == r[|r| - |l|..];
  }

  /** The text of a bullet document opens with `<li>` and closes with
      `</li>`. */
  lemma ItemBounds(lines: seq<Line>)
    requires |lines| > 0 && lines[0].Item? && lines[|lines| - 1].Item?
    ensures var t := HtmlText(lines, "\n");
      |t| >= 9 && t[..4] == "<li>" && t[|t| - 5..] == "</li>"
  {
    var t := HtmlText(lines, "\n");
    HtmlTextEnds(lines, "\n");
    var first := HtmlLine(lines[0]);
    var last := HtmlLine(lines[|lines| - 1]);
    assert t[..4] == first[..4] == "<li>";
    assert last[|last| - 5..] == "</li>";
    assert t[|t| - 5..] == t[|t| - |last|..][|last| - 5..];
  }

  lemma FirstOpenAtStart(t: string)
    requires |t| >= 4 && t[..4] == "<li>"
    ensures IndexOf(t, "<li>", 0) == Some(0)
  {
    assert OccursAt(t, 0, "<li>");
  }

  lemma LastCloseAtEnd(t: string)
    requires |t| >= 5 && t[|t| - 5..] == "</li>"
    ensures LastIndexOf(t, "</li>", |t| + 1) == Some(|t| - 5)
  {
    var r := LastIndexOf(t, "</li>", |t| + 1);
    assert OccursAt(t, |t| - 5, "</li>");
    assert r.Some?;
    assert OccursAt(t, r.value, "</li>");
    assert r.value + 5 <= |t|;
  }

  /** When the first `<li>` opens the text and the last `</li>` closes it,
      the one greedy match is the whole text. */
  lemma WholeTextIsTheMatch(t: string)
    requires |t| >= 9
    requires IndexOf(t, "<li>", 0) == Some(0)
    requires LastIndexOf(t, "</li>", |t| + 1) == Some(|t| - 5)
    ensures ListBlock(t) == WrapList(t)
  {
    WholeMatch(t, IndexOf(t, "<li>", 0), LastIndexOf(t, "</li>", |t| + 1));
  }

  lemma WholeMatch(t: string, first: Option<nat>, last: Option<nat>)
    requires |t| >= 9 && first == Some(0) && last == Some(|t| - 5)
    ensures ListMatch(t, first, last) == WrapList(t)
  {
    assert t[0..|t|] == t && t[..0] == [] && t[|t|..] == [];
  }

  /** A bullet document's rendered lines are wrapped in exactly one `<ul>`. */
  lemma ListWrapsWholeText(lines: seq<Line>)
    requires BulletDocument(lines)
    ensures ListBlock(HtmlText(lines, "\n")) == "<ul>" + HtmlText(lines, "\n") + "</ul>"
  {
    var t := HtmlText(lines, "\n");
    ItemBounds(lines);
    FirstOpenAtStart(t);
    LastCloseAtEnd(t);
    WholeTextIsTheMatch(t);
    CloseItemsKeepLines([], lines);
    assert [] + t == t;
  }

  // ---------------------------------------------------------------------
  // Step 5 onwards
  // ---------------------------------------------------------------------

  lemma HtmlLinePlain(l: Line)
    requires Inert(l.text)
    ensures '\n' !in HtmlLine(l) && NoLineTerminator(HtmlLine(l)) && '`' !in HtmlLine(l)
  {
  }

  lemma {:induction false} NewlinesBecomeBreaks(lines: seq<Line>)
    requires |lines| > 0 && InertLines(lines)
    ensures Breaks(HtmlText(lines, "\n")) == HtmlText(lines, "<br>")
    decreases |lines|
  {
    InertHead(lines);
    HtmlLinePlain(lines[0]);
    var l := HtmlLine(lines[0]);
    BreaksAppend(l, HtmlTail(lines, "\n"));
    if |lines| > 1 {
      InertTail(lines);
      NewlinesBecomeBreaks(lines[1..]);
      BreaksAppend("\n", HtmlText(lines[1..], "\n"));
      assert Breaks("\n") == "<br>";
    }
  }

  lemma {:induction false} RenderedLinesPlain(lines: seq<Line>)
    requires |lines| > 0 && InertLines(lines)
    ensures NoLineTerminator(HtmlText(lines, "<br>")) && '`' !in HtmlText(lines, "<br>")
    decreases |lines|
  {
    InertHead(lines);
    HtmlLinePlain(lines[0]);
    if |lines| > 1 {
      InertTail(lines);
      RenderedLinesPlain(lines[1..]);
    }
  }

  lemma WrapPlain(h: string)
    requires NoLineTerminator(h) && '`' !in h
    ensures NoLineTerminator("<ul>" + h + "</ul>") && '`' !in "<ul>" + h + "</ul>"
  {
  }

  /** The list's HTML starts with `<`, so no later step touches it. */
  lemma ListSettled(lines: seq<Line>)
    requires |lines| > 0 && InertLines(lines)
    ensures var x := "<ul>" + HtmlText(lines, "<br>") + "</ul>";
      Heading3(x) == x && Heading2(x) == x && Heading1(x) == x
      && Superscript(CodeSpans(NumberedItems(x))) == x
  {
    RenderedLinesPlain(lines);
    WrapPlain(HtmlText(lines, "<br>"));
    LateStagesIdentity("<ul>" + HtmlText(lines, "<br>") + "</ul>");
  }

  lemma BreaksInsideList(t: string, t': string)
    requires Breaks(t) == t'
    ensures Breaks("<ul>" + t + "</ul>") == "<ul>" + t' + "</ul>"
  {
    BreaksAppend("<ul>", t + "</ul>");
    BreaksAppend(t, "</ul>");
    assert "<ul>" + t + "</ul>" == "<ul>" + (t + "</ul>");
    assert "<ul>" + t' + "</ul>" == "<ul>" + (t' + "</ul>");
  }

  lemma ListBreaks(lines: seq<Line>)
    requires |lines| > 0 && InertLines(lines)
    ensures Breaks("<ul>" + HtmlText(lines, "\n") + "</ul>") == "<ul>" + HtmlText(lines, "<br>") + "</ul>"
  {
    NewlinesBecomeBreaks(lines);
    BreaksInsideList(HtmlText(lines, "\n"), HtmlText(lines, "<br>"));
  }

  // ---------------------------------------------------------------------
  // The whole chain
  // ---------------------------------------------------------------------

  /** An answer that opens and closes with a bullet becomes a single
      `<ul>` holding every line, bullets as items, newlines as `<br>`. */
  lemma BulletListFormatted(lines: seq<Line>)
    requires BulletDocument(lines)
    ensures FormatAnswerText(Some(SourceText(lines))) == "<ul>" + HtmlText(lines, "<br>") + "</ul>"
  {
    var s := SourceText(lines);
    var t := HtmlText(lines, "\n");
    var w := "<ul>" + t + "</ul>";
    var x := "<ul>" + HtmlText(lines, "<br>") + "</ul>";
    EarlyListStages(lines);
    ListBreaks(lines);
    ListSettled(lines);
    assert |SourceLine(lines[0])| >= 2;
    FormatThroughStages(s, t, w, x, x, x, x, x);
  }

  lemma EarlyListStages(lines: seq<Line>)
    requires BulletDocument(lines)
    ensures Bullets(Italic(Bold(SourceText(lines)))) == HtmlText(lines, "\n")
    ensures ListBlock(HtmlText(lines, "\n")) == "<ul>" + HtmlText(lines, "\n") + "</ul>"
  {
    StarStepsKeepLines(lines, "**", "**", "<strong>", "</strong>");
    StarStepsKeepLines(lines, "*", "*", "<em>", "</em>");
    BulletsMarkItems(lines);
    ListWrapsWholeText(lines);
  }

  /** A one-line document is that line. */
  lemma OneLine(l: Line, sep: string)
    ensures SourceText([l]) == SourceLine(l) && HtmlText([l], sep) == HtmlLine(l)
  {
    assert SourceText([l]) == SourceLine(l) + [];
    assert HtmlText([l], sep) == HtmlLine(l) + [];
  }

  /** A line in front of a document is joined to it by a newline, and its
      rendering by `sep`. */
  lemma ConsLine(l: Line, rest: seq<Line>, sep: string)
    requires |rest| > 0
    ensures SourceText([l] + rest) == SourceLine(l) + "\n" + SourceText(rest)
    ensures HtmlText([l] + rest, sep) == HtmlLine(l) + sep + HtmlText(rest, sep)
  {
    assert ([l] + rest)[1..] == rest;
  }

  /** Two bullet lines become one list of two items. */
  lemma TwoItemList(a: string, b: string)
    requires Inert(a) && Inert(b)
    ensures FormatAnswerText(Some("* " + a + "\n* " + b))
      == "<ul><li>" + a + "</li><br><li>" + b + "</li></ul>"
  {
    var lines := TwoItemLines(a, b);
    BulletListFormatted(lines);
  }

  lemma TwoItemLines(a: string, b: string) returns (lines: seq<Line>)
    requires Inert(a) && Inert(b)
    ensures BulletDocument(lines)
    ensures SourceText(lines) == "* " + a + "\n* " + b
    ensures "<ul>" + HtmlText(lines, "<br>") + "</ul>" == "<ul><li>" + a + "</li><br><li>" + b + "</li></ul>"
  {
    lines := [Item(a)] + [Item(b)];
    OneLine(Item(b), "<br>");
    ConsLine(Item(a), [Item(b)], "<br>");
    InertOne(Item(b));
    InertCons(Item(a), [Item(b)]);
    TwoItemRegroup(a, b);
  }

  lemma TwoItemRegroup(a: string, b: string)
    ensures "* " + a + "\n" + ("* " + b) == "* " + a + "\n* " + b
    ensures "<ul>" + ("<li>" + a + "</li>" + "<br>" + ("<li>" + b + "</li>")) + "</ul>"
      == "<ul><li>" + a + "</li><br><li>" + b + "</li></ul>"
  {
  }

  /** The match is greedy: a plain line between two bullets ends up inside
      the same list. */
  lemma PlainLineInsideList(a: string, p: string, b: string)
    requires Inert(a) && Inert(p) && Inert(b)
    ensures FormatAnswerText(Some("* " + a + "\n" + p + "\n* " + b))
      == "<ul><li>" + a + "</li><br>" + p + "<br><li>" + b + "</li></ul>"
  {
    var lines := MixedLines(a, p, b);
    BulletListFormatted(lines);
  }

  lemma MixedLines(a: string, p: string, b: string) returns (lines: seq<Line>)
    requires Inert(a) && Inert(p) && Inert(b)
    ensures BulletDocument(lines)
    ensures SourceText(lines) == "* " + a + "\n" + p + "\n* " + b
    ensures "<ul>" + HtmlText(lines, "<br>") + "</ul>"
      == "<ul><li>" + a + "</li><br>" + p + "<br><li>" + b + "</li></ul>"
  {
    var tail := ParaThenItem(p, b);
    lines := [Item(a)] + tail;
    ConsLine(Item(a), tail, "<br>");
    InertCons(Item(a), tail);
    MixedRegroup(a, p, b);
  }

  lemma MixedRegroup(a: string, p: string, b: string)
    ensures "* " + a + "\n" + (p + "\n* " + b) == "* " + a + "\n" + p + "\n* " + b
    ensures "<ul>" + ("<li>" + a + "</li>" + "<br>" + (p + "<br><li>" + b + "</li>")) + "</ul>"
      == "<ul><li>" + a + "</li><br>" + p + "<br><li>" + b + "</li></ul>"
  {
  }

  lemma ParaThenItem(p: string, b: string) returns (tail: seq<Line>)
    requires Inert(p) && Inert(b)
    ensures |tail| == 2 && tail[1].Item? && InertLines(tail)
    ensures SourceText(tail) == p + "\n* " + b
    ensures HtmlText(tail, "<br>") == p + "<br><li>" + b + "</li>"
  {
    tail := [Para(p)] + [Item(b)];
    OneLine(Item(b), "<br>");
    ConsLine(Para(p), [Item(b)], "<br>");
    InertOne(Item(b));
    InertCons(Para(p), [Item(b)]);
    ParaRegroup(p, b);
  }

  lemma ParaRegroup(p: string, b: string)
    ensures p + "\n" + ("* " + b) == p + "\n* " + b
    ensures p + "<br>" + ("<li>" + b + "</li>") == p + "<br><li>" + b + "</li>"
  {
  }

  // ---------------------------------------------------------------------
  // Plain lines before and after the list
  // ---------------------------------------------------------------------

  predicate PlainLines(lines: seq<Line>) {
    forall k :: 0 <= k < |lines| ==> lines[k].Para?
  }

  /** The rendered plain lines in front of the list, with the separator
      that follows them. */
  function Before(pre: seq<Line>, sep: string): string {
    if pre == [] then [] else HtmlText(pre, sep) + sep
  }

  /** The rendered plain lines after the list, with the separator that
      precedes them. */
  function After(post: seq<Line>, sep: string): string {
    if post == [] then [] else sep + HtmlText(post, sep)
  }

  /** An answer whose bullets sit between plain lines: the plain lines stay
      outside, joined by `<br>`, and the single `<ul>` runs from the first
      bullet to the last. */
  lemma FramedListFormatted(pre: seq<Line>, body: seq<Line>, post: seq<Line>)
    requires BulletDocument(body)
    requires PlainLines(pre) && InertLines(pre) && PlainLines(post) && InertLines(post)
    requires pre != [] ==> pre[0].text == [] || !IsDigit(pre[0].text[0])
    ensures FormatAnswerText(Some(SourceText(pre + body + post)))
      == Before(pre, "<br>") + "<ul>" + HtmlText(body, "<br>") + "</ul>" + After(post, "<br>")
  {
    var lines := pre + body + post;
    var s := SourceText(lines);
    var t := HtmlText(lines, "\n");
    var w := Before(pre, "\n") + "<ul>" + HtmlText(body, "\n") + "</ul>" + After(post, "\n");
    var x := Before(pre, "<br>") + "<ul>" + HtmlText(body, "<br>") + "</ul>" + After(post, "<br>");
    InertAppend(pre, body);
    InertAppend(pre + body, post);
    StarStepsKeepLines(lines, "**", "**", "<strong>", "</strong>");
    StarStepsKeepLines(lines, "*", "*", "<em>", "</em>");
    BulletsMarkItems(lines);
    ListFramed(pre, body, post);
    FramedBreaks(pre, body, post);
    FramedSettled(pre, body, post);
    SourceNotEmpty(pre, body, post);
    FormatThroughStages(s, t, w, x, x, x, x, x);
  }

  lemma SourceNotEmpty(pre: seq<Line>, body: seq<Line>, post: seq<Line>)
    requires |body| > 0 && body[0].Item?
    ensures SourceText(pre + body + post) != []
  {
    var lines := pre + body + post;
    if |lines| > 1 {
      TailStartsWithBreak(lines);
    } else {
      assert lines[0] == body[0];
    }
  }

  /** The list step on the rendered lines wraps exactly the bullet block. */
  lemma ListFramed(pre: seq<Line>, body: seq<Line>, post: seq<Line>)
    requires BulletDocument(body)
    requires PlainLines(pre) && InertLines(pre) && PlainLines(post) && InertLines(post)
    ensures ListBlock(HtmlText(pre + body + post, "\n"))
      == Before(pre, "\n") + "<ul>" + HtmlText(body, "\n") + "</ul>" + After(post, "\n")
  {
    var b := Before(pre, "\n");
    var m := HtmlText(body, "\n");
    var a := After(post, "\n");
    HtmlTextFramed(pre, body, post, "\n");
    BeforeHasNoTag(pre, "\n");
    AfterHasNoTag(post, "\n");
    ItemBounds(body);
    FramedMatch(b, m, a);
    CloseItemsKeepLines([], body);
    assert [] + m == m;
    ListBetween(b, WrapList(m), m, a);
  }

  lemma ListBetween(b: string, u: string, m: string, a: string)
    requires u == "<ul>" + m + "</ul>"
    ensures b + u + a == b + "<ul>" + m + "</ul>" + a
  {
  }

  /** Around a list body that opens with `<li>` and closes with `</li>`,
      text without `<` is left out of the match. */
  lemma FramedMatch(b: string, m: string, a: string)
    requires '<' !in b && '<' !in a
    requires |m| >= 9 && m[..4] == "<li>" && m[|m| - 5..] == "</li>"
    ensures ListBlock(b + m + a) == b + WrapList(m) + a
  {
    var s := b + m + a;
    var i := |b|;
    var j := |b| + |m| - 5;
    assert s[i..i + 4] == m[..4];
    assert s[j..j + 5] == m[|m| - 5..];
    forall k | 0 <= k < i
      ensures !OccursAt(s, k, "<li>")
    {
      assert s[k] == b[k] && b[k] in b;
      OccursAtHead(s, k, "<li>");
    }
    forall k | j < k
      ensures !OccursAt(s, k, "</li>")
    {
      OccursAtHead(s, k, "</li>");
      if k < |b| + |m| {
        assert s[k] == m[k - |b|] == m[|m| - 5..][k - j];
      } else if k < |s| {
        assert s[k] == a[k - |b| - |m|] && a[k - |b| - |m|] in a;
      }
    }
    ListBlockSplices(s, i, j);
    assert s[..i] == b && s[i..j + 5] == m && s[j + 5..] == a;
  }

  /** Rendering two runs of lines one after the other puts a separator
      between them. */
  lemma {:induction false} HtmlTextAppend(x: seq<Line>, y: seq<Line>, sep: string)
    requires |x| > 0 && |y| > 0
    ensures HtmlText(x + y, sep) == HtmlText(x, sep) + sep + HtmlText(y, sep)
    decreases |x|
  {
    var xy := x + y;
    assert xy[0] == x[0];
    if |x| == 1 {
      assert xy[1..] == y;
    } else {
      assert xy[1..] == x[1..] + y;
      HtmlTextAppend(x[1..], y, sep);
    }
  }

  lemma {:induction false} SourceAppend(x: seq<Line>, y: seq<Line>)
    requires |x| > 0 && |y| > 0
    ensures SourceText(x + y) == SourceText(x) + "\n" + SourceText(y)
    decreases |x|
  {
    var xy := x + y;
    assert xy[0] == x[0];
    if |x| == 1 {
      assert xy[1..] == y;
    } else {
      assert xy[1..] == x[1..] + y;
      SourceAppend(x[1..], y);
    }
  }

  lemma HtmlTextFramed(pre: seq<Line>, body: seq<Line>, post: seq<Line>, sep: string)
    requires |body| > 0
    ensures HtmlText(pre + body + post, sep) == Before(pre, sep) + HtmlText(body, sep) + After(post, sep)
  {
    var head := pre + body;
    if pre != [] {
      HtmlTextAppend(pre, body, sep);
    } else {
      assert head == body;
    }
    assert HtmlText(head, sep) == Before(pre, sep) + HtmlText(body, sep);
    if post != [] {
      HtmlTextAppend(head, post, sep);
      RegroupAfter(Before(pre, sep), HtmlText(body, sep), sep, HtmlText(post, sep));
    } else {
      assert head + post == head;
    }
  }

  lemma RegroupAfter(b: string, m: string, sep: string, q: string)
    ensures b + m + sep + q == b + m + (sep + q)
  {
  }

  lemma InertAppend(x: seq<Line>, y: seq<Line>)
    requires InertLines(x) && InertLines(y)
    ensures InertLines(x + y)
  {
    forall k | 0 <= k < |x + y| ensures Inert((x + y)[k].text) {
      if k >= |x| {
        assert (x + y)[k] == y[k - |x|];
      }
    }
  }

  /** Plain inert lines carry no `<` when the separator has none. */
  lemma {:induction false} PlainLinesHaveNoTag(lines: seq<Line>, sep: string)
    requires |lines| > 0 && PlainLines(lines) && InertLines(lines) && '<' !in sep
    ensures '<' !in HtmlText(lines, sep)
    decreases |lines|
  {
    InertHead(lines);
    if |lines| > 1 {
      InertTail(lines);
      PlainLinesHaveNoTag(lines[1..], sep);
    }
  }

  lemma BeforeHasNoTag(pre: seq<Line>, sep: string)
    requires PlainLines(pre) && InertLines(pre) && '<' !in sep
    ensures '<' !in Before(pre, sep)
  {
    if pre != [] {
      PlainLinesHaveNoTag(pre, sep);
    }
  }

  lemma AfterHasNoTag(post: seq<Line>, sep: string)
    requires PlainLines(post) && InertLines(post) && '<' !in sep
    ensures '<' !in After(post, sep)
  {
    if post != [] {
      PlainLinesHaveNoTag(post, sep);
    }
  }

  /** The break step turns the newlines in all three parts into `<br>`. */
  lemma FramedBreaks(pre: seq<Line>, body: seq<Line>, post: seq<Line>)
    requires BulletDocument(body) && InertLines(pre) && InertLines(post)
    ensures Breaks(Before(pre, "\n") + "<ul>" + HtmlText(body, "\n") + "</ul>" + After(post, "\n"))
      == Before(pre, "<br>") + "<ul>" + HtmlText(body, "<br>") + "</ul>" + After(post, "<br>")
  {
    var b := Before(pre, "<br>");
    var m := HtmlText(body, "<br>");
    var a := After(post, "<br>");
    ListBreaks(body);
    BeforeBreaks(pre);
    AfterBreaks(post);
    BreaksAround(Before(pre, "\n"), HtmlText(body, "\n"), After(post, "\n"));
    ListBetween(b, "<ul>" + m + "</ul>", m, a);
  }

  lemma BreaksAround(b: string, m: string, a: string)
    ensures Breaks(b + "<ul>" + m + "</ul>" + a) == Breaks(b) + Breaks("<ul>" + m + "</ul>") + Breaks(a)
  {
    var u := "<ul>" + m + "</ul>";
    assert b + "<ul>" + m + "</ul>" + a == b + u + a;
    BreaksAppend(b, u);
    BreaksAppend(b + u, a);
  }

  lemma BeforeBreaks(pre: seq<Line>)
    requires InertLines(pre)
    ensures Breaks(Before(pre, "\n")) == Before(pre, "<br>")
  {
    if pre != [] {
      NewlinesBecomeBreaks(pre);
      BreaksAppend(HtmlText(pre, "\n"), "\n");
      assert Breaks("\n") == "<br>";
    }
  }

  lemma AfterBreaks(post: seq<Line>)
    requires InertLines(post)
    ensures Breaks(After(post, "\n")) == After(post, "<br>")
  {
    if post != [] {
      NewlinesBecomeBreaks(post);
      BreaksAppend("\n", HtmlText(post, "\n"));
      assert Breaks("\n") == "<br>";
    }
  }

  /** The rendered answer is one line without a backtick that opens with
      neither `#` nor a digit, so the later steps leave it alone. */
  lemma FramedSettled(pre: seq<Line>, body: seq<Line>, post: seq<Line>)
    requires BulletDocument(body) && InertLines(pre) && InertLines(post) && PlainLines(pre)
    requires pre != [] ==> pre[0].text == [] || !IsDigit(pre[0].text[0])
    ensures var x := Before(pre, "<br>") + "<ul>" + HtmlText(body, "<br>") + "</ul>" + After(post, "<br>");
      Heading3(x) == x && Heading2(x) == x && Heading1(x) == x
      && Superscript(CodeSpans(NumberedItems(x))) == x
  {
    var x := Before(pre, "<br>") + "<ul>" + HtmlText(body, "<br>") + "</ul>" + After(post, "<br>");
    if pre != [] {
      RenderedLinesPlain(pre);
    }
    if post != [] {
      RenderedLinesPlain(post);
    }
    RenderedLinesPlain(body);
    FramedStart(pre, x);
    LateStagesIdentity(x);
  }

  /** Text that starts with the rendered plain lines opens with the first
      plain line's first character, or with a tag. */
  lemma FramedStart(pre: seq<Line>, x: string)
    requires InertLines(pre) && PlainLines(pre)
    requires pre != [] ==> pre[0].text == [] || !IsDigit(pre[0].text[0])
    requires |x| > |Before(pre, "<br>")| && x[..|Before(pre, "<br>")|] == Before(pre, "<br>")
    requires pre == [] ==> x[0] == '<'
    ensures x[0] != '#' && !IsDigit(x[0])
  {
    if pre != [] {
      var b := Before(pre, "<br>");
      var p := pre[0].text;
      var tail := HtmlTail(pre, "<br>");
      assert b == p + (tail + "<br>");
      assert tail == [] || tail[0] == '<';
      assert (tail + "<br>")[0] == '<';
      assert x[0] == b[0];
      if p != [] {
        assert p[0] in p;
      }
    }
  }

  /** A plain line in front of two bullets stays outside the list. */
  lemma ParagraphThenList(p: string, a: string, b: string)
    requires Inert(p) && Inert(a) && Inert(b)
    requires p == [] || !IsDigit(p[0])
    ensures FormatAnswerText(Some(p + "\n* " + a + "\n* " + b))
      == p + "<br><ul><li>" + a + "</li><br><li>" + b + "</li></ul>"
  {
    var pre, body, post := ParagraphListLines(p, a, b);
    FramedListFormatted(pre, body, post);
  }

  lemma ParagraphListLines(p: string, a: string, b: string) returns (pre: seq<Line>, body: seq<Line>, post: seq<Line>)
    requires Inert(p) && Inert(a) && Inert(b)
    requires p == [] || !IsDigit(p[0])
    ensures BulletDocument(body)
    ensures PlainLines(pre) && InertLines(pre) && PlainLines(post) && InertLines(post)
    ensures pre != [] ==> pre[0].text == [] || !IsDigit(pre[0].text[0])
    ensures SourceText(pre + body + post) == p + "\n* " + a + "\n* " + b
    ensures Before(pre, "<br>") + "<ul>" + HtmlText(body, "<br>") + "</ul>" + After(post, "<br>")
      == p + "<br><ul><li>" + a + "</li><br><li>" + b + "</li></ul>"
  {
    body := TwoItemLines(a, b);
    pre := [Para(p)];
    post := [];
    assert pre + body + post == pre + body;
    SourceAppend(pre, body);
    InertOne(Para(p));
    OneLine(Para(p), "<br>");
    ParagraphListRegroup(p, a, b, "<ul>" + HtmlText(body, "<br>") + "</ul>");
  }

  /** Two bullets followed by a plain line: the line follows the list. */
  lemma ListThenParagraph(a: string, b: string, q: string)
    requires Inert(a) && Inert(b) && Inert(q)
    ensures FormatAnswerText(Some("* " + a + "\n* " + b + "\n" + q))
      == "<ul><li>" + a + "</li><br><li>" + b + "</li></ul><br>" + q
  {
    var pre, body, post := ListParagraphLines(a, b, q);
    FramedListFormatted(pre, body, post);
  }

  lemma ListParagraphLines(a: string, b: string, q: string) returns (pre: seq<Line>, body: seq<Line>, post: seq<Line>)
    requires Inert(a) && Inert(b) && Inert(q)
    ensures BulletDocument(body) && pre == []
    ensures PlainLines(post) && InertLines(post)
    ensures SourceText(pre + body + post) == "* " + a + "\n* " + b + "\n" + q
    ensures Before(pre, "<br>") + "<ul>" + HtmlText(body, "<br>") + "</ul>" + After(post, "<br>")
      == "<ul><li>" + a + "</li><br><li>" + b + "</li></ul><br>" + q
  {
    body := TwoItemLines(a, b);
    pre := [];
    post := [Para(q)];
    assert pre + body + post == body + post;
    SourceAppend(body, post);
    InertOne(Para(q));
    OneLine(Para(q), "<br>");
    ListParagraphRegroup(a, b, q, "<ul>" + HtmlText(body, "<br>") + "</ul>");
  }

  lemma ParagraphListRegroup(p: string, a: string, b: string, u: string)
    requires u == "<ul><li>" + a + "</li><br><li>" + b + "</li></ul>"
    ensures p + "\n" + ("* " + a + "\n* " + b) == p + "\n* " + a + "\n* " + b
    ensures p + "<br>" + u + [] == p + "<br><ul><li>" + a + "</li><br><li>" + b + "</li></ul>"
  {
  }

  lemma ListParagraphRegroup(a: string, b: string, q: string, u: string)
    requires u == "<ul><li>" + a + "</li><br><li>" + b + "</li></ul>"
    ensures [] + u + ("<br>" + q) == "<ul><li>" + a + "</li><br><li>" + b + "</li></ul><br>" + q
  {
  }

  lemma InertOne(l: Line)
    ensures InertLines([l]) <==> Inert(l.text)
  {
    assert [l][0] == l;
  }

  /** A line in front keeps a document inert exactly when the line is. */
  lemma InertCons(l: Line, rest: seq<Line>)
    ensures InertLines([l] + rest) <==> Inert(l.text) && InertLines(rest)
  {
    var lines := [l] + rest;
    assert lines[0] == l;
    assert forall k :: 0 <= k < |rest| ==> lines[k + 1] == rest[k];
  }
}
