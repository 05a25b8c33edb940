/**
 The answer formatter of qa-evaluator-ui/src/App.js (`formatAnswerText`):
 a fixed chain of eleven regular-expression replacements that turns answer
 text into an HTML string. Each replacement is a scanner over `string`
 that reproduces the JavaScript regular expression's matching rule: where a
 match may start, which match wins, and where scanning resumes. Nothing is
 HTML-escaped; the result is markup exactly as the chain builds it.
 */
module Markup {
  import opened Wrappers
  import opened Text

  // ---------------------------------------------------------------------
  // Lazy delimited spans: /\*\*(.*?)\*\*/g, /\*(.*?)\*/g, /<sup>(.*?)<\/sup>/g
  // ---------------------------------------------------------------------

  /** Where `open(.*?)close` finds its closing delimiter when the content
      starts at `from`: the least index `j` holding `close` such that no
      line terminator lies in between (`.` does not cross lines). */
  function FindClose(s: string, from: nat, close: string): (r: Option<nat>)
    requires from <= |s| && |close| > 0
    ensures r.Some? ==> from <= r.value && OccursAt(s, r.value, close)
    ensures r.Some? ==> NoLineTerminatorIn(s, from, r.value)
    ensures r.Some? ==> forall j :: from <= j < r.value ==> !OccursAt(s, j, close)
    ensures r.None? ==>
      forall j :: from <= j <= |s| && NoLineTerminatorIn(s, from, j) ==> !OccursAt(s, j, close)
    decreases |s| - from
  {
    if from + |close| > |s| then None
    else if s[from..from + |close|] == close then Some(from)
    else if IsLineTerminator(s[from]) then None
    else FindClose(s, from + 1, close)
  }

  /** A global replacement of `open(.*?)close` by `newOpen$1newClose`.
      Scanning resumes after the closing delimiter of each match, and a
      position where no match starts is copied through. The result holds
      no character that is neither in the input nor in the new delimiters. */
  function LazySpans(s: string, open: string, close: string, newOpen: string, newClose: string): (r: string)
    requires |open| > 0 && |close| > 0
    ensures forall c :: c in r ==> c in s || c in newOpen || c in newClose
    decreases |s|
  {
    if |s| == 0 then []
    else if OccursAt(s, 0, open) then
      match FindClose(s, |open|, close)
      case Some(j) =>
        var rest := LazySpans(s[j + |close|..], open, close, newOpen, newClose);
        ReplacedSpanChars(s, |open|, j, j + |close|, newOpen, newClose, rest);
        newOpen + s[|open|..j] + newClose + rest
      case None =>
        var rest := LazySpans(s[1..], open, close, newOpen, newClose);
        CopiedCharChars(s, newOpen, newClose, rest);
        [s[0]] + rest
    else
      var rest := LazySpans(s[1..], open, close, newOpen, newClose);
      CopiedCharChars(s, newOpen, newClose, rest);
      [s[0]] + rest
  }

  /** Step 1: `**text**` becomes `<strong>text</strong>` (App.js line 14). */
  function Bold(s: string): string {
    LazySpans(s, "**", "**", "<strong>", "</strong>")
  }

  /** Step 2: `*text*` becomes `<em>text</em>` (App.js line 16). */
  function Italic(s: string): string {
    LazySpans(s, "*", "*", "<em>", "</em>")
  }

  /** Step 11: `<sup>text</sup>` is replaced by itself (App.js line 35). */
  function Superscript(s: string): string {
    LazySpans(s, "<sup>", "</sup>", "<sup>", "</sup>")
  }

  // ---------------------------------------------------------------------
  // Line rules: /^marker(.*$)/gim
  // ---------------------------------------------------------------------

  /** The marker a line rule looks for at the start of a line: a literal
      prefix such as `* ` or `## `, or `\d+\. `. */
  datatype Marker = Literal(text: string) | Numbered

  predicate ValidMarker(m: Marker) {
    m.Literal? ==> |m.text| > 0
  }

  /** The end of the run of digits starting at `from`. */
  function DigitRunEnd(s: string, from: nat): (r: nat)
    requires from <= |s|
    ensures from <= r <= |s|
    ensures forall k :: from <= k < r ==> IsDigit(s[k])
    ensures r == |s| || !IsDigit(s[r])
    decreases |s| - from
  {
    if from < |s| && IsDigit(s[from]) then DigitRunEnd(s, from + 1) else from
  }

  /** The length of the marker at the start of `s`, if one is there. For
      `\d+\. ` the greedy digit run is maximal, since a digit is never `.`. */
  function MarkerLength(m: Marker, s: string): (r: Option<nat>)
    requires ValidMarker(m)
    ensures r.Some? ==> 0 < r.value <= |s|
    ensures m.Literal? ==> (r.Some? <==> OccursAt(s, 0, m.text))
    ensures m.Literal? && r.Some? ==> r.value == |m.text|
    ensures r.Some? && m.Numbered? ==>
      r.value >= 3 && (forall k :: 0 <= k < r.value - 2 ==> IsDigit(s[k])) && OccursAt(s, r.value - 2, ". ")
    ensures m.Numbered? ==>
      forall n :: OccursAt(s, n, ". ") && 0 < n && (forall k :: 0 <= k < n ==> IsDigit(s[k])) ==> r == Some(n + 2)
  {
    match m
    case Literal(p) => if OccursAt(s, 0, p) then Some(|p|) else None
    case Numbered =>
      var n := DigitRunEnd(s, 0);
      DigitsThenDot(s);
      if 0 < n && OccursAt(s, n, ". ") then Some(n + 2) else None
  }

  /** A run of digits followed by `. ` is exactly the maximal digit run. */
  lemma DigitsThenDot(s: string)
    ensures forall n :: OccursAt(s, n, ". ") && (forall k :: 0 <= k < n ==> IsDigit(s[k])) ==>
      DigitRunEnd(s, 0) == n
  {
    var r := DigitRunEnd(s, 0);
    forall n | OccursAt(s, n, ". ") && (forall k :: 0 <= k < n ==> IsDigit(s[k]))
      ensures r == n
    {
      assert s[n] == s[n..n + 2][0];
    }
  }

  /** Where `(.*$)` stops under the `m` flag: the first line terminator at
      or after `from`, or the end of the text. */
  function LineEnd(s: string, from: nat): (r: nat)
    requires from <= |s|
    ensures from <= r <= |s|
    ensures NoLineTerminatorIn(s, from, r)
    ensures r == |s| || IsLineTerminator(s[r])
    decreases |s| - from
  {
    if from < |s| && !IsLineTerminator(s[from]) then LineEnd(s, from + 1) else from
  }

  /** A global replacement of `^marker(.*$)` under the `m` flag by
      `open$1close`. `atLineStart` says whether `^` holds at the front of
      `s`: at the start of the text, or right after a line terminator. The
      rest of the line after the marker is the captured group. */
  function LineRule(s: string, atLineStart: bool, m: Marker, open: string, close: string): (r: string)
    requires ValidMarker(m)
    ensures forall c :: c in r ==> c in s || c in open || c in close
    decreases |s|
  {
    if |s| == 0 then []
    else if atLineStart && MarkerLength(m, s).Some? then
      var n := MarkerLength(m, s).value;
      var e := LineEnd(s, n);
      var rest := LineRule(s[e..], false, m, open, close);
      ReplacedSpanChars(s, n, e, e, open, close, rest);
      open + s[n..e] + close + rest
    else
      var rest := LineRule(s[1..], IsLineTerminator(s[0]), m, open, close);
      CopiedCharChars(s, open, close, rest);
      [s[0]] + rest
  }

  /** A span of `s` put between new delimiters, followed by the rewritten
      rest of `s`, brings in nothing but the delimiters. */
  lemma ReplacedSpanChars(s: string, n: nat, e: nat, k: nat, open: string, close: string, rest: string)
    requires n <= e <= k <= |s|
    requires forall c :: c in rest ==> c in s[k..] || c in open || c in close
    ensures forall c :: c in open + s[n..e] + close + rest ==> c in s || c in open || c in close
  {
    assert forall c :: c in s[n..e] ==> c in s;
    assert forall c :: c in s[k..] ==> c in s;
  }

  /** The first character of `s` copied in front of the rewritten rest. */
  lemma CopiedCharChars(s: string, open: string, close: string, rest: string)
    requires |s| > 0
    requires forall c :: c in rest ==> c in s[1..] || c in open || c in close
    ensures forall c :: c in [s[0]] + rest ==> c in s || c in open || c in close
  {
    assert forall c :: c in s[1..] ==> c in s;
  }

  /** Step 3: a line starting `* ` becomes `<li>…</li>` (App.js line 18). */
  function Bullets(s: string): string {
    LineRule(s, true, Literal("* "), "<li>", "</li>")
  }

  /** Steps 6 to 8: `### `, `## ` and `# ` lines become headings, the most
      specific first (App.js lines 27-29). */
  function Heading3(s: string): string {
    LineRule(s, true, Literal("### "), "<h3>", "</h3>")
  }

  function Heading2(s: string): string {
    LineRule(s, true, Literal("## "), "<h2>", "</h2>")
  }

  function Heading1(s: string): string {
    LineRule(s, true, Literal("# "), "<h1>", "</h1>")
  }

  /** Step 9: a line starting `<digits>. ` becomes `<li>…</li>`; the number
      is dropped and no list container is added (App.js line 31). */
  function NumberedItems(s: string): string {
    LineRule(s, true, Numbered, "<li>", "</li>")
  }

  // ---------------------------------------------------------------------
  // Step 4: /(<li>.*<\/li>)/gs with a replacement function
  // ---------------------------------------------------------------------

  /** `items.filter(item => item.trim())`. */
  function NonBlank(parts: seq<string>): seq<string> {
    if |parts| == 0 then []
    else if IsBlank(parts[0]) then NonBlank(parts[1..])
    else [parts[0]] + NonBlank(parts[1..])
  }

  /** `items.map(item => item + '</li>').join('')`. */
  function CloseEach(parts: seq<string>): string {
    if |parts| == 0 then [] else parts[0] + "</li>" + CloseEach(parts[1..])
  }

  /** The match split at every `</li>`, blank pieces dropped, each piece
      closed again. */
  function CloseItems(m: string): string {
    CloseEach(NonBlank(Split(m, "</li>")))
  }

  /** The replacement function of App.js lines 20-23 applied to the match. */
  function WrapList(m: string): string {
    "<ul>" + CloseItems(m) + "</ul>"
  }

  /** With the `s` flag `.` matches everything, and `.*` is greedy: the one
      match runs from the first `<li>` to the last `</li>` that starts at
      least four characters after it. After that match no `</li>` is left,
      so there is never a second one. */
  function ListBlock(s: string): (r: string)
    ensures IndexOf(s, "<li>", 0).None? ==> r == s
  {
    ListMatch(s, IndexOf(s, "<li>", 0), LastIndexOf(s, "</li>", |s| + 1))
  }

  /** The list step given where the first `<li>` and the last `</li>` are:
      the greedy match runs from the first to the end of the last; when
      that `</li>` starts inside the first `<li>` there is no match at all. */
  function ListMatch(s: string, first: Option<nat>, last: Option<nat>): string
    requires last.Some? ==> last.value + 5 <= |s|
  {
    if first.Some? && last.Some? && last.value >= first.value + 4 then
      Splice(s, first.value, last.value + 5)
    else
      s
  }

  /** `s` with the match `s[i..e]` replaced by its wrapped list. */
  function Splice(s: string, i: nat, e: nat): string
    requires i <= e <= |s|
  {
    s[..i] + WrapList(s[i..e]) + s[e..]
  }

  /** The list step brings in no character but those of its tags. */
  lemma ListBlockAddsOnlyTags(s: string)
    ensures forall c :: c in ListBlock(s) ==> c in s || c in "<ul></li></ul>"
  {
    ListMatchChars(s, IndexOf(s, "<li>", 0), LastIndexOf(s, "</li>", |s| + 1));
  }

  /** The greedy match: with the first `<li>` at `i` and the last `</li>`
      at `j`, at least four characters later, the text from `i` to the end
      of that `</li>` is replaced by its wrapped list, and the text before
      and after it is kept as it is. */
  lemma ListBlockSplices(s: string, i: nat, j: nat)
    requires OccursAt(s, i, "<li>") && forall k :: 0 <= k < i ==> !OccursAt(s, k, "<li>")
    requires OccursAt(s, j, "</li>") && forall k :: j < k ==> !OccursAt(s, k, "</li>")
    requires i + 4 <= j
    ensures ListBlock(s) == s[..i] + WrapList(s[i..j + 5]) + s[j + 5..]
  {
    var first := IndexOf(s, "<li>", 0);
    var last := LastIndexOf(s, "</li>", |s| + 1);
    assert first == Some(i);
    assert last == Some(j);
    SpliceMatch(s, first, last, i, j);
  }

  lemma SpliceMatch(s: string, first: Option<nat>, last: Option<nat>, i: nat, j: nat)
    requires first == Some(i) && last == Some(j) && i + 4 <= j && j + 5 <= |s|
    ensures ListMatch(s, first, last) == s[..i] + WrapList(s[i..j + 5]) + s[j + 5..]
  {
  }

  /** When no `</li>` starts at least four characters after the first
      `<li>`, there is no match and the text is unchanged. */
  lemma ListBlockNoLaterClose(s: string, i: nat)
    requires OccursAt(s, i, "<li>") && forall k :: 0 <= k < i ==> !OccursAt(s, k, "<li>")
    requires forall k :: i + 4 <= k ==> !OccursAt(s, k, "</li>")
    ensures ListBlock(s) == s
  {
    var first := IndexOf(s, "<li>", 0);
    var last := LastIndexOf(s, "</li>", |s| + 1);
    assert first == Some(i);
    NoSpliceMatch(s, first, last);
  }

  lemma NoSpliceMatch(s: string, first: Option<nat>, last: Option<nat>)
    requires last.Some? ==> last.value + 5 <= |s|
    requires first.Some? && last.Some? ==> last.value < first.value + 4
    ensures ListMatch(s, first, last) == s
  {
  }

  lemma ListMatchChars(s: string, first: Option<nat>, last: Option<nat>)
    requires last.Some? ==> last.value + 5 <= |s|
    ensures forall c :: c in ListMatch(s, first, last) ==> c in s || c in "<ul></li></ul>"
  {
    if first.Some? && last.Some? && last.value >= first.value + 4 {
      SpliceChars(s, first.value, last.value + 5);
    }
  }

  lemma SpliceChars(s: string, i: nat, e: nat)
    requires i <= e <= |s|
    ensures forall c :: c in Splice(s, i, e) ==> c in s || c in "<ul></li></ul>"
  {
    WrapListChars(s[i..e]);
    assert forall c :: c in s[i..e] ==> c in s;
    assert forall c :: c in s[..i] ==> c in s;
    assert forall c :: c in s[e..] ==> c in s;
  }

  /** The filter keeps exactly the pieces that are not blank, and no more
      of them than there were. */
  lemma {:induction false} NonBlankFilters(parts: seq<string>)
    ensures var r := NonBlank(parts);
      && |r| <= |parts|
      && (forall k :: 0 <= k < |r| ==> r[k] in parts && !IsBlank(r[k]))
      && (forall k :: 0 <= k < |parts| && !IsBlank(parts[k]) ==> parts[k] in r)
  {
    if |parts| > 0 {
      NonBlankFilters(parts[1..]);
      var rest := NonBlank(parts[1..]);
      assert forall k :: 1 <= k < |parts| ==> parts[k] == parts[1..][k - 1];
      if !IsBlank(parts[0]) {
        assert forall k :: 1 <= k <= |rest| ==> ([parts[0]] + rest)[k] == rest[k - 1];
      }
    }
  }

  /** The filter keeps the pieces in order: it distributes over
      concatenation. */
  lemma {:induction false} NonBlankAppend(a: seq<string>, b: seq<string>)
    ensures NonBlank(a + b) == NonBlank(a) + NonBlank(b)
  {
    if |a| == 0 {
      assert a + b == b;
    } else {
      assert (a + b)[0] == a[0];
      assert (a + b)[1..] == a[1..] + b;
      NonBlankAppend(a[1..], b);
    }
  }

  /** One piece in the middle: a blank one is dropped, any other is kept
      in its place between what the filter makes of its neighbours. */
  lemma NonBlankKeepsOrder(a: seq<string>, p: string, b: seq<string>)
    ensures NonBlank(a + [p] + b) == NonBlank(a) + (if IsBlank(p) then [] else [p]) + NonBlank(b)
  {
    NonBlankAppend(a + [p], b);
    NonBlankAppend(a, [p]);
    assert NonBlank([p]) == (if IsBlank(p) then [] else [p]) + NonBlank([]);
  }

  lemma CloseEachChars(parts: seq<string>, m: string)
    requires forall k :: 0 <= k < |parts| ==> forall c :: c in parts[k] ==> c in m
    ensures forall c :: c in CloseEach(parts) ==> c in m || c in "</li>"
  {
    if |parts| > 0 {
      CloseEachChars(parts[1..], m);
    }
  }

  /** Every piece of `Split(s, sep)` is made of characters of `s`. */
  lemma SplitChars(s: string, sep: string)
    requires |sep| > 0
    ensures forall k :: 0 <= k < |Split(s, sep)| ==> forall c :: c in Split(s, sep)[k] ==> c in s
    decreases |s|
  {
    match IndexOf(s, sep, 0)
    case None =>
    case Some(k) =>
      SplitChars(s[k + |sep|..], sep);
      assert forall c :: c in s[k + |sep|..] ==> c in s;
      assert forall c :: c in s[..k] ==> c in s;
  }

  lemma WrapListChars(m: string)
    ensures forall c :: c in WrapList(m) ==> c in m || c in "<ul></li></ul>"
  {
    var parts := Split(m, "</li>");
    SplitChars(m, "</li>");
    NonBlankFilters(parts);
    CloseEachChars(NonBlank(parts), m);
  }

  // ---------------------------------------------------------------------
  // Step 5: /\n/g and step 10: /`([^`]+)`/g
  // ---------------------------------------------------------------------

  /** Step 5: every `\n` becomes `<br>` (App.js line 25). Other line
      terminators are left alone. */
  function Breaks(s: string): (r: string)
    ensures '\n' !in r
    ensures forall c :: c in r ==> c in s || c in "<br>"
    ensures '\n' !in s ==> r == s
  {
    if |s| == 0 then []
    else if s[0] == '\n' then "<br>" + Breaks(s[1..])
    else [s[0]] + Breaks(s[1..])
  }

  /** Step 10: a backtick, at least one non-backtick, a backtick becomes
      `<code>…</code>` (App.js line 33). `[^`]` also matches line
      terminators. */
  function CodeSpans(s: string): (r: string)
    ensures forall c :: c in r ==> c in s || c in "<code></code>"
    ensures '`' !in s ==> r == s
    decreases |s|
  {
    if |s| == 0 then []
    else if s[0] == '`' then
      match IndexOf(s, "`", 1)
      case Some(j) =>
        if j == 1 then [s[0]] + CodeSpans(s[1..])
        else
          assert forall c :: c in s[1..j] ==> c in s;
          "<code>" + s[1..j] + "</code>" + CodeSpans(s[j + 1..])
      case None => [s[0]] + CodeSpans(s[1..])
    else [s[0]] + CodeSpans(s[1..])
  }

  // ---------------------------------------------------------------------
  // The chain
  // ---------------------------------------------------------------------

  /** The eleven replacements in the order App.js lines 12-35 apply them. */
  function Render(t: string): string {
    Superscript(CodeSpans(NumberedItems(Heading1(Heading2(Heading3(
      Breaks(ListBlock(Bullets(Italic(Bold(t)))))))))))
  }

  /** Steps 6 to 11 bring in no newline, so none survives step 5. */
  lemma RenderHasNoNewline(t: string)
    ensures '\n' !in Render(t)
  {
    var broken := Breaks(ListBlock(Bullets(Italic(Bold(t)))));
    LateStagesNoNewline(broken);
  }

  lemma LateStagesNoNewline(broken: string)
    requires '\n' !in broken
    ensures '\n' !in Superscript(CodeSpans(NumberedItems(Heading1(Heading2(Heading3(broken))))))
  {
    NoNewlineAfterLineRule(broken, Literal("### "), "<h3>", "</h3>");
    var h3 := Heading3(broken);
    NoNewlineAfterLineRule(h3, Literal("## "), "<h2>", "</h2>");
    var h2 := Heading2(h3);
    NoNewlineAfterLineRule(h2, Literal("# "), "<h1>", "</h1>");
    var h1 := Heading1(h2);
    NoNewlineAfterLineRule(h1, Numbered, "<li>", "</li>");
    var numbered := NumberedItems(h1);
    NoNewlineAfterCode(numbered);
    NoNewlineAfterSuperscript(CodeSpans(numbered));
  }

  lemma NoNewlineAfterCode(s: string)
    requires '\n' !in s
    ensures '\n' !in CodeSpans(s)
  {
  }

  lemma NoNewlineAfterSuperscript(s: string)
    requires '\n' !in s
    ensures '\n' !in Superscript(s)
  {
  }

  /** A line rule whose tags hold no newline brings none in. */
  lemma NoNewlineAfterLineRule(s: string, m: Marker, open: string, close: string)
    requires ValidMarker(m) && '\n' !in s && '\n' !in open && '\n' !in close
    ensures '\n' !in LineRule(s, true, m, open, close)
  {
  }

  /** `formatAnswerText(text)`: absent or empty text gives the empty string
      (App.js line 10); otherwise the chain. Once `\n` has become `<br>`
      no later step brings a newline back, so the HTML has none. */
  function FormatAnswerText(text: Option<string>): (r: string)
    ensures text.None? || text == Some([]) ==> r == []
    ensures '\n' !in r
  {
    match text
    case None => []
    case Some(t) => if t == [] then [] else RenderHasNoNewline(t); Render(t)
  }
}
