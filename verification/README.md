# qa-evaluator-ui answer formatter and conversation store, in Dafny

This project models the two pieces of logic in `qa-evaluator-ui/src/App.js`:

* **`formatAnswerText`** turns an answer from the evaluation service into
  an HTML string. It runs a fixed chain of eleven regular-expression
  replacements:
  1. `**bold**` becomes `<strong>`.
  2. `*italic*` becomes `<em>`.
  3. `* ` bullet lines become `<li>` items.
  4. The items are wrapped in one `<ul>`.
  5. `\n` becomes `<br>`.
  6. to 8. `###`, `##` and `#` headings become `<h3>`, `<h2>` and `<h1>`.
  9. `N. ` numbered items become `<li>` items.
  10. Backtick code spans become `<code>`.
  11. `<sup>` spans are rewritten to themselves.

  Every step is a scanner over `string`. It reproduces the JavaScript
  regular expression it stands for: where a match may start, which match
  wins, and where scanning resumes. `Markup.FormatAnswerText` is the whole
  chain.

* **The conversation store** of the `App` component holds:
  * the list of question/answer exchanges;
  * the question draft;
  * the error banner;
  * the id being regenerated;
  * the feedback composer and its draft.

  Every handler is a pure transition on `Conversations.Store`:
  * asking a question;
  * regenerating an answer, split into a start step and a completion step;
  * thumbs and comment feedback;
  * submitting a comment;
  * closing the composer;
  * typing in either text area.

  The reply of the `/ask` service (`Success(answer, evaluation)` or
  `Failure`), the `Date.now()` id and the `toLocaleString()` timestamp are
  parameters.

Modules:

* **`Wrappers`**: `Option`.
* **`Text`**: JavaScript's line terminators, whitespace and digits, plus
  `indexOf`, `lastIndexOf`, `trim` and `split`.
* **`Markup`**: the eleven steps and the chain.
* **`MarkupProperties`**: what each step leaves alone, and how steps behave
  at line starts and breaks.
* **`FormatProperties`**: end-to-end results of `formatAnswerText` for
  plain text, bold, headings, numbered items and code spans. It also proves
  the consequence of the step order: a heading after a line break stays
  literal.
* **`BulletLists`**: end-to-end results for documents made of bullet lines
  and plain lines. The lines from the first bullet to the last become one
  `<ul>`. Plain lines before and after them stay outside it. All lines are
  separated by `<br>`.
* **`Conversations`**: the store and its transitions.
* **`ConversationProperties`**: the record invariant, and properties that
  relate several transitions.

Notes on reading the model against the code:

* **Line terminators.** A line terminator is any of `\n`, `\r`, U+2028 and
  U+2029, as ECMAScript defines them.
  * In the regular expressions, `.` never matches one.
  * Under the `m` flag, `^` holds after any of them.
  * Step 5 replaces only `\n`.

  The model therefore does not exclude `\r` from its inputs. Where a
  property needs "no line breaks at all", it states that as a precondition
  (`NoLineTerminator`).
* **No HTML escaping.** Nothing is HTML-escaped; the result is exactly the
  markup the chain builds.
* **One greedy list match.** The list step is greedy with the `s` flag, so
  it makes at most one match: from the first `<li>` to the last `</li>`.
  Plain lines between two bullets end up inside the same `<ul>`.
* **Headings and numbered items at the very start only.** Step 5 removes
  every `\n` before steps 6 to 9 run. So a heading or numbered item converts
  only when it begins the whole text, or follows a `\r`, U+2028 or U+2029.
  For the same reason a heading or item runs to the end of the text, not
  of its line. `# h\nbody` becomes `<h1>h<br>body</h1>`, and
  `1. one\n2. two` becomes `<li>one<br>2. two</li>`.
* **Numbered items stay bare.** They become `<li>` items with no list
  container around them.
* **No global regeneration guard.** Starting a regeneration overwrites the
  recorded id. Any regeneration that completes clears it, whichever id it
  was for. The page disables only the Regenerate button of the conversation
  whose id is recorded (App.js line 273). The model's actions are wider:
  `StartRegenerate` is accepted in every state, so the invariants proved
  over all action sequences cover more traces than the page can produce.
* **Ids may repeat.** Nothing makes ids unique, and every update applies to
  all conversations that share the id.
* **Closing the composer keeps the draft.** Closing or cancelling the
  composer leaves the draft in place. Only reopening the composer through
  the comment button clears it.

## Model

| member | source | states |
|---|---|---|
| Text.IndexOf | qa-evaluator-ui/src/App.js:20 | the least position at or after the start where the pattern occurs, or none when it occurs nowhere after it |
| Text.LastIndexOf | qa-evaluator-ui/src/App.js:20 | the greatest position below the bound where the pattern occurs, or none when it occurs nowhere below it |
| Text.Trim | qa-evaluator-ui/src/App.js:51 | `trim()` removes only whitespace, from the front and from the back, leaving a slice that neither starts nor ends with whitespace; it is empty exactly when the input is all whitespace |
| Text.BlankIsEmptyTrim | qa-evaluator-ui/src/App.js:51 | the blankness test used by the handlers is exactly `!s.trim()` |
| Text.Split | qa-evaluator-ui/src/App.js:21 | `split('</li>')` yields pieces that join back to the match and none of which contains `</li>` |
| Markup.FindClose | qa-evaluator-ui/src/App.js:14 | a lazy `(.*?)` closes at the nearest closing delimiter on the same line; when it finds none, there is none before the next line terminator |
| Markup.LazySpans | qa-evaluator-ui/src/App.js:14-16 | a lazy span replacement brings in no character except those of the new delimiters |
| Markup.MarkerLength | qa-evaluator-ui/src/App.js:31 | a literal marker matches exactly when the line starts with it, and covers just the marker; `\d+\. ` matches exactly when the line starts with one or more ASCII digits followed by `. `, and then covers the digits and the `. ` |
| Markup.LineEnd | qa-evaluator-ui/src/App.js:18 | `(.*$)` under the `m` flag stops at the first line terminator, or at the end of the text |
| Markup.LineRule | qa-evaluator-ui/src/App.js:27-31 | a line rule brings in no character except those of its new tags |
| Markup.ListBlock | qa-evaluator-ui/src/App.js:20 | without `<li>` the list step returns its input |
| Markup.ListBlockSplices | qa-evaluator-ui/src/App.js:20-23 | when `<li>` first occurs at `i` and `</li>` last occurs at `j`, at least four characters later, exactly the text from `i` through that `</li>` is replaced by its wrapped form, and the text before and after is kept |
| Markup.ListBlockNoLaterClose | qa-evaluator-ui/src/App.js:20 | when no `</li>` starts at or after the end of the first `<li>`, the list step returns its input |
| Markup.ListBlockAddsOnlyTags | qa-evaluator-ui/src/App.js:20-23 | the list step brings in no character except those of `<ul>`, `</li>` and `</ul>` |
| Markup.NonBlankFilters | qa-evaluator-ui/src/App.js:21 | `filter(item => item.trim())` keeps exactly the pieces that are not blank, and never more pieces than it was given |
| Markup.NonBlankAppend | qa-evaluator-ui/src/App.js:21 | `filter` keeps the pieces in their order: filtering a concatenation is concatenating the filtered parts |
| Markup.NonBlankKeepsOrder | qa-evaluator-ui/src/App.js:21 | a blank piece is dropped and any other piece is kept in its place between its filtered neighbours |
| Markup.WrapListChars | qa-evaluator-ui/src/App.js:22 | the replacement function's output is made of the match's characters and the list tags |
| Markup.Breaks | qa-evaluator-ui/src/App.js:25 | no `\n` survives step 5, it brings in only the characters of `<br>`, and text without `\n` is unchanged |
| Markup.CodeSpans | qa-evaluator-ui/src/App.js:33 | the code step brings in only the characters of the code tags, and text without a backtick is unchanged |
| Markup.RenderHasNoNewline | qa-evaluator-ui/src/App.js:12-35 | no step after the line-break step brings a `\n` back, so the HTML has none |
| Markup.FormatAnswerText | qa-evaluator-ui/src/App.js:9-36 | absent or empty text yields the empty string, and no output contains `\n` |
| MarkupProperties.LazyPassthrough | qa-evaluator-ui/src/App.js:14-16 | text without the opening delimiter's first character passes a lazy span step untouched, whatever follows it |
| MarkupProperties.LazyIdentity | qa-evaluator-ui/src/App.js:14-16 | a lazy span step changes nothing in text that lacks its delimiter character |
| MarkupProperties.LazySkipsUnclosedLine | qa-evaluator-ui/src/App.js:14-16 | a delimiter whose line holds no second one is left alone, because `.` cannot reach a delimiter on a later line |
| MarkupProperties.SuperscriptIdentity | qa-evaluator-ui/src/App.js:35 | the `<sup>` step is the identity on every text |
| MarkupProperties.BoldPairsNearest | qa-evaluator-ui/src/App.js:14 | `**` pairs with the nearest following `**` on the same line, and the rest of the text is formatted independently |
| MarkupProperties.ItalicPairsNearest | qa-evaluator-ui/src/App.js:16 | `*` pairs with the nearest following `*` on the same line, and the rest of the text is formatted independently |
| MarkupProperties.LazyWithoutOpen | qa-evaluator-ui/src/App.js:14-16 | where the opening delimiter occurs nowhere, a lazy span step copies the text unchanged |
| MarkupProperties.ItalicAfterBold | qa-evaluator-ui/src/App.js:14-16 | the italic step never sees the asterisks that bold consumed: a bold span comes out as `<strong>` alone |
| MarkupProperties.CodePassthrough | qa-evaluator-ui/src/App.js:33 | text before the first backtick is copied through, and the rest is processed on its own |
| MarkupProperties.CodeUnclosed | qa-evaluator-ui/src/App.js:33 | a backtick with no backtick after it stays as it is |
| MarkupProperties.CodeEmptyPair | qa-evaluator-ui/src/App.js:33 | two adjacent backticks enclose nothing, so the first stays and the second may open the next span |
| MarkupProperties.CodeSpanThenRest | qa-evaluator-ui/src/App.js:33 | a backtick, a non-empty run without backticks (line breaks included) and a backtick become `<code>` around the run, and the rest is processed on its own |
| MarkupProperties.LineRulePassthrough | qa-evaluator-ui/src/App.js:18 | a stretch of one line that does not start with the marker is copied unchanged, and `^` no longer holds after it |
| MarkupProperties.LineRuleWithoutBreaks | qa-evaluator-ui/src/App.js:27-31 | on text without line terminators, a line rule can only match at the start |
| MarkupProperties.LineRuleAbsent | qa-evaluator-ui/src/App.js:18 | a literal line rule changes nothing in text that lacks the marker's first character |
| MarkupProperties.LineRuleMatch | qa-evaluator-ui/src/App.js:18 | at a line start, the marker and the rest of its line become the new tags around that rest, and scanning resumes at the line's end |
| MarkupProperties.LineRuleAfterBreak | qa-evaluator-ui/src/App.js:18 | `^` holds again right after a line terminator |
| MarkupProperties.BreaksAppend | qa-evaluator-ui/src/App.js:25 | the line-break step distributes over concatenation |
| MarkupProperties.ListBlockWithoutOpenTags | qa-evaluator-ui/src/App.js:20 | where no `<` is followed by `l`, nothing is wrapped in a list |
| MarkupProperties.ListBlockWithoutTags | qa-evaluator-ui/src/App.js:20 | text without `<` is not wrapped in a list |
| MarkupProperties.StarFreeEarlyStages | qa-evaluator-ui/src/App.js:14-18 | text without an asterisk passes the first three steps untouched |
| MarkupProperties.EarlyStagesIdentity | qa-evaluator-ui/src/App.js:14-25 | text without an asterisk, `<` or `\n` passes the first five steps untouched |
| MarkupProperties.LateStagesIdentity | qa-evaluator-ui/src/App.js:27-35 | single-line text without a backtick that starts with neither `#` nor a digit passes steps 6 to 11 untouched |
| MarkupProperties.FinalStagesIdentity | qa-evaluator-ui/src/App.js:31-35 | single-line text without a backtick that does not start with a digit passes steps 9 to 11 untouched |
| FormatProperties.EmptyAnswer | qa-evaluator-ui/src/App.js:10 | an absent or empty answer formats to the empty string |
| FormatProperties.PlainTextUnchanged | qa-evaluator-ui/src/App.js:12-35 | single-line prose without `*`, backtick, `#` or `<li>` that does not start with a digit comes out unchanged, with nothing escaped |
| FormatProperties.BoldFormatted | qa-evaluator-ui/src/App.js:14-16 | `**c**` formats to `<strong>c</strong>` |
| FormatProperties.ItalicFormatted | qa-evaluator-ui/src/App.js:14-16 | `*c*` with non-empty plain `c` formats to `<em>c</em>` |
| FormatProperties.SingleStarsSkipBold | qa-evaluator-ui/src/App.js:14 | two single asterisks around a non-empty span without asterisks never form `**`, so the bold step leaves them alone |
| FormatProperties.Heading1Formatted | qa-evaluator-ui/src/App.js:29 | `# b` at the start of the text formats to `<h1>b</h1>` |
| FormatProperties.Heading2Formatted | qa-evaluator-ui/src/App.js:28 | `## b` at the start of the text formats to `<h2>b</h2>`; neither the `###` rule before it nor the `#` rule after it changes it |
| FormatProperties.Heading3Formatted | qa-evaluator-ui/src/App.js:27 | `### b` at the start of the text formats to `<h3>b</h3>`; the shorter heading rules after it do not change it |
| FormatProperties.ShorterHeadingUntouched | qa-evaluator-ui/src/App.js:27-29 | a literal line rule leaves a single line alone when the line differs from the marker somewhere within the marker's length |
| FormatProperties.HeadingSwallowsRest | qa-evaluator-ui/src/App.js:25-29 | `# b\nc` formats to `<h1>b<br>c</h1>`: the heading takes in the following lines, because they were joined by `<br>` first |
| FormatProperties.HeadingAfterBreakStaysLiteral | qa-evaluator-ui/src/App.js:25-29 | `a\n# b` formats to `a<br># b`: after the break became `<br>`, `^` no longer holds |
| FormatProperties.NumberedItemFormatted | qa-evaluator-ui/src/App.js:31 | `<digits>. b` at the start formats to `<li>b</li>`, with the number dropped and no list container |
| FormatProperties.NumberedItemSwallowsRest | qa-evaluator-ui/src/App.js:25-31 | `<digits>. b\nc` formats to one item `<li>b<br>c</li>`, so a second numbered line such as `2. two` stays literal inside the first item |
| FormatProperties.CodeFormatted | qa-evaluator-ui/src/App.js:33 | a backtick span of non-empty plain text formats to `<code>c</code>` |
| FormatProperties.CodeInsideText | qa-evaluator-ui/src/App.js:12-35 | `` a`c`b `` formats to `a<code>c</code>b`: the span is replaced where it stands and the prose on either side is kept |
| BulletLists.BulletsMarkItems | qa-evaluator-ui/src/App.js:18 | every bullet line becomes an `<li>` item, and every plain line is left alone |
| BulletLists.CloseItemsKeepLines | qa-evaluator-ui/src/App.js:21-22 | splitting the list body at `</li>`, dropping blank pieces and re-closing the others gives the body back |
| BulletLists.ListWrapsWholeText | qa-evaluator-ui/src/App.js:20-23 | a document that opens and closes with a bullet is wrapped, as a whole, in exactly one `<ul>` |
| BulletLists.BulletListFormatted | qa-evaluator-ui/src/App.js:18-25 | a document of bullet and plain lines formats to one `<ul>` holding the items and plain lines, separated by `<br>` |
| BulletLists.TwoItemList | qa-evaluator-ui/src/App.js:18-25 | `* a\n* b` formats to `<ul><li>a</li><br><li>b</li></ul>` |
| BulletLists.ListFramed | qa-evaluator-ui/src/App.js:20-23 | with plain lines before the first bullet and after the last, the list step wraps exactly the lines from the first bullet to the last and keeps the plain lines outside |
| BulletLists.FramedListFormatted | qa-evaluator-ui/src/App.js:18-25 | plain lines before the first bullet and after the last stay outside the single `<ul>`; all lines are joined by `<br>` |
| BulletLists.ParagraphThenList | qa-evaluator-ui/src/App.js:18-25 | `p\n* a\n* b` formats to `p<br><ul><li>a</li><br><li>b</li></ul>` |
| BulletLists.ListThenParagraph | qa-evaluator-ui/src/App.js:18-25 | `* a\n* b\nq` formats to `<ul><li>a</li><br><li>b</li></ul><br>q` |
| BulletLists.PlainLineInsideList | qa-evaluator-ui/src/App.js:20-23 | a plain line between two bullets ends up inside the same `<ul>`, because the match is greedy |
| Conversations.UpdateMatching | qa-evaluator-ui/src/App.js:89-99 | `map` over the list rewrites every conversation with the id in place, and no other |
| Conversations.EditQuestion | qa-evaluator-ui/src/App.js:226 | typing replaces the question draft and nothing else |
| Conversations.Ask | qa-evaluator-ui/src/App.js:50-78 | a blank draft changes nothing; success prepends one conversation with the trimmed question and no feedback, keeps the old list as its tail and clears the draft and error; failure keeps list and draft and sets the error |
| Conversations.RegenerateStart | qa-evaluator-ui/src/App.js:80-82 | the id is recorded whatever was there before, and the error is cleared |
| Conversations.RegenerateFinish | qa-evaluator-ui/src/App.js:84-105 | success gives every conversation with the id the new answer and evaluation, a regenerated timestamp and no feedback, and leaves the others; failure keeps the list and sets the error; either way no regeneration is recorded |
| Conversations.HandleFeedback | qa-evaluator-ui/src/App.js:109-128 | `comment` only opens the composer with an empty draft; a thumb replaces the feedback of every conversation with the id by one without comment, and changes nothing else |
| Conversations.EditFeedbackComment | qa-evaluator-ui/src/App.js:557 | typing replaces the comment draft and nothing else |
| Conversations.SubmitFeedbackComment | qa-evaluator-ui/src/App.js:130-152 | a blank draft changes nothing; otherwise every conversation with the composer's id gets the trimmed comment, and the composer closes with an empty draft |
| Conversations.CloseFeedbackComposer | qa-evaluator-ui/src/App.js:547 | the close and Cancel buttons close the composer and keep the draft |
| ConversationProperties.AskPreservesValid | qa-evaluator-ui/src/App.js:58-68 | every stored question is trimmed and not blank, and asking keeps that so |
| ConversationProperties.RegenerateFinishPreservesValid | qa-evaluator-ui/src/App.js:89-99 | regeneration keeps every stored record well formed |
| ConversationProperties.HandleFeedbackPreservesValid | qa-evaluator-ui/src/App.js:115-126 | thumbs feedback has no comment, so the invariant holds |
| ConversationProperties.SubmitPreservesValid | qa-evaluator-ui/src/App.js:137-148 | a stored comment is trimmed and not blank |
| ConversationProperties.StepPreservesValid | qa-evaluator-ui/src/App.js:39-165 | every transition keeps every stored record well formed |
| ConversationProperties.RunPreservesValid | qa-evaluator-ui/src/App.js:39-165 | any sequence of transitions from a valid state, such as the initial one, ends in a valid state |
| ConversationProperties.QuickFeedbackReplaces | qa-evaluator-ui/src/App.js:115-126 | thumbs up then down equals thumbs down alone, and leaves one thumbs-down on each matching conversation |
| ConversationProperties.CommentOpensComposerOnly | qa-evaluator-ui/src/App.js:110-112 | the comment button leaves the list unchanged and opens the composer for the id with an empty draft |
| ConversationProperties.CommentRoundTrip | qa-evaluator-ui/src/App.js:109-152 | open the composer, type a non-blank comment, submit: the trimmed comment lands on every conversation with the id, and the composer closes empty |
| ConversationProperties.BlankCommentIsIgnored | qa-evaluator-ui/src/App.js:131 | a whitespace-only comment submits nothing |
| ConversationProperties.CloseKeepsDraft | qa-evaluator-ui/src/App.js:547 | closing the composer keeps the draft; reopening it clears the draft |
| ConversationProperties.RegenerateResetsFeedback | qa-evaluator-ui/src/App.js:80-105 | a successful regeneration keeps id and question, replaces the answer, drops feedback on matching conversations only, and ends with nothing recorded and no error |
| ConversationProperties.RegenerateFailureKeepsList | qa-evaluator-ui/src/App.js:100-105 | a failed regeneration keeps the list, shows the error and ends with nothing recorded |
| ConversationProperties.OverlappingRegenerations | qa-evaluator-ui/src/App.js:81-104 | without a global guard, starting a second conversation's regeneration takes over the slot, and the first completion clears it while the second is still pending |
| ConversationProperties.RepeatedIdIsUpdatedTwice | qa-evaluator-ui/src/App.js:62 | an ask whose clock reading repeats an existing id adds a second conversation with it, and a thumb then lands on both |

## Left out

- The HTTP calls to `/ask` (App.js lines 57 and 85) are transport. Their reply is the `Outcome` parameter, and the question sent along for a regeneration is folded into it.
- The commented-out feedback POST (App.js lines 154-158) is not executed by the code. The `try`/`catch` around the comment submission can therefore never fail.
- The interleaving of concurrent asynchronous completions is not modelled. Each handler is one atomic step; regeneration is a start step plus a completion step, with no claims about scheduling.
- The `loading` and `submittingFeedback` flags only drive spinners and disabled buttons, so they are not modelled.
- `Date.now()` ids and `toLocaleString()` timestamps come from the clock and the locale. They are opaque parameters.
- JSX rendering, `getQualityIcon`, `getScoreColor` and `getMetricColor` are left out. They pick CSS classes and icons; `getMetricColor` also depends on floating-point thresholds and `toFixed` formatting.
- `handleKeyPress` is left out: it is a keyboard-event adapter that calls `askQuestion`.
- `qa-evaluator-ui/src/Footer.js` is left out: it is static markup.
- JavaScript strings are sequences of UTF-16 code units; the model's strings are sequences of Unicode scalar values. Text containing a lone surrogate has no counterpart in the model. For well-formed text every pattern here is made of characters outside the surrogate range, so matches fall at the same characters.
- Answers that are not strings are left out. `formatAnswerText` treats every falsy value as absent; the model's input is `Option<string>`.
- Markup.LazySpans: the contract states that no foreign characters are introduced, not the full output. The output for a span is given by `BoldPairsNearest`, `ItalicPairsNearest` and `LazySkipsUnclosedLine`, and end to end by `BoldFormatted` and `ItalicFormatted`.
- Markup.LineRule: the contract states that no foreign characters are introduced, not the full output. The output is given case by case by `LineRuleMatch`, `LineRulePassthrough` and `LineRuleAfterBreak`, and end to end by the heading, numbered-item and bullet lemmas.
- Markup.CodeSpans: the contract states that no foreign characters are introduced and that text without a backtick is unchanged, not the full output. The full output follows from four lemmas that between them cover every input: `CodePassthrough`, `CodeUnclosed`, `CodeEmptyPair` and `CodeSpanThenRest`. End to end it is given by `CodeFormatted` and `CodeInsideText`.
- Markup.ListBlock: the contract states only the case without `<li>`. The splice itself is stated by `ListBlockSplices`, and the case where no `</li>` follows by `ListBlockNoLaterClose`.
- FormatProperties.PlainTextUnchanged: it asks for no line terminator at all, not only no `\n`. Under the `m` flag, `^` also holds after `\r`, U+2028 and U+2029.
