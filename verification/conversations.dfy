/**
 The conversation state of the `App` component in
 qa-evaluator-ui/src/App.js: the list of question/answer exchanges, the
 question draft, the error banner, the id being regenerated, and the
 feedback composer. Every handler becomes a pure transition on `Store`.
 The evaluation service's reply, the clock and `Date.now()` ids come in as
 parameters.
 */
module Conversations {
  import opened Wrappers
  import opened Text

  /** Conversation ids are `Date.now()` milliseconds; nothing makes them
      unique. */
  type Id = nat

  /** What `new Date().toLocaleString()` produced; never inspected. */
  type Timestamp = string

  datatype Quality = Good | Bad | Error

  /** The judge's verdict as the service sends it. The store carries it
      and never looks inside. */
  datatype Evaluation = Evaluation(
    quality: Quality,
    score: real,
    reasoning: string,
    strengths: seq<string>,
    missingElements: seq<string>)

  datatype FeedbackKind = ThumbsUp | ThumbsDown | Comment

  datatype Feedback = Feedback(kind: FeedbackKind, timestamp: Timestamp, comment: Option<string>)

  datatype Conversation = Conversation(
    id: Id,
    question: string,
    answer: string,
    evaluation: Evaluation,
    timestamp: Timestamp,
    feedback: Option<Feedback>)

  /** How a POST to `/ask` ended. */
  datatype Outcome = Success(answer: string, evaluation: Evaluation) | Failure

  /** The component's state; `loading` and `submittingFeedback` only drive
      spinners and are not modelled. */
  datatype Store = Store(
    question: string,
    conversations: seq<Conversation>,
    error: string,
    regeneratingId: Option<Id>,
    feedbackModalOpen: Option<Id>,
    feedbackComment: string)

  const AskFailed := "Failed to get answer. Please check your connection."
  const RegenerateFailed := "Failed to regenerate answer. Please check your connection."
  const RegeneratedMark := " (Regenerated)"

  /** The state the component mounts with. */
  const Initial := Store("", [], "", None, None, "")

  /** `prev.map(conv => conv.id === id ? f(conv) : conv)`: every
      conversation with that id is rewritten, in place, and no other. */
  function UpdateMatching(cs: seq<Conversation>, id: Id, f: Conversation -> Conversation): (r: seq<Conversation>)
    ensures |r| == |cs|
    ensures forall k :: 0 <= k < |cs| && cs[k].id == id ==> r[k] == f(cs[k])
    ensures forall k :: 0 <= k < |cs| && cs[k].id != id ==> r[k] == cs[k]
  {
    if |cs| == 0 then []
    else [if cs[0].id == id then f(cs[0]) else cs[0]] + UpdateMatching(cs[1..], id, f)
  }

  /** The textarea's onChange (App.js line 226). */
  function EditQuestion(s: Store, text: string): (r: Store)
    ensures r.question == text
    ensures r.(question := s.question) == s
  {
    s.(question := text)
  }

  /** `askQuestion` run to completion as one step (App.js lines 50-78). A
      blank draft does nothing. Otherwise the error is cleared and, on
      success, one conversation with the trimmed question and no feedback
      is put in front of the list and the draft is emptied; on failure the
      list and draft stay and the error message is set. */
  function Ask(s: Store, outcome: Outcome, id: Id, now: Timestamp): (r: Store)
    ensures IsBlank(s.question) ==> r == s
    ensures !IsBlank(s.question) && outcome.Success? ==>
      && |r.conversations| == |s.conversations| + 1
      && r.conversations[1..] == s.conversations
      && r.conversations[0] == Conversation(id, Trim(s.question), outcome.answer, outcome.evaluation, now, None)
      && r.question == [] && r.error == []
    ensures !IsBlank(s.question) && outcome.Failure? ==>
      r.conversations == s.conversations && r.question == s.question && r.error == AskFailed
    ensures r.regeneratingId == s.regeneratingId
    ensures r.feedbackModalOpen == s.feedbackModalOpen && r.feedbackComment == s.feedbackComment
  {
    if IsBlank(s.question) then s
    else
      var q := Trim(s.question);
      match outcome
      case Success(answer, evaluation) =>
        var c := Conversation(id, q, answer, evaluation, now, None);
        assert ([c] + s.conversations)[1..] == s.conversations;
        s.(conversations := [c] + s.conversations, question := [], error := [])
      case Failure => s.(error := AskFailed)
  }

  /** The first half of `regenerateAnswer` (App.js lines 81-82): the id is
      recorded whatever was there before, and the error is cleared. */
  function RegenerateStart(s: Store, id: Id): (r: Store)
    ensures r.regeneratingId == Some(id) && r.error == []
    ensures r.conversations == s.conversations && r.question == s.question
    ensures r.feedbackModalOpen == s.feedbackModalOpen && r.feedbackComment == s.feedbackComment
  {
    s.(regeneratingId := Some(id), error := [])
  }

  /** The answer a successful regeneration writes over a conversation. */
  function Regenerated(c: Conversation, answer: string, evaluation: Evaluation, now: Timestamp): (r: Conversation)
    ensures r.id == c.id && r.question == c.question
    ensures r.answer == answer && r.evaluation == evaluation && r.feedback.None?
    ensures r.timestamp == now + RegeneratedMark
  {
    c.(answer := answer, evaluation := evaluation, timestamp := now + RegeneratedMark, feedback := None)
  }

  /** The completion of `regenerateAnswer` (App.js lines 84-105). On
      success every conversation with the id gets the new answer and
      evaluation, a regenerated timestamp and no feedback; on failure the
      list stays and the error is set. Either way the regenerating id is
      cleared, even if it now names another conversation. */
  function RegenerateFinish(s: Store, id: Id, outcome: Outcome, now: Timestamp): (r: Store)
    ensures r.regeneratingId.None?
    ensures |r.conversations| == |s.conversations|
    ensures outcome.Success? ==> r.error == s.error && forall k :: 0 <= k < |s.conversations| ==>
      r.conversations[k] ==
        if s.conversations[k].id == id
        then Regenerated(s.conversations[k], outcome.answer, outcome.evaluation, now)
        else s.conversations[k]
    ensures outcome.Failure? ==> r.conversations == s.conversations && r.error == RegenerateFailed
    ensures r.question == s.question
    ensures r.feedbackModalOpen == s.feedbackModalOpen && r.feedbackComment == s.feedbackComment
  {
    match outcome
    case Success(answer, evaluation) =>
      var cs := UpdateMatching(s.conversations, id, c => Regenerated(c, answer, evaluation, now));
      s.(conversations := cs, regeneratingId := None)
    case Failure => s.(error := RegenerateFailed, regeneratingId := None)
  }

  /** `regenerateAnswer` run to completion as one step. The question the
      button passes along only reaches the service, so it is folded into
      `outcome`. */
  function Regenerate(s: Store, id: Id, outcome: Outcome, now: Timestamp): Store {
    RegenerateFinish(RegenerateStart(s, id), id, outcome, now)
  }

  /** `handleFeedback` (App.js lines 109-128). `Comment` only opens the
      composer for the id with an empty draft; a thumb replaces the
      feedback of every conversation with the id by one without comment. */
  function HandleFeedback(s: Store, id: Id, kind: FeedbackKind, now: Timestamp): (r: Store)
    ensures kind == Comment ==> r == s.(feedbackModalOpen := Some(id), feedbackComment := [])
    ensures kind != Comment ==> |r.conversations| == |s.conversations| && forall k :: 0 <= k < |s.conversations| ==>
      r.conversations[k] ==
        if s.conversations[k].id == id
        then s.conversations[k].(feedback := Some(Feedback(kind, now, None)))
        else s.conversations[k]
    ensures kind != Comment ==> r.(conversations := s.conversations) == s
  {
    if kind == Comment then s.(feedbackModalOpen := Some(id), feedbackComment := [])
    else
      var fb := Feedback(kind, now, None);
      s.(conversations := UpdateMatching(s.conversations, id, (c: Conversation) => c.(feedback := Some(fb))))
  }

  /** The composer textarea's onChange (App.js line 557). */
  function EditFeedbackComment(s: Store, text: string): (r: Store)
    ensures r.feedbackComment == text
    ensures r.(feedbackComment := s.feedbackComment) == s
  {
    s.(feedbackComment := text)
  }

  /** `submitFeedbackComment` (App.js lines 130-165). A blank draft does
      nothing. Otherwise every conversation whose id is the open composer's
      gets a comment feedback with the trimmed draft (none does when the
      composer is closed), then the composer closes and the draft empties. */
  function SubmitFeedbackComment(s: Store, now: Timestamp): (r: Store)
    ensures IsBlank(s.feedbackComment) ==> r == s
    ensures !IsBlank(s.feedbackComment) ==>
      && r.feedbackModalOpen.None? && r.feedbackComment == []
      && |r.conversations| == |s.conversations|
      && (forall k :: 0 <= k < |s.conversations| ==>
            r.conversations[k] ==
              if Some(s.conversations[k].id) == s.feedbackModalOpen
              then s.conversations[k].(feedback := Some(Feedback(Comment, now, Some(Trim(s.feedbackComment)))))
              else s.conversations[k])
      && r.question == s.question && r.error == s.error && r.regeneratingId == s.regeneratingId
  {
    if IsBlank(s.feedbackComment) then s
    else
      var fb := Feedback(Comment, now, Some(Trim(s.feedbackComment)));
      var cs := match s.feedbackModalOpen
        case None => s.conversations
        case Some(target) => UpdateMatching(s.conversations, target, (c: Conversation) => c.(feedback := Some(fb)));
      s.(conversations := cs, feedbackModalOpen := None, feedbackComment := [])
  }

  /** The composer's close and Cancel buttons (App.js lines 547 and 565):
      the composer closes, the draft is kept. */
  function CloseFeedbackComposer(s: Store): (r: Store)
    ensures r.feedbackModalOpen.None?
    ensures r.(feedbackModalOpen := s.feedbackModalOpen) == s
  {
    s.(feedbackModalOpen := None)
  }

  /** Everything the user or the service can make happen. The set is
      wider than the page allows: the Regenerate button of a conversation
      whose id is the recorded one is disabled (App.js line 273), yet
      `StartRegenerate` is accepted in every state, so the invariants
      proved over all action sequences also cover that case. */
  datatype Action =
    | TypeQuestion(text: string)
    | AskQuestion(outcome: Outcome, id: Id, now: Timestamp)
    | StartRegenerate(id: Id)
    | FinishRegenerate(id: Id, outcome: Outcome, now: Timestamp)
    | GiveFeedback(id: Id, kind: FeedbackKind, now: Timestamp)
    | TypeComment(text: string)
    | SubmitComment(now: Timestamp)
    | CloseComposer

  function Step(s: Store, a: Action): Store {
    match a
    case TypeQuestion(text) => EditQuestion(s, text)
    case AskQuestion(outcome, id, now) => Ask(s, outcome, id, now)
    case StartRegenerate(id) => RegenerateStart(s, id)
    case FinishRegenerate(id, outcome, now) => RegenerateFinish(s, id, outcome, now)
    case GiveFeedback(id, kind, now) => HandleFeedback(s, id, kind, now)
    case TypeComment(text) => EditFeedbackComment(s, text)
    case SubmitComment(now) => SubmitFeedbackComment(s, now)
    case CloseComposer => CloseFeedbackComposer(s)
  }

  function Run(s: Store, actions: seq<Action>): Store
    decreases |actions|
  {
    if |actions| == 0 then s else Run(Step(s, actions[0]), actions[1..])
  }
}
