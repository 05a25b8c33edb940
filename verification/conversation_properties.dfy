/**
 Properties of the conversation transitions: the record invariant every
 transition keeps, replace-not-append feedback, what regeneration resets,
 and the places where the handlers differ from an idealised store (no
 global regeneration guard, ids that may repeat).
 */
module ConversationProperties {
  import opened Wrappers
  import opened Text
  import opened Conversations

  /** What `trim()` leaves of a string that is not blank: not empty, and
      neither first nor last character is whitespace. */
  predicate Trimmed(t: string) {
    t != [] && !IsWhitespace(t[0]) && !IsWhitespace(t[|t| - 1])
  }

  /** A stored feedback has a comment exactly when it is a comment, and a
      comment is trimmed and not blank. */
  predicate WellFormedFeedback(f: Feedback) {
    && (f.kind == Comment <==> f.comment.Some?)
    && (f.comment.Some? ==> Trimmed(f.comment.value))
  }

  /** A stored question is trimmed and not blank; its feedback is well formed. */
  predicate WellFormedConversation(c: Conversation) {
    && Trimmed(c.question)
    && (c.feedback.Some? ==> WellFormedFeedback(c.feedback.value))
  }

  predicate AllWellFormed(cs: seq<Conversation>) {
    forall k :: 0 <= k < |cs| ==> WellFormedConversation(cs[k])
  }

  predicate Valid(s: Store) {
    AllWellFormed(s.conversations)
  }

  /** Trimming a string that is not blank gives a trimmed string. */
  lemma TrimmedOfNonBlank(t: string)
    requires !IsBlank(t)
    ensures Trimmed(Trim(t))
  {
    BlankIsEmptyTrim(t);
  }

  lemma ConsWellFormed(c: Conversation, cs: seq<Conversation>)
    requires WellFormedConversation(c) && AllWellFormed(cs)
    ensures AllWellFormed([c] + cs)
  {
    assert forall k :: 1 <= k < |cs| + 1 ==> ([c] + cs)[k] == cs[k - 1];
  }

  lemma InitialIsValid()
    ensures Valid(Initial)
  {
  }

  lemma AskPreservesValid(s: Store, outcome: Outcome, id: Id, now: Timestamp)
    requires Valid(s)
    ensures Valid(Ask(s, outcome, id, now))
  {
    if !IsBlank(s.question) && outcome.Success? {
      TrimmedOfNonBlank(s.question);
      var c := Conversation(id, Trim(s.question), outcome.answer, outcome.evaluation, now, None);
      ConsWellFormed(c, s.conversations);
      var r := Ask(s, outcome, id, now);
      assert r.conversations == [c] + s.conversations;
    }
  }

  lemma RegenerateFinishPreservesValid(s: Store, id: Id, outcome: Outcome, now: Timestamp)
    requires Valid(s)
    ensures Valid(RegenerateFinish(s, id, outcome, now))
  {
  }

  lemma HandleFeedbackPreservesValid(s: Store, id: Id, kind: FeedbackKind, now: Timestamp)
    requires Valid(s)
    ensures Valid(HandleFeedback(s, id, kind, now))
  {
  }

  lemma SubmitPreservesValid(s: Store, now: Timestamp)
    requires Valid(s)
    ensures Valid(SubmitFeedbackComment(s, now))
  {
    if !IsBlank(s.feedbackComment) {
      TrimmedOfNonBlank(s.feedbackComment);
      var fb := Feedback(Comment, now, Some(Trim(s.feedbackComment)));
      assert WellFormedFeedback(fb);
      var r := SubmitFeedbackComment(s, now);
      forall k | 0 <= k < |r.conversations|
        ensures WellFormedConversation(r.conversations[k])
      {
        var c := s.conversations[k];
        assert WellFormedConversation(c);
        assert r.conversations[k] == c || r.conversations[k] == c.(feedback := Some(fb));
      }
    }
  }

  /** Every transition keeps every stored record well formed. */
  lemma StepPreservesValid(s: Store, a: Action)
    requires Valid(s)
    ensures Valid(Step(s, a))
  {
    match a
    case AskQuestion(outcome, id, now) => AskPreservesValid(s, outcome, id, now);
    case FinishRegenerate(id, outcome, now) => RegenerateFinishPreservesValid(s, id, outcome, now);
    case GiveFeedback(id, kind, now) => HandleFeedbackPreservesValid(s, id, kind, now);
    case SubmitComment(now) => SubmitPreservesValid(s, now);
    case _ =>
  }

  /** Any sequence of transitions from a valid state ends in a valid state. */
  lemma {:induction false} RunPreservesValid(s: Store, actions: seq<Action>)
    requires Valid(s)
    ensures Valid(Run(s, actions))
    decreases |actions|
  {
    if |actions| > 0 {
      StepPreservesValid(s, actions[0]);
      RunPreservesValid(Step(s, actions[0]), actions[1..]);
    }
  }

  /** A thumb replaces whatever thumb came before: up then down is the same
      as down alone, and the matching conversations hold one thumbs-down. */
  lemma QuickFeedbackReplaces(s: Store, id: Id, first: FeedbackKind, second: FeedbackKind, t1: Timestamp, t2: Timestamp)
    requires first != Comment && second != Comment
    ensures HandleFeedback(HandleFeedback(s, id, first, t1), id, second, t2) == HandleFeedback(s, id, second, t2)
    ensures forall k :: 0 <= k < |s.conversations| && s.conversations[k].id == id ==>
      HandleFeedback(HandleFeedback(s, id, first, t1), id, second, t2).conversations[k].feedback
        == Some(Feedback(second, t2, None))
  {
    var twice := HandleFeedback(HandleFeedback(s, id, first, t1), id, second, t2);
    var once := HandleFeedback(s, id, second, t2);
    assert twice.conversations == once.conversations;
  }

  /** Choosing the comment button leaves every conversation as it was and
      opens the composer with an empty draft. */
  lemma CommentOpensComposerOnly(s: Store, id: Id, now: Timestamp)
    ensures HandleFeedback(s, id, Comment, now).conversations == s.conversations
    ensures HandleFeedback(s, id, Comment, now).feedbackModalOpen == Some(id)
    ensures HandleFeedback(s, id, Comment, now).feedbackComment == []
  {
  }

  /** Opening the composer, typing a non-blank comment and submitting it
      stores the trimmed comment on every conversation with that id, and
      closes the composer with an empty draft. */
  lemma CommentRoundTrip(s: Store, id: Id, text: string, t1: Timestamp, t2: Timestamp)
    requires !IsBlank(text)
    ensures var r := SubmitFeedbackComment(EditFeedbackComment(HandleFeedback(s, id, Comment, t1), text), t2);
      && r.feedbackModalOpen.None? && r.feedbackComment == []
      && |r.conversations| == |s.conversations|
      && forall k :: 0 <= k < |s.conversations| ==>
           r.conversations[k] ==
             if s.conversations[k].id == id
             then s.conversations[k].(feedback := Some(Feedback(Comment, t2, Some(Trim(text)))))
             else s.conversations[k]
  {
  }

  /** A blank comment submits nothing and leaves the composer as it was. */
  lemma BlankCommentIsIgnored(s: Store, now: Timestamp)
    requires forall k :: 0 <= k < |s.feedbackComment| ==> IsWhitespace(s.feedbackComment[k])
    ensures SubmitFeedbackComment(s, now) == s
  {
  }

  /** Closing the composer keeps the draft; only reopening it clears it. */
  lemma CloseKeepsDraft(s: Store, id: Id, now: Timestamp)
    ensures CloseFeedbackComposer(s).feedbackComment == s.feedbackComment
    ensures HandleFeedback(CloseFeedbackComposer(s), id, Comment, now).feedbackComment == []
  {
  }

  /** A successful regeneration gives every matching conversation the new
      answer and no feedback, keeps its id and question, leaves the other
      conversations alone, and ends with no regeneration recorded and no
      error shown. */
  lemma RegenerateResetsFeedback(s: Store, id: Id, answer: string, evaluation: Evaluation, now: Timestamp)
    ensures var r := Regenerate(s, id, Success(answer, evaluation), now);
      && r.regeneratingId.None? && r.error == []
      && |r.conversations| == |s.conversations|
      && forall k :: 0 <= k < |s.conversations| ==>
           && r.conversations[k].id == s.conversations[k].id
           && r.conversations[k].question == s.conversations[k].question
           && (s.conversations[k].id == id ==>
                 r.conversations[k].answer == answer && r.conversations[k].feedback.None?)
           && (s.conversations[k].id != id ==> r.conversations[k] == s.conversations[k])
  {
  }

  /** A failed regeneration leaves the list as it was and shows the error. */
  lemma RegenerateFailureKeepsList(s: Store, id: Id, now: Timestamp)
    ensures var r := Regenerate(s, id, Failure, now);
      r.conversations == s.conversations && r.error == RegenerateFailed && r.regeneratingId.None?
  {
  }

  /** There is no global in-flight guard: starting a regeneration of `b`
      while `a` is pending takes over the slot, and `a` finishing then
      clears it although `b` is still pending. Only the button of the
      conversation being regenerated is disabled, so `b` differs from `a`. */
  lemma OverlappingRegenerations(s: Store, a: Id, b: Id, outcome: Outcome, now: Timestamp)
    requires a != b
    ensures RegenerateStart(RegenerateStart(s, a), b).regeneratingId == Some(b)
    ensures RegenerateFinish(RegenerateStart(RegenerateStart(s, a), b), a, outcome, now).regeneratingId.None?
  {
  }

  /** Ids are not unique: an ask whose clock reading repeats an existing id
      adds a second conversation with it, and a thumb then lands on both. */
  lemma RepeatedIdIsUpdatedTwice(s: Store, k: nat, answer: string, evaluation: Evaluation,
                                 now: Timestamp, kind: FeedbackKind, later: Timestamp)
    requires !IsBlank(s.question) && k < |s.conversations| && kind != Comment
    ensures var asked := Ask(s, Success(answer, evaluation), s.conversations[k].id, now);
      && asked.conversations[0].id == asked.conversations[k + 1].id
      && HandleFeedback(asked, s.conversations[k].id, kind, later).conversations[0].feedback
           == Some(Feedback(kind, later, None))
      && HandleFeedback(asked, s.conversations[k].id, kind, later).conversations[k + 1].feedback
           == Some(Feedback(kind, later, None))
  {
    var asked := Ask(s, Success(answer, evaluation), s.conversations[k].id, now);
    assert asked.conversations[k + 1] == s.conversations[k];
  }
}
