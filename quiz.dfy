/**
 * Quiz grading (app.py:388-395).
 *
 * A quiz question has its options and a `correct_answer` label that may be
 * only the start of an option ("A" for "A) Paris"). A selection is right
 * when it starts with that label; when it is wrong, the answer shown is the
 * first option that starts with the label, or the bare label if none does.
 */
module Quiz {
  import opened Wrappers

  /** Python's `s.startswith(prefix)`. */
  predicate StartsWith(s: string, prefix: string)
  {
    prefix <= s
  }

  /** The first option at index `from` or later that starts with `correctAnswer`. */
  function FirstWithPrefix(options: seq<string>, correctAnswer: string, from: nat): (r: Option<nat>)
    decreases |options| - from
    ensures r.Some? ==> from <= r.value < |options| && StartsWith(options[r.value], correctAnswer)
    ensures r.Some? ==> forall j :: from <= j < r.value ==> !StartsWith(options[j], correctAnswer)
    ensures r.None? ==> forall j :: from <= j < |options| ==> !StartsWith(options[j], correctAnswer)
  {
    if from >= |options| then None
    else if StartsWith(options[from], correctAnswer) then Some(from)
    else FirstWithPrefix(options, correctAnswer, from + 1)
  }

  /** `next((opt for opt in options if opt.startswith(correct_answer)), correct_answer)`. */
  function ShownAnswer(options: seq<string>, correctAnswer: string): (r: string)
    ensures StartsWith(r, correctAnswer)
    ensures r == correctAnswer || r in options
  {
    match FirstWithPrefix(options, correctAnswer, 0)
    case Some(k) => options[k]
    case None => correctAnswer
  }

  /** What the question card shows under the radio buttons. */
  datatype Feedback = NoFeedback | Correct(answer: string) | Incorrect(shown: string)

  /** app.py:388-395; `selection` is the radio's value (None before anything is chosen). */
  function Grade(selection: Option<string>, options: seq<string>, correctAnswer: string): (r: Feedback)
    ensures r.NoFeedback? <==> selection.None? || selection.value == ""
    ensures r.Correct? ==> r.answer == selection.value && StartsWith(r.answer, correctAnswer)
    ensures r.Incorrect? ==> !StartsWith(selection.value, correctAnswer) && StartsWith(r.shown, correctAnswer)
  {
    if selection.None? || selection.value == "" then NoFeedback
    else if StartsWith(selection.value, correctAnswer) then Correct(selection.value)
    else Incorrect(ShownAnswer(options, correctAnswer))
  }

  /** A chosen option is graded correct exactly when it starts with the label. */
  lemma GradeCorrectIff(selection: string, options: seq<string>, correctAnswer: string)
    requires selection != ""
    ensures Grade(Some(selection), options, correctAnswer) == Correct(selection) <==> StartsWith(selection, correctAnswer)
    ensures Grade(Some(selection), options, correctAnswer).Incorrect? <==> !StartsWith(selection, correctAnswer)
  {
  }

  /**
   * The shown answer is the first option in list order that starts with the label;
   * when no option does, it is the label itself.
   */
  lemma ShownAnswerIsFirstMatch(options: seq<string>, correctAnswer: string)
    ensures (exists j :: 0 <= j < |options| && StartsWith(options[j], correctAnswer)) ==>
              exists k :: 0 <= k < |options| && ShownAnswer(options, correctAnswer) == options[k]
                && StartsWith(options[k], correctAnswer)
                && forall j :: 0 <= j < k ==> !StartsWith(options[j], correctAnswer)
    ensures (forall j :: 0 <= j < |options| ==> !StartsWith(options[j], correctAnswer)) ==> ShownAnswer(options, correctAnswer) == correctAnswer
  {
  }

  /** A wrong selection is never shown as the right answer: what is shown starts with the label. */
  lemma IncorrectShowsOtherAnswer(selection: string, options: seq<string>, correctAnswer: string)
    requires Grade(Some(selection), options, correctAnswer).Incorrect?
    ensures StartsWith(Grade(Some(selection), options, correctAnswer).shown, correctAnswer)
    ensures Grade(Some(selection), options, correctAnswer).shown != selection
  {
  }
}
