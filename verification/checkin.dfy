/** How `performCheckin` reads the check-in endpoint's answer: success with the points and
    streak, "already checked in today", or a failure message. */
module Checkin {
  import opened Text
  import opened JsonValue

  /** The fields of `response.data`; all `Missing` when `data` itself is absent. */
  datatype CheckinData = CheckinData(pointsEarned: Value, points: Value, consecutiveDays: Value, streak: Value)

  /** The endpoint's answer (`message` is "" when absent), or the text of the error thrown
      (`error.response?.data?.message || error.message || ''`). */
  datatype CheckinAnswer = Answered(code: Value, message: string, data: CheckinData)
                         | Threw(error: string)

  datatype CheckinResult = CheckedIn(pointsEarned: Value, consecutiveDays: Value)
                         | AlreadyDone
                         | CheckinFailed(error: string)

  /** The words that mark an answer as "already checked in". */
  predicate MentionsDone(message: string) {
    var m := ToLower(message);
    Contains(m, "already") || Contains(m, "checked") || Contains(m, "today") || Contains(m, "done")
  }

  /** The same test on a thrown error, which does not look for "done". */
  predicate ThrownMentionsDone(error: string) {
    var m := ToLower(error);
    Contains(m, "already") || Contains(m, "checked") || Contains(m, "today")
  }

  function PerformCheckin(answer: CheckinAnswer): (r: CheckinResult)
    ensures answer.Answered? ==> (r.CheckedIn? <==> answer.code == Num(200))
    ensures answer.Answered? && r.CheckedIn? ==>
      r.pointsEarned == Or(Or(answer.data.pointsEarned, answer.data.points), Num(0))
      && r.consecutiveDays == Or(Or(answer.data.consecutiveDays, answer.data.streak), Num(0))
    ensures answer.Answered? ==>
      (r.AlreadyDone? <==> answer.code != Num(200) && (answer.code == Num(400) || MentionsDone(answer.message)))
    ensures answer.Answered? && r.CheckinFailed? ==>
      r.error == if answer.message != "" then answer.message else "Check-in failed"
    ensures answer.Threw? ==> !r.CheckedIn? && (r.AlreadyDone? <==> ThrownMentionsDone(answer.error))
    ensures answer.Threw? && r.CheckinFailed? ==> r.error == answer.error
  {
    match answer
    case Answered(code, message, data) =>
      if code == Num(200) then
        CheckedIn(Or(Or(data.pointsEarned, data.points), Num(0)), Or(Or(data.consecutiveDays, data.streak), Num(0)))
      else if code == Num(400) || (message != "" && MentionsDone(message)) then
        AlreadyDone
      else
        CheckinFailed(if message != "" then message else "Check-in failed")
    case Threw(error) =>
      if ThrownMentionsDone(error) then AlreadyDone else CheckinFailed(error)
  }

  /** The words are matched in any letter case. */
  lemma {:induction false} CaseDoesNotMatter(code: Value, message: string, data: CheckinData)
    ensures PerformCheckin(Answered(code, message, data)).AlreadyDone?
      == PerformCheckin(Answered(code, ToLower(message), data)).AlreadyDone?
  {
    ToLowerIdempotent(message);
  }

  /** The answer's words are the thrown error's words and "done": an answer is read as
      done whenever a thrown error with the same text would be, and on one word more. */
  lemma {:induction false} AnswerWordsExtendThrownWords(message: string)
    ensures ThrownMentionsDone(message) ==> MentionsDone(message)
    ensures MentionsDone(message) <==> ThrownMentionsDone(message) || Contains(ToLower(message), "done")
  {
  }

  /** A text whose only done-word is "done" marks a failed answer as already done, but the
      same text thrown as an error is a failure. */
  lemma {:induction false} DoneOnlyInAnswers(code: Value, message: string, data: CheckinData)
    requires code != Num(200) && Contains(ToLower(message), "done") && !ThrownMentionsDone(message)
    ensures PerformCheckin(Answered(code, message, data)) == AlreadyDone
    ensures PerformCheckin(Threw(message)) == CheckinFailed(message)
  {
  }
}
