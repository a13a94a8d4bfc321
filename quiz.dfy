/** The records the session engine builds and the results page reads:
    a question with its answers, one review entry per question, and the
    final result of a run. */
module Quiz {
  import opened Common

  datatype Answer = Answer(id: string, text: string)

  /** One entry of `items`: decoded question text, the shuffled answers and
      the id of the correct one. */
  datatype Item = Item(question: string, answers: seq<Answer>, correctId: string)

  /** One entry of `result.review`: an item zipped with the player's
      selection for it (null when nothing was picked). */
  datatype ReviewEntry = ReviewEntry(question: string, answers: seq<Answer>, correctId: string, selectedId: Option<string>)

  datatype QuizResult = QuizResult(score: int, total: int, review: seq<ReviewEntry>)

  function AnswerIds(answers: seq<Answer>): seq<string> {
    MapSeq((a: Answer) => a.id, answers)
  }

  function AnswerLabels(answers: seq<Answer>): seq<string> {
    MapSeq((a: Answer) => a.text, answers)
  }

  /** What every built question satisfies: ids are unique and the correct
      id is one of them. */
  ghost predicate WellFormed(it: Item) {
    Distinct(AnswerIds(it.answers)) && it.correctId in AnswerIds(it.answers)
  }

  /** The scoring test of `autoAdvanceOnTimeout`: a selection exists (is
      truthy) and equals the correct id. */
  predicate Scores(selected: Option<string>, correctId: string) {
    Truthy(selected) && selected.value == correctId
  }
}
