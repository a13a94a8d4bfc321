/** The review derivation of `src/pages/Results.jsx`: for each entry, the
    label of the correct answer, the label of the chosen one, whether it
    was answered correctly, and which of the three badges it gets. */
module Review {
  import opened Common
  import opened Quiz

  /** `answers.find(a => a.id === id)?.label`. */
  function FindLabel(answers: seq<Answer>, id: string): (r: Option<string>)
    ensures r.None? <==> id !in AnswerIds(answers)
  {
    if answers == [] then None
    else if answers[0].id == id then
      assert AnswerIds(answers)[0] == id;
      Some(answers[0].text)
    else
      assert AnswerIds(answers) == [answers[0].id] + AnswerIds(answers[1..]);
      FindLabel(answers[1..], id)
  }

  /** A found label belongs to the first answer carrying the id. */
  lemma {:induction false} FindLabelFirstMatch(answers: seq<Answer>, id: string)
    ensures FindLabel(answers, id).Some? ==>
      exists k :: 0 <= k < |answers| && answers[k].id == id && answers[k].text == FindLabel(answers, id).value
                  && forall j :: 0 <= j < k ==> answers[j].id != id
  {
    if answers != [] && answers[0].id != id {
      var rest := answers[1..];
      FindLabelFirstMatch(rest, id);
      if FindLabel(rest, id).Some? {
        var k :| 0 <= k < |rest| && rest[k].id == id && rest[k].text == FindLabel(rest, id).value
                 && forall j :: 0 <= j < k ==> rest[j].id != id;
        forall j | 0 <= j < k + 1 ensures answers[j].id != id {
          if j > 0 { assert answers[j] == rest[j - 1]; }
        }
        assert answers[k + 1] == rest[k];
      }
    }
  }

  /** `correct`: the label of the answer whose id is the correct id. */
  function CorrectLabel(e: ReviewEntry): Option<string> {
    FindLabel(e.answers, e.correctId)
  }

  /** `chosen`: null unless the selection is truthy and names an answer. */
  function Chosen(e: ReviewEntry): (r: Option<string>)
    ensures r.None? <==> !Truthy(e.selectedId) || e.selectedId.value !in AnswerIds(e.answers)
    ensures r.Some? ==> exists k :: 0 <= k < |e.answers| && e.answers[k].id == e.selectedId.value
                                      && e.answers[k].text == r.value
  {
    if Truthy(e.selectedId) then
      FindLabelFirstMatch(e.answers, e.selectedId.value);
      FindLabel(e.answers, e.selectedId.value)
    else None
  }

  /** `isCorrect = chosen != null && selectedId === correctId`. */
  predicate IsCorrect(e: ReviewEntry) {
    Chosen(e).Some? && e.selectedId == Some(e.correctId)
  }

  datatype Badge = Correct | Incorrect | NoAnswer

  /** `isCorrect ? 'Correct' : chosen ? 'Incorrect' : 'No answer'`;
      the middle test is JavaScript truthiness of the chosen label. */
  function BadgeOf(e: ReviewEntry): Badge {
    if IsCorrect(e) then Correct
    else if Truthy(Chosen(e)) then Incorrect
    else NoAnswer
  }

  function BadgeTitle(b: Badge): string {
    match b
    case Correct => "Correct"
    case Incorrect => "Incorrect"
    case NoAnswer => "No answer"
  }

  /** The three titles are distinct, so the label names the badge. */
  lemma BadgeTitleNamesBadge(a: Badge, b: Badge)
    ensures BadgeTitle(a) == BadgeTitle(b) <==> a == b
  {
  }

  function BadgeIcon(b: Badge): string {
    match b
    case Correct => "✅"
    case Incorrect => "❌"
    case NoAnswer => "—"
  }

  /** The style of the badge and of the chosen text:
      `chosen ? (isCorrect ? 'ok' : 'bad') : 'none'`. */
  function StyleOf(e: ReviewEntry): string {
    if Truthy(Chosen(e)) then (if IsCorrect(e) then "ok" else "bad") else "none"
  }

  /** The style agrees with the badge, except for a correct pick whose label
      is empty: it is titled Correct but styled as no answer. */
  lemma StyleAgreesWithBadge(e: ReviewEntry)
    ensures BadgeOf(e) == Incorrect <==> StyleOf(e) == "bad"
    ensures StyleOf(e) == "ok" ==> BadgeOf(e) == Correct
    ensures StyleOf(e) == "none" ==> BadgeOf(e) != Incorrect
    ensures BadgeOf(e) == Correct && StyleOf(e) != "ok" <==> IsCorrect(e) && Chosen(e) == Some("")
  {
  }

  /** What the review prints for one entry. */
  datatype Row = Row(question: string, badge: Badge, style: string, yourAnswer: string, correct: Option<string>)

  function RowOf(e: ReviewEntry): Row {
    Row(e.question, BadgeOf(e), StyleOf(e), Chosen(e).GetOr("No answer"), CorrectLabel(e))
  }

  /** The page: a redirect home when there is no result, else the score
      and one row per review entry. */
  datatype Page = Redirect(to: string) | ReviewPage(score: int, total: int, rows: seq<Row>)

  function ResultsPage(result: Option<QuizResult>): Page {
    match result
    case None => Redirect("/")
    case Some(r) => ReviewPage(r.score, r.total, MapSeq(RowOf, r.review))
  }

  /** Without a result nothing is reviewed and the page goes home; with one,
      there is exactly one row per entry, showing that entry's badge. */
  lemma ResultsPageShape(result: Option<QuizResult>)
    ensures result.None? <==> ResultsPage(result) == Redirect("/")
    ensures result.Some? ==> var p := ResultsPage(result);
      p.ReviewPage? && p.score == result.value.score && p.total == result.value.total
      && |p.rows| == |result.value.review|
      && forall k :: 0 <= k < |p.rows| ==> p.rows[k].badge == BadgeOf(result.value.review[k])
  {
  }

  /** The three badges are exclusive and cover every entry; Incorrect means
      a (truthy) chosen label whose selection is not the correct id. */
  lemma BadgeCases(e: ReviewEntry)
    ensures BadgeOf(e) == Correct <==> Truthy(e.selectedId) && e.selectedId.value == e.correctId
                                        && e.correctId in AnswerIds(e.answers)
    ensures BadgeOf(e) == Incorrect <==> !IsCorrect(e) && Truthy(Chosen(e))
    ensures BadgeOf(e) == NoAnswer <==> !IsCorrect(e) && !Truthy(Chosen(e))
    ensures BadgeOf(e) == NoAnswer ==> RowOf(e).yourAnswer == Chosen(e).GetOr("No answer")
  {
  }

  /** The "Correct:" text is the label of the (first) answer carrying the correct id. */
  lemma CorrectLabelNamesCorrectAnswer(e: ReviewEntry)
    requires e.correctId in AnswerIds(e.answers)
    ensures CorrectLabel(e).Some?
    ensures exists k :: 0 <= k < |e.answers| && e.answers[k].id == e.correctId
                        && e.answers[k].text == CorrectLabel(e).value
  {
    FindLabelFirstMatch(e.answers, e.correctId);
  }

  /** For an entry whose answers include the correct id, the Results page
      calls it correct exactly when the engine scored it. */
  lemma IsCorrectMatchesScoring(e: ReviewEntry)
    requires e.correctId in AnswerIds(e.answers)
    ensures IsCorrect(e) <==> Scores(e.selectedId, e.correctId)
  {
  }

  /** The number of entries with the Correct badge. */
  function CountCorrect(review: seq<ReviewEntry>): (n: nat)
    ensures n <= |review|
  {
    if review == [] then 0
    else CountCorrect(review[..|review| - 1]) + (if IsCorrect(review[|review| - 1]) then 1 else 0)
  }

  /** A picked answer whose decoded label is empty counts as "No answer",
      although it is shown as the (empty) chosen text, not "No answer". */
  lemma EmptyChosenLabelIsNoAnswer()
    ensures var e := ReviewEntry("Q", [Answer("q0-c", "A"), Answer("q0-i0", "")], "q0-c", Some("q0-i0"));
      BadgeOf(e) == NoAnswer && RowOf(e).yourAnswer == ""
  {
    var e := ReviewEntry("Q", [Answer("q0-c", "A"), Answer("q0-i0", "")], "q0-c", Some("q0-i0"));
    assert FindLabel(e.answers[1..], "q0-i0") == Some("");
  }
}
