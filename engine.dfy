/** The quiz session of `src/pages/Play.jsx`. Each field of `Session` is a
    piece of state the component keeps (`useState`, `endAtRef`, and the
    `result`/`isPlaying` it publishes); each method is one handler or
    effect, run atomically. The clock reading, the shuffle draws, the HTML
    decoder and the fetch outcome are parameters. */
module Engine {
  import opened Common
  import opened Quiz
  import QuestionBuilder
  import Timer
  import Review
  import JsNumber
  import JsValue
  import OpenTdb
  import Home

  datatype Status = Idle | Loading | Ready | Error

  /** The amount asked for when the stored settings hold none. */
  const FallbackAmount: nat := 10

  /** What the component passes to the questions fetch:
      `Number(settings.amount ?? 10)`, `settings.difficulty ?? ''` and
      `settings.category ?? ''`. */
  function FetchArgs(settings: Home.Settings): OpenTdb.QueryArgs {
    OpenTdb.QueryArgs(
      JsValue.Num(JsValue.ToNumber(JsValue.Coalesce(settings.amount, JsValue.Num(JsNumber.FromInt(FallbackAmount))))),
      JsValue.Coalesce(settings.category, JsValue.Str("")),
      JsValue.Coalesce(settings.difficulty, JsValue.Str("")))
  }

  /** The request the component makes: the amount is always sent, as the
      number the stored amount reads as (10 when there is none), so the
      service's own default never applies; the category and the difficulty
      are sent exactly when the stored value is truthy, as that value. */
  lemma FetchArgsQuery(settings: Home.Settings)
    ensures !FetchArgs(settings).amount.Undefined?
    ensures OpenTdb.Lookup(OpenTdb.Query(FetchArgs(settings)), "amount")
            == Some(JsNumber.NumberToString(JsValue.ToNumber(
                 JsValue.Coalesce(settings.amount, JsValue.Num(JsNumber.FromInt(FallbackAmount))))))
    ensures JsValue.IsNullish(settings.amount) ==>
              OpenTdb.Lookup(OpenTdb.Query(FetchArgs(settings)), "amount") == Some("10")
    ensures OpenTdb.Lookup(OpenTdb.Query(FetchArgs(settings)), "category")
            == if JsValue.IsTruthy(settings.category) then Some(JsValue.ToJsString(settings.category)) else None
    ensures OpenTdb.Lookup(OpenTdb.Query(FetchArgs(settings)), "difficulty")
            == if JsValue.IsTruthy(settings.difficulty) then Some(JsValue.ToJsString(settings.difficulty)) else None
  {
    OpenTdb.StampOfNat(FallbackAmount);
    assert NatToString(10) == "10";
  }

  /** The default settings ask for five questions of any category and
      difficulty. */
  lemma DefaultSettingsQuery()
    ensures OpenTdb.Query(FetchArgs(Home.DefaultSettings)) == [("amount", "5")]
  {
    OpenTdb.StampOfNat(5);
    assert NatToString(5) == "5";
  }

  const LoadFailedMessage := "Failed to load"

  /** The review built on the last question: `items.map((it, idx) => ({ question: it.question,
      answers: it.answers, correctId: it.correctId, selectedId: selectedId[idx] }))`. */
  function Zip(items: seq<Item>, selected: seq<Option<string>>): (r: seq<ReviewEntry>)
    requires |selected| == |items|
    ensures |r| == |items|
    ensures forall k :: 0 <= k < |items| ==>
      r[k] == ReviewEntry(items[k].question, items[k].answers, items[k].correctId, selected[k])
  {
    seq(|items|, k requires 0 <= k < |items| =>
      ReviewEntry(items[k].question, items[k].answers, items[k].correctId, selected[k]))
  }

  /** Every question the builder produced is well formed. */
  ghost predicate AllWellFormed(items: seq<Item>) {
    forall k :: 0 <= k < |items| ==> WellFormed(items[k])
  }

  /** The point one question earns when it is scored. */
  function Gain(selected: Option<string>, correctId: string): nat {
    if Scores(selected, correctId) then 1 else 0
  }

  /** How many of the first `k` questions the engine scores as correct. */
  function CountScored(items: seq<Item>, selected: seq<Option<string>>, k: nat): (n: nat)
    requires |selected| == |items| && k <= |items|
    ensures n <= k
  {
    if k == 0 then 0
    else CountScored(items, selected, k - 1) + Gain(selected[k - 1], items[k - 1].correctId)
  }

  /** Selections at or after position `k` do not affect the first `k` scores. */
  lemma {:induction false} CountScoredPrefix(items: seq<Item>, s1: seq<Option<string>>, s2: seq<Option<string>>, k: nat)
    requires |s1| == |items| && |s2| == |items| && k <= |items|
    requires forall j :: 0 <= j < k ==> s1[j] == s2[j]
    ensures CountScored(items, s1, k) == CountScored(items, s2, k)
  {
    if k > 0 {
      CountScoredPrefix(items, s1, s2, k - 1);
    }
  }

  /** Cross-check with `src/pages/Results.jsx`: the number of entries the
      review marks Correct equals the number the engine scored. */
  lemma {:induction false} ReviewCountsScore(items: seq<Item>, selected: seq<Option<string>>, k: nat)
    requires |selected| == |items| && k <= |items|
    requires AllWellFormed(items)
    ensures Review.CountCorrect(Zip(items, selected)[..k]) == CountScored(items, selected, k)
  {
    if k > 0 {
      var z := Zip(items, selected);
      assert z[..k][..k - 1] == z[..k - 1];
      ReviewCountsScore(items, selected, k - 1);
      Review.IsCorrectMatchesScoring(z[k - 1]);
    }
  }

  /** The part of the session that advancing through the questions
      changes: `current`, `score`, `finished`, `endAtRef.current` and the
      `result`/`isPlaying` published to the quiz context. */
  datatype Progress = Progress(current: nat, score: nat, finished: bool, endAt: Option<int>,
                               result: Option<QuizResult>, isPlaying: bool)

  /** How many questions have been scored: all of them once finished,
      otherwise those before the current one. */
  ghost function ScoredCount(items: seq<Item>, p: Progress): nat {
    if p.finished then |items| else p.current
  }

  /** The invariant of a session, stated over its fields. */
  ghost predicate Consistent(status: Status, items: seq<Item>, sel: seq<Option<string>>, p: Progress) {
    && |sel| == |items|
    && (items != [] ==> p.current < |items| && status == Ready)
    && (items == [] ==> p.current == 0 && p.score == 0 && !p.finished && p.endAt.None?)
    && p.score <= ScoredCount(items, p)
    && (p.finished ==> p.endAt.None? && p.result == Some(QuizResult(p.score, |items|, Zip(items, sel))))
    && (!p.finished ==> p.result.None?)
  }

  /** The score is the number of scored questions the player got right. */
  ghost predicate TallyHolds(items: seq<Item>, sel: seq<Option<string>>, p: Progress) {
    && |sel| == |items|
    && ScoredCount(items, p) <= |items|
    && p.score == CountScored(items, sel, ScoredCount(items, p))
  }

  /** `autoAdvanceOnTimeout` on values: nothing once finished or without
      questions; otherwise score the current question, then move to the
      next one, or after the last finish, clear the deadline, publish the
      result with one review entry per question and end the run. */
  function AdvanceOnTimeout(items: seq<Item>, sel: seq<Option<string>>, p: Progress): (r: Progress)
    requires |sel| == |items| && (items != [] ==> p.current < |items|)
    ensures items != [] ==> r.current < |items|
  {
    if p.finished || items == [] then p
    else
      var nextScore := p.score + Gain(sel[p.current], items[p.current].correctId);
      if p.current == |items| - 1 then
        Progress(p.current, nextScore, true, None, Some(QuizResult(nextScore, |items|, Zip(items, sel))), false)
      else
        Progress(p.current + 1, nextScore, false, p.endAt, p.result, p.isPlaying)
  }

  /** One timeout does nothing once finished or without questions.
      Otherwise the score rises by one exactly when the current selection is
      the correct id. Before the last question only the question index moves
      on. After the last one the run finishes in place, the deadline is
      cleared, the run ends, and the result carries the score, the total and
      one review entry per question. */
  lemma AdvanceCases(items: seq<Item>, sel: seq<Option<string>>, p: Progress)
    requires |sel| == |items| && (items != [] ==> p.current < |items|)
    ensures p.finished || items == [] ==> AdvanceOnTimeout(items, sel, p) == p
    ensures !p.finished && items != [] ==>
      && (AdvanceOnTimeout(items, sel, p).score == p.score + 1 <==> Scores(sel[p.current], items[p.current].correctId))
      && (AdvanceOnTimeout(items, sel, p).score == p.score <==> !Scores(sel[p.current], items[p.current].correctId))
    ensures !p.finished && p.current + 1 < |items| ==>
      AdvanceOnTimeout(items, sel, p) == p.(current := p.current + 1, score := AdvanceOnTimeout(items, sel, p).score)
    ensures !p.finished && items != [] && p.current + 1 == |items| ==>
      var r := AdvanceOnTimeout(items, sel, p);
      && r.finished && r.endAt.None? && !r.isPlaying && r.current == p.current
      && r.result == Some(QuizResult(r.score, |items|, Zip(items, sel)))
      && |r.result.value.review| == r.result.value.total
  {
  }

  /** Advancing keeps the invariant and keeps the score equal to the tally. */
  lemma AdvanceKeepsInvariant(status: Status, items: seq<Item>, sel: seq<Option<string>>, p: Progress)
    requires Consistent(status, items, sel, p)
    ensures Consistent(status, items, sel, AdvanceOnTimeout(items, sel, p))
    ensures TallyHolds(items, sel, p) ==> TallyHolds(items, sel, AdvanceOnTimeout(items, sel, p))
  {
    if !p.finished && items != [] {
      assert CountScored(items, sel, p.current + 1)
          == CountScored(items, sel, p.current) + Gain(sel[p.current], items[p.current].correctId);
    }
  }

  /** `n` timeouts in a row with the selections fixed. */
  function Timeouts(items: seq<Item>, sel: seq<Option<string>>, p: Progress, n: nat): (r: Progress)
    decreases n
    requires |sel| == |items| && (items != [] ==> p.current < |items|)
    ensures items != [] ==> r.current < |items|
  {
    if n == 0 then p else Timeouts(items, sel, AdvanceOnTimeout(items, sel, p), n - 1)
  }

  /** Left alone, a tallied run at question `c` finishes after exactly the
      `|items| - c` remaining timeouts (and not before), with the score the
      player earned on every question and the review of every question. */
  lemma {:induction false} TimeoutsFinishRun(items: seq<Item>, sel: seq<Option<string>>, p: Progress, n: nat)
    decreases n
    requires |sel| == |items| && items != [] && p.current < |items| && !p.finished
    requires TallyHolds(items, sel, p)
    requires p.current + n <= |items|
    ensures Timeouts(items, sel, p, n).finished <==> p.current + n == |items|
    ensures !Timeouts(items, sel, p, n).finished ==>
              Timeouts(items, sel, p, n).current == p.current + n && Timeouts(items, sel, p, n).result == p.result
    ensures Timeouts(items, sel, p, n).score == CountScored(items, sel, p.current + n)
    ensures Timeouts(items, sel, p, n).finished ==>
              && Timeouts(items, sel, p, n).result
                 == Some(QuizResult(Timeouts(items, sel, p, n).score, |items|, Zip(items, sel)))
              && !Timeouts(items, sel, p, n).isPlaying
  {
    if n > 0 {
      var q := AdvanceOnTimeout(items, sel, p);
      assert CountScored(items, sel, p.current + 1)
          == CountScored(items, sel, p.current) + Gain(sel[p.current], items[p.current].correctId);
      if p.current == |items| - 1 {
        assert n == 1;
        assert Timeouts(items, sel, q, 0) == q;
      } else {
        TimeoutsFinishRun(items, sel, q, n - 1);
      }
    }
  }

  class Session {
    var status: Status
    var error: Option<string>
    var items: seq<Item>
    var selectedId: seq<Option<string>>
    var current: nat
    var score: nat
    var finished: bool
    /** `endAtRef.current`: the absolute deadline of the current question. */
    var endAt: Option<int>
    var remainingMs: int
    var result: Option<QuizResult>
    var isPlaying: bool
    /** Whether the AbortController of the fetch that `Start` issued has fired. */
    var aborted: bool

    /** The fields that advancing changes, as one value. */
    function State(): Progress
      reads this
    {
      Progress(current, score, finished, endAt, result, isPlaying)
    }

    ghost predicate Valid()
      reads this
    {
      Consistent(status, items, selectedId, State())
    }

    /** The score counts exactly the correctly answered scored questions. */
    ghost predicate Tallied()
      reads this
    {
      TallyHolds(items, selectedId, State())
    }

    /** The state the component mounts with. */
    constructor ()
      ensures Valid() && Tallied() && AllWellFormed(items)
      ensures status == Idle && error == None && items == [] && selectedId == []
      ensures current == 0 && score == 0 && !finished
      ensures endAt == None && remainingMs == Timer.PerQuestionMs
      ensures result == None && !isPlaying && !aborted
    {
      status, error, items, selectedId := Idle, None, [], [];
      current, score, finished := 0, 0, false;
      endAt, remainingMs := None, Timer.PerQuestionMs;
      result, isPlaying, aborted := None, false, false;
    }

    /** The start-or-reset effect: clears the previous result, marks a run
        in progress, resets the quiz and the timer, and issues the fetch. */
    method Start()
      modifies this
      ensures Valid() && Tallied() && AllWellFormed(items)
      ensures status == Loading && error == None && result == None && isPlaying
      ensures items == [] && selectedId == [] && current == 0 && score == 0 && !finished
      ensures remainingMs == Timer.PerQuestionMs && endAt == None && !aborted
    {
      status := Loading;
      error := None;
      result := None;
      isPlaying := true;
      items, selectedId := [], [];
      current, score, finished := 0, 0, false;
      remainingMs := Timer.PerQuestionMs;
      endAt := None;
      aborted := false;
    }

    /** The fetch's `.then`: `results` is None when the body has no
        `results` array. An empty list leaves the page "ready" with no
        questions and ends the run; otherwise the items are built and every
        selection starts as null. */
    method LoadSucceeded(results: Option<seq<QuestionBuilder.RawQuestion>>, picks: seq<seq<nat>>,
                         decode: string -> string)
      requires Valid() && status == Loading && !aborted
      requires results.Some? ==> QuestionBuilder.AllPicksFit(results.value, picks)
      modifies this`items, this`selectedId, this`status, this`isPlaying
      ensures Valid() && Tallied() && AllWellFormed(items)
      ensures status == Ready && error == old(error) && aborted == old(aborted)
      ensures current == 0 && score == 0 && !finished && endAt == None && result == None
      ensures remainingMs == old(remainingMs)
      ensures results.None? || results.value == [] ==>
        items == [] && selectedId == [] && !isPlaying
      ensures results.Some? && results.value != [] ==>
        && items == QuestionBuilder.BuildItems(results.value, picks, decode)
        && |items| == |results.value|
        && selectedId == seq(|items|, _ => None)
        && isPlaying == old(isPlaying)
    {
      var rs := if results.Some? then results.value else [];
      if rs == [] {
        status := Ready;
        isPlaying := false;
        assert ScoredCount(items, State()) == 0 && CountScored(items, selectedId, 0) == 0;
        return;
      }
      var built := QuestionBuilder.BuildItems(rs, picks, decode);
      QuestionBuilder.BuildItemsSound(rs, picks, decode);
      assert AllWellFormed(built);
      items := built;
      selectedId := seq(|built|, _ => None);
      status := Ready;
      assert ScoredCount(items, State()) == 0 && CountScored(items, selectedId, 0) == 0;
    }

    /** The fetch's `.catch`: an AbortError changes nothing; any other error
        shows its message (or "Failed to load") and ends the run. */
    method LoadFailed(err: FetchError)
      requires Valid() && status == Loading
      requires aborted ==> err == AbortError
      modifies this`error, this`status, this`isPlaying
      ensures Valid() && (old(Tallied()) ==> Tallied())
      ensures err == AbortError ==> unchanged(this)
      ensures err.Failure? ==>
        && status == Error && !isPlaying
        && error == Some(if err.message == "" then LoadFailedMessage else err.message)
        && items == old(items) && selectedId == old(selectedId) && current == old(current)
        && score == old(score) && finished == old(finished) && endAt == old(endAt)
        && remainingMs == old(remainingMs) && result == old(result) && aborted == old(aborted)
    {
      if err == AbortError {
        return;
      }
      error := Some(if err.message == "" then LoadFailedMessage else err.message);
      status := Error;
      isPlaying := false;
    }

    /** The effect's cleanup: aborts the fetch and ends the run. */
    method Abandon()
      requires Valid()
      modifies this`aborted, this`isPlaying
      ensures Valid() && (old(Tallied()) ==> Tallied())
      ensures aborted && !isPlaying
    {
      aborted := true;
      isPlaying := false;
    }

    /** The ticking effect runs only with a deadline, unfinished, with items. */
    predicate TickLoopStarts()
      reads this
    {
      Timer.DeadlineSet(endAt) && !finished && items != []
    }

    /** The arm effect, run when the current question changes: a fresh
        deadline 20 s from now. */
    method ArmTimer(now: nat)
      requires Valid()
      modifies this`endAt, this`remainingMs
      ensures Valid() && (old(Tallied()) ==> Tallied())
      ensures items == [] || finished ==> endAt == old(endAt) && remainingMs == old(remainingMs)
      ensures items != [] && !finished ==>
        endAt == Some(now + Timer.PerQuestionMs) && remainingMs == Timer.PerQuestionMs && TickLoopStarts()
    {
      if items == [] || finished {
        return;
      }
      endAt := Some(now + Timer.PerQuestionMs);
      remainingMs := Timer.PerQuestionMs;
    }

    /** `autoAdvanceOnTimeout`, as `AdvanceOnTimeout` specifies it. */
    method AutoAdvance()
      requires Valid()
      modifies this`score, this`current, this`finished, this`endAt, this`result, this`isPlaying
      ensures Valid() && (old(Tallied()) ==> Tallied())
      ensures State() == AdvanceOnTimeout(items, selectedId, old(State()))
    {
      AdvanceKeepsInvariant(status, items, selectedId, State());
      var p := AdvanceOnTimeout(items, selectedId, State());
      current, score, finished, endAt, result, isPlaying := p.current, p.score, p.finished, p.endAt, p.result, p.isPlaying;
    }

    /** One tick of the drift-free loop: recompute the remaining time from
        the deadline; at zero, advance; otherwise return the delay to the
        next whole second. None means no further tick is scheduled. */
    method Tick(now: nat) returns (next: Option<int>)
      requires Valid()
      modifies this`score, this`current, this`finished, this`endAt, this`result, this`isPlaying, this`remainingMs
      ensures Valid() && (old(Tallied()) ==> Tallied())
      ensures !Timer.DeadlineSet(old(endAt)) ==> next == None && unchanged(this)
      ensures Timer.DeadlineSet(old(endAt)) ==> remainingMs == Timer.Remaining(old(endAt).value, now)
      ensures Timer.DeadlineSet(old(endAt)) && Timer.Remaining(old(endAt).value, now) > 0 ==>
        next == Some(Timer.NextDelay(now)) && State() == old(State())
      ensures Timer.DeadlineSet(old(endAt)) && Timer.Remaining(old(endAt).value, now) == 0 ==>
        next == None && State() == AdvanceOnTimeout(items, selectedId, old(State()))
    {
      var deadline := endAt;
      if !Timer.DeadlineSet(deadline) {
        return None;
      }
      var remain := Timer.Remaining(deadline.value, now);
      remainingMs := remain;
      if remain == 0 {
        AutoAdvance();
        return None;
      }
      next := Some(Timer.NextDelay(now));
    }

    /** `onSelect(qIndex, answerId)`: ignored once finished; otherwise only
        slot `q` changes, and a later choice overwrites an earlier one. */
    method OnSelect(q: nat, answerId: string)
      requires Valid() && q < |selectedId|
      modifies this`selectedId
      ensures Valid()
      ensures old(finished) ==> selectedId == old(selectedId)
      ensures !old(finished) ==> selectedId == old(selectedId)[q := Some(answerId)]
      ensures (old(finished) || q >= current) && old(Tallied()) ==> Tallied()
    {
      if finished {
        return;
      }
      selectedId := selectedId[q := Some(answerId)];
      if q >= current {
        CountScoredPrefix(items, old(selectedId), selectedId, current);
      }
    }
  }

  /** A finished run's result: score at most total, one review entry per
      question, and as many entries marked Correct as points scored. */
  lemma FinishedResultAgreesWithReview(s: Session)
    requires s.Valid() && s.Tallied() && AllWellFormed(s.items) && s.finished
    ensures s.result.Some?
    ensures s.result.value.score <= s.result.value.total == |s.result.value.review|
    ensures Review.CountCorrect(s.result.value.review) == s.result.value.score
  {
    ReviewCountsScore(s.items, s.selectedId, |s.items|);
    assert Zip(s.items, s.selectedId)[..|s.items|] == Zip(s.items, s.selectedId);
  }

  /** A session's score never exceeds its number of questions, and a
      finished session's result has one review entry per question. */
  lemma ScoreBounded(s: Session)
    requires s.Valid()
    ensures s.score <= |s.items|
    ensures s.finished ==>
              s.result.Some? && s.result.value.total == |s.items|
              && |s.result.value.review| == s.result.value.total
              && s.result.value.score <= s.result.value.total
  {
  }
}
