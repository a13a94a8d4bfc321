/** The per-question answer builder inside the load handler of
    `src/pages/Play.jsx`: decode the texts, give the correct answer the id
    `q{i}-c` and the k-th incorrect one `q{i}-i{k}`, shuffle, and record the
    id of the answer flagged correct. The HTML decoder is a parameter. */
module QuestionBuilder {
  import opened Common
  import opened Quiz
  import Shuffle

  /** One entry of the question bank's `results` array. */
  datatype RawQuestion = RawQuestion(question: string, correctAnswer: string, incorrectAnswers: seq<string>)

  /** An answer before shuffling, still carrying its `isCorrect` flag. */
  datatype Choice = Choice(id: string, text: string, isCorrect: bool)

  function CorrectAnswerId(q: nat): string {
    "q" + NatToString(q) + "-c"
  }

  function IncorrectAnswerId(q: nat, k: nat): string {
    "q" + NatToString(q) + "-i" + NatToString(k)
  }

  /** The answer list before shuffling: the correct answer first. */
  function Options(raw: RawQuestion, q: nat, decode: string -> string): seq<Choice> {
    [Choice(CorrectAnswerId(q), decode(raw.correctAnswer), true)]
      + seq(|raw.incorrectAnswers|, k requires 0 <= k < |raw.incorrectAnswers| =>
              Choice(IncorrectAnswerId(q, k), decode(raw.incorrectAnswers[k]), false))
  }

  /** `shuffled.find(o => o.isCorrect)`. */
  function FindCorrect(s: seq<Choice>): (r: Option<Choice>)
    ensures r.Some? ==> r.value in s && r.value.isCorrect
    ensures r.None? ==> forall c :: c in s ==> !c.isCorrect
  {
    if s == [] then None
    else if s[0].isCorrect then Some(s[0])
    else FindCorrect(s[1..])
  }

  function ToAnswer(c: Choice): Answer {
    Answer(c.id, c.text)
  }

  function ChoiceId(c: Choice): string {
    c.id
  }

  function ChoiceLabel(c: Choice): string {
    c.text
  }

  /** The draws for one question fit its answer count. */
  predicate PicksFit(raw: RawQuestion, picks: seq<nat>) {
    Shuffle.ValidPicks(picks, 1 + |raw.incorrectAnswers|)
  }

  function BuildItem(raw: RawQuestion, q: nat, picks: seq<nat>, decode: string -> string): Item
    requires PicksFit(raw, picks)
  {
    var shuffled := Shuffle.FisherYates(Options(raw, q, decode), picks);
    Item(decode(raw.question),
         MapSeq(ToAnswer, shuffled),
         match FindCorrect(shuffled)
         case Some(c) => c.id
         case None => "")
  }

  /** Draws for every question of a response, each question its own. */
  predicate AllPicksFit(results: seq<RawQuestion>, picks: seq<seq<nat>>) {
    |picks| == |results| && forall i :: 0 <= i < |results| ==> PicksFit(results[i], picks[i])
  }

  /** `results.map((q, qIdx) => ...)`. */
  function BuildItems(results: seq<RawQuestion>, picks: seq<seq<nat>>, decode: string -> string): seq<Item>
    requires AllPicksFit(results, picks)
  {
    seq(|results|, i requires 0 <= i < |results| => BuildItem(results[i], i, picks[i], decode))
  }

  /** The ids the builder hands out for question `q` with `n` incorrect answers, in order. */
  function ExpectedIds(q: nat, n: nat): seq<string> {
    [CorrectAnswerId(q)] + seq(n, k requires 0 <= k < n => IncorrectAnswerId(q, k))
  }

  lemma CorrectIdIsNotIncorrect(q: nat, k: nat)
    ensures CorrectAnswerId(q) != IncorrectAnswerId(q, k)
  {
    var n := NatToString(q);
    assert CorrectAnswerId(q)[|n| + 2] == 'c';
    assert IncorrectAnswerId(q, k)[|n| + 2] == 'i';
  }

  lemma IncorrectIdsDiffer(q: nat, k1: nat, k2: nat)
    requires k1 != k2
    ensures IncorrectAnswerId(q, k1) != IncorrectAnswerId(q, k2)
  {
    var p := "q" + NatToString(q) + "-i";
    assert IncorrectAnswerId(q, k1) == p + NatToString(k1);
    assert IncorrectAnswerId(q, k2) == p + NatToString(k2);
    if IncorrectAnswerId(q, k1) == IncorrectAnswerId(q, k2) {
      assert (p + NatToString(k1))[|p|..] == NatToString(k1);
      assert (p + NatToString(k2))[|p|..] == NatToString(k2);
      NatToStringInjective(k1, k2);
    }
  }

  /** Within one question the ids `q{i}-c`, `q{i}-i0`, `q{i}-i1`, ... are pairwise distinct. */
  lemma ExpectedIdsDistinct(q: nat, n: nat)
    ensures Distinct(ExpectedIds(q, n))
  {
    var ids := ExpectedIds(q, n);
    forall a, b | 0 <= a < b < |ids| ensures ids[a] != ids[b] {
      if a == 0 {
        CorrectIdIsNotIncorrect(q, b - 1);
      } else {
        IncorrectIdsDiffer(q, a - 1, b - 1);
      }
    }
  }

  /** The built answers' ids are the shuffled list of the ids handed out. */
  lemma BuiltIdsAreShuffledIds(raw: RawQuestion, q: nat, picks: seq<nat>, decode: string -> string)
    requires PicksFit(raw, picks)
    ensures AnswerIds(BuildItem(raw, q, picks, decode).answers)
         == Shuffle.FisherYates(ExpectedIds(q, |raw.incorrectAnswers|), picks)
  {
    var opts := Options(raw, q, decode);
    var sh := Shuffle.FisherYates(opts, picks);
    Shuffle.FisherYatesPermutes(opts, picks);
    assert MapSeq(ChoiceId, opts) == ExpectedIds(q, |raw.incorrectAnswers|);
    Shuffle.FisherYatesCommutesWithMap(ChoiceId, opts, picks);
    assert AnswerIds(MapSeq(ToAnswer, sh)) == MapSeq(ChoiceId, sh);
  }

  /** The built answers' labels are the shuffled list of the decoded texts. */
  lemma BuiltLabelsAreShuffledLabels(raw: RawQuestion, q: nat, picks: seq<nat>, decode: string -> string)
    requires PicksFit(raw, picks)
    ensures AnswerLabels(BuildItem(raw, q, picks, decode).answers)
         == Shuffle.FisherYates([decode(raw.correctAnswer)] + MapSeq(decode, raw.incorrectAnswers), picks)
  {
    var opts := Options(raw, q, decode);
    var sh := Shuffle.FisherYates(opts, picks);
    Shuffle.FisherYatesPermutes(opts, picks);
    assert MapSeq(ChoiceLabel, opts) == [decode(raw.correctAnswer)] + MapSeq(decode, raw.incorrectAnswers);
    Shuffle.FisherYatesCommutesWithMap(ChoiceLabel, opts, picks);
    assert AnswerLabels(MapSeq(ToAnswer, sh)) == MapSeq(ChoiceLabel, sh);
  }

  /** The answer flagged correct survives the shuffle at some position `k`,
      and its id is `q{i}-c` and its text the decoded correct answer. */
  lemma BuiltCorrectAnswer(raw: RawQuestion, q: nat, picks: seq<nat>, decode: string -> string)
      returns (k: nat)
    requires PicksFit(raw, picks)
    ensures var it := BuildItem(raw, q, picks, decode);
      && it.correctId == CorrectAnswerId(q)
      && k < |it.answers| && it.answers[k] == Answer(CorrectAnswerId(q), decode(raw.correctAnswer))
  {
    var opts := Options(raw, q, decode);
    var sh := Shuffle.FisherYates(opts, picks);
    Shuffle.FisherYatesPermutes(opts, picks);
    assert opts[0] in multiset(sh);
    forall c | c in sh && c.isCorrect ensures c == opts[0] {
      assert c in multiset(opts);
    }
    assert FindCorrect(sh) == Some(opts[0]);
    k :| 0 <= k < |sh| && sh[k] == opts[0];
  }

  /** Everything the source promises of one built question. */
  lemma BuildItemSound(raw: RawQuestion, q: nat, picks: seq<nat>, decode: string -> string)
    requires PicksFit(raw, picks)
    ensures var it := BuildItem(raw, q, picks, decode);
      && it.question == decode(raw.question)
      && |it.answers| == 1 + |raw.incorrectAnswers|
      && it.correctId == CorrectAnswerId(q)
      && Distinct(AnswerIds(it.answers))
      && multiset(AnswerIds(it.answers)) == multiset(ExpectedIds(q, |raw.incorrectAnswers|))
      && (exists k :: 0 <= k < |it.answers| && it.answers[k].id == it.correctId)
      && (forall k, l ::
            (0 <= k < |it.answers| && 0 <= l < |it.answers|
             && it.answers[k].id == it.correctId && it.answers[l].id == it.correctId) ==> k == l)
      && (forall k :: 0 <= k < |it.answers| && it.answers[k].id == it.correctId
            ==> it.answers[k].text == decode(raw.correctAnswer))
      && multiset(AnswerLabels(it.answers))
           == multiset([decode(raw.correctAnswer)] + MapSeq(decode, raw.incorrectAnswers))
  {
    var it := BuildItem(raw, q, picks, decode);
    var ids := ExpectedIds(q, |raw.incorrectAnswers|);
    BuiltIdsAreShuffledIds(raw, q, picks, decode);
    Shuffle.FisherYatesPermutes(ids, picks);
    ExpectedIdsDistinct(q, |raw.incorrectAnswers|);
    Shuffle.FisherYatesKeepsDistinct(ids, picks);
    BuiltLabelsAreShuffledLabels(raw, q, picks, decode);
    Shuffle.FisherYatesPermutes([decode(raw.correctAnswer)] + MapSeq(decode, raw.incorrectAnswers), picks);
    var k0 := BuiltCorrectAnswer(raw, q, picks, decode);
    var aids := AnswerIds(it.answers);
    assert aids[k0] == it.correctId;
    forall k | 0 <= k < |it.answers| && it.answers[k].id == it.correctId
      ensures k == k0
    {
      assert aids[k] == aids[k0];
    }
  }

  /** Building the same question twice with different draws gives the same
      correct id and the same answer labels, only perhaps in another order. */
  lemma RebuildAgrees(raw: RawQuestion, q: nat, p1: seq<nat>, p2: seq<nat>, decode: string -> string)
    requires PicksFit(raw, p1) && PicksFit(raw, p2)
    ensures BuildItem(raw, q, p1, decode).correctId == BuildItem(raw, q, p2, decode).correctId
    ensures multiset(AnswerLabels(BuildItem(raw, q, p1, decode).answers))
         == multiset(AnswerLabels(BuildItem(raw, q, p2, decode).answers))
  {
    BuildItemSound(raw, q, p1, decode);
    BuildItemSound(raw, q, p2, decode);
  }

  /** One item per raw result, each well formed, with correct id `q{i}-c`. */
  lemma BuildItemsSound(results: seq<RawQuestion>, picks: seq<seq<nat>>, decode: string -> string)
    requires AllPicksFit(results, picks)
    ensures |BuildItems(results, picks, decode)| == |results|
    ensures forall i :: 0 <= i < |results| ==>
      WellFormed(BuildItems(results, picks, decode)[i])
      && BuildItems(results, picks, decode)[i].correctId == CorrectAnswerId(i)
      && |BuildItems(results, picks, decode)[i].answers| == 1 + |results[i].incorrectAnswers|
  {
    var items := BuildItems(results, picks, decode);
    forall i | 0 <= i < |results|
      ensures WellFormed(items[i]) && items[i].correctId == CorrectAnswerId(i)
           && |items[i].answers| == 1 + |results[i].incorrectAnswers|
    {
      BuildItemSound(results[i], i, picks[i], decode);
      var it := items[i];
      var k :| 0 <= k < |it.answers| && it.answers[k].id == it.correctId;
      assert AnswerIds(it.answers)[k] == it.correctId;
    }
  }
}
