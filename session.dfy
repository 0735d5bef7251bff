/**
 * The quiz session: the quiz page holds the score and the 1-based number of
 * the current question; the question it shows holds the selected answer,
 * whether it has been submitted, and a seed drawn when it is mounted. The page
 * re-keys the question view by its number, so every advance mounts a fresh one.
 *
 * The transitions are pure functions on SessionState; the class Session holds
 * the same state in fields and its methods are proved to follow them.
 */
module QuizSession {
  import opened Wrappers
  import opened JsNumbers
  import opened AnswerOrder

  /** A question as the question bank returns it, with its text already decoded. */
  datatype RawQuestion = RawQuestion(question: string, correctAnswer: string, incorrectAnswers: seq<string>)

  /** State of the quiz page. */
  datatype PageState = PageState(gameScore: int, currentQuestionIndex: int, loading: bool)

  /** State of the mounted question view. */
  datatype QuestionState = QuestionState(selectedAnswer: string, hasAnswered: bool, seed: Seed)

  /** The whole session; `result` is the score text once the session has concluded. */
  datatype SessionState = SessionState(page: PageState, question: QuestionState, result: Option<string>)

  /** `questionsList.find((Q, index) => index === target)`, scanning from position `from`. */
  function FindQuestion(qs: seq<RawQuestion>, target: int, from: nat): (r: Option<RawQuestion>)
    requires from <= |qs|
    ensures r == if from <= target < |qs| then Some(qs[target]) else None
    decreases |qs| - from
  {
    if from == |qs| then None
    else if from == target then Some(qs[from])
    else FindQuestion(qs, target, from + 1)
  }

  /** The question shown for the 1-based `index`, if the list has one there. */
  function TargetQuestion(qs: seq<RawQuestion>, index: int): (r: Option<RawQuestion>)
    ensures r.Some? <==> 1 <= index <= |qs|
    ensures r.Some? ==> r.value == qs[index - 1]
  {
    FindQuestion(qs, index - 1, 0)
  }

  /** The result text `${score}/${questionsCount}`. */
  function ScoreText(score: int, count: int): string
  {
    IntToString(score) + "/" + IntToString(count)
  }

  /** The position of the first '/' in `t`, if any. */
  function SlashAt(t: string): (r: Option<nat>)
    ensures r.Some? ==> r.value < |t| && t[r.value] == '/' && forall i :: 0 <= i < r.value ==> t[i] != '/'
    ensures r.None? ==> forall i :: 0 <= i < |t| ==> t[i] != '/'
  {
    if t == [] then None
    else if t[0] == '/' then Some(0)
    else match SlashAt(t[1..]) case Some(k) => Some(k + 1) case None => None
  }

  /** How a reader of the result text gets score and count back. */
  function ReadScoreText(t: string): Option<(int, int)>
  {
    match SlashAt(t)
    case None => None
    case Some(k) =>
      var score, count := ParseInt(t[..k]), ParseInt(t[k + 1..]);
      if score.Some? && count.Some? then Some((score.value, count.value)) else None
  }

  /** The result text carries exactly the score and the count. */
  lemma ScoreTextRoundTrip(score: int, count: int)
    ensures ReadScoreText(ScoreText(score, count)) == Some((score, count))
  {
    var a, b := IntToString(score), IntToString(count);
    var t := ScoreText(score, count);
    assert t[..|a|] == a && t[|a|] == '/' && t[|a| + 1..] == b;
    assert forall i :: 0 <= i < |a| ==> t[i] == a[i] && t[i] != '/';
    assert SlashAt(t) == Some(|a|);
    ParseIntToString(score);
    ParseIntToString(count);
  }

  /** A freshly mounted question view. */
  function FreshQuestion(seed: Seed): QuestionState
  {
    QuestionState("", false, seed)
  }

  /** The page when the session starts: score 0, question 1, no loader. */
  function InitialState(seed: Seed): (s: SessionState)
    ensures s.page.gameScore == 0 && s.page.currentQuestionIndex == 1
    ensures s.question.selectedAnswer == "" && !s.question.hasAnswered && s.question.seed == seed
    ensures s.result.None?
    ensures forall qs :: |qs| >= 1 ==> Invariant(qs, s)
  {
    SessionState(PageState(0, 1, false), FreshQuestion(seed), None)
  }

  /** Questions submitted so far: all before the current one, and the current one once answered. */
  function Submitted(s: SessionState): int
  {
    s.page.currentQuestionIndex - 1 + (if s.question.hasAnswered then 1 else 0)
  }

  /**
   * What holds throughout a session over a non-empty list: the number is a
   * question of the list, the score is at most the questions submitted, and a
   * result, once there, is the score text of the last question.
   */
  predicate Invariant(qs: seq<RawQuestion>, s: SessionState) {
    |qs| >= 1 &&
    1 <= s.page.currentQuestionIndex <= |qs| &&
    0 <= s.page.gameScore <= Submitted(s) &&
    (s.result.Some? ==> s.question.hasAnswered && s.page.currentQuestionIndex == |qs|
                        && s.result.value == ScoreText(s.page.gameScore, |qs|)) &&
    (s.page.loading ==> s.result.Some?)
  }

  /** Submit is enabled exactly while the question is unanswered. */
  predicate SubmitEnabled(s: SessionState) {
    !s.question.hasAnswered
  }

  /** Next is enabled exactly once the question is answered. */
  predicate NextEnabled(s: SessionState) {
    s.question.hasAnswered
  }

  function CurrentQuestion(qs: seq<RawQuestion>, s: SessionState): (q: RawQuestion)
    requires Invariant(qs, s)
    ensures TargetQuestion(qs, s.page.currentQuestionIndex) == Some(q)
  {
    qs[s.page.currentQuestionIndex - 1]
  }

  /** The answers as shown: the engine's order of the current question's answers under its seed. */
  function Choices(engine: SortEngine, qs: seq<RawQuestion>, s: SessionState): (r: seq<string>)
    requires Invariant(qs, s)
    ensures |r| == 1 + |CurrentQuestion(qs, s).incorrectAnswers|
    ensures multiset(r) == multiset([CurrentQuestion(qs, s).correctAnswer] + CurrentQuestion(qs, s).incorrectAnswers)
    ensures CurrentQuestion(qs, s).correctAnswer in r
  {
    var q := CurrentQuestion(qs, s);
    AnswerChoices(engine, q.correctAnswer, q.incorrectAnswers, s.question.seed)
  }

  /** handleChangeRadioBtn: the selection becomes `answer`; nothing else moves. */
  function SelectAnswer(s: SessionState, answer: string): (t: SessionState)
    ensures t.question.selectedAnswer == answer
    ensures t.question.hasAnswered == s.question.hasAnswered && t.question.seed == s.question.seed
    ensures t.page == s.page && t.result == s.result
  {
    s.(question := s.question.(selectedAnswer := answer))
  }

  /**
   * handleSubmitClick: one point exactly when the selection is the correct
   * answer, then the question is answered.
   */
  function SubmitAnswer(qs: seq<RawQuestion>, s: SessionState): (t: SessionState)
    requires Invariant(qs, s) && SubmitEnabled(s)
    ensures Invariant(qs, t)
    ensures t.page.gameScore == s.page.gameScore + 1 <==> s.question.selectedAnswer == CurrentQuestion(qs, s).correctAnswer
    ensures t.page.gameScore == s.page.gameScore || t.page.gameScore == s.page.gameScore + 1
    ensures t.question.hasAnswered && !SubmitEnabled(t) && NextEnabled(t)
    ensures t.question.selectedAnswer == s.question.selectedAnswer && t.question.seed == s.question.seed
    ensures t.page.currentQuestionIndex == s.page.currentQuestionIndex && t.page.loading == s.page.loading
    ensures t.result == s.result
  {
    // updateScore is the page's `s => s + 1`
    var page := if s.question.selectedAnswer == CurrentQuestion(qs, s).correctAnswer then s.page.(gameScore := s.page.gameScore + 1) else s.page;
    SessionState(page, s.question.(hasAnswered := true), s.result)
  }

  /**
   * handleNextClick: at the last question of the list the session concludes
   * with the score text and shows the loader; before it, the page moves on and
   * mounts a fresh question view with a fresh seed.
   */
  function Advance(qs: seq<RawQuestion>, s: SessionState, freshSeed: Seed): (t: SessionState)
    requires Invariant(qs, s) && NextEnabled(s)
    ensures Invariant(qs, t)
    ensures t.result.Some? <==> s.page.currentQuestionIndex == |qs|
    ensures s.page.currentQuestionIndex == |qs| ==>
              t.result == Some(ScoreText(s.page.gameScore, |qs|)) && t.page.loading
              && t.page.currentQuestionIndex == s.page.currentQuestionIndex
              && t.page.gameScore == s.page.gameScore && t.question == s.question
    ensures s.page.currentQuestionIndex != |qs| ==>
              t.page.currentQuestionIndex == s.page.currentQuestionIndex + 1
              && t.page.gameScore == s.page.gameScore && t.page.loading == s.page.loading
              && t.question.selectedAnswer == "" && !t.question.hasAnswered && t.question.seed == freshSeed
  {
    if s.page.currentQuestionIndex == |qs| then
      SessionState(s.page.(loading := true), s.question, Some(ScoreText(s.page.gameScore, |qs|)))
    else
      // nextQuestion is the page's `x => x + 1`; the new key mounts a fresh question view
      SessionState(s.page.(currentQuestionIndex := s.page.currentQuestionIndex + 1), FreshQuestion(freshSeed), s.result)
  }

  /** What the user does: pick an answer, press Submit, press Next (a new seed is drawn if a question mounts). */
  datatype Event = Choose(answer: string) | PressSubmit | PressNext(freshSeed: Seed)

  /** One event; pressing a disabled button does nothing. */
  function Step(qs: seq<RawQuestion>, s: SessionState, e: Event): (t: SessionState)
    requires Invariant(qs, s)
    ensures Invariant(qs, t)
    ensures t.page.currentQuestionIndex >= s.page.currentQuestionIndex
    ensures Submitted(t) - Submitted(s) in {0, 1}
    ensures t.page.gameScore - s.page.gameScore <= Submitted(t) - Submitted(s)
  {
    match e
    case Choose(answer) => SelectAnswer(s, answer)
    case PressSubmit => if SubmitEnabled(s) then SubmitAnswer(qs, s) else s
    case PressNext(seed) => if NextEnabled(s) then Advance(qs, s, seed) else s
  }

  /** A sequence of events, applied in order. */
  function Run(qs: seq<RawQuestion>, s: SessionState, events: seq<Event>): (t: SessionState)
    requires Invariant(qs, s)
    ensures Invariant(qs, t)
    ensures s.page.currentQuestionIndex <= t.page.currentQuestionIndex <= |qs|
    ensures t.page.gameScore - s.page.gameScore <= Submitted(t) - Submitted(s)
    decreases |events|
  {
    if events == [] then s else Run(qs, Step(qs, s, events[0]), events[1..])
  }

  /** Exactly one of the two buttons is enabled; a press of Submit while it is disabled does nothing. */
  lemma DisabledSubmitDoesNothing(qs: seq<RawQuestion>, s: SessionState)
    requires Invariant(qs, s) && !SubmitEnabled(s)
    ensures NextEnabled(s)
    ensures Step(qs, s, PressSubmit) == s
  {
  }

  /** Exactly one of the two buttons is enabled; a press of Next while it is disabled does nothing. */
  lemma DisabledNextDoesNothing(qs: seq<RawQuestion>, s: SessionState, freshSeed: Seed)
    requires Invariant(qs, s) && !NextEnabled(s)
    ensures SubmitEnabled(s)
    ensures Step(qs, s, PressNext(freshSeed)) == s
  {
  }

  /**
   * Next before the last question mounts a fresh view of the following
   * question: nothing selected, Submit enabled and Next disabled, and its
   * answers shown in the order the newly drawn seed gives them.
   */
  lemma NextMountsFreshQuestion(engine: SortEngine, qs: seq<RawQuestion>, s: SessionState, freshSeed: Seed)
    requires Invariant(qs, s) && NextEnabled(s) && s.page.currentQuestionIndex < |qs|
    ensures var t := Advance(qs, s, freshSeed);
      && t.question.selectedAnswer == "" && SubmitEnabled(t) && !NextEnabled(t)
      && CurrentQuestion(qs, t) == qs[s.page.currentQuestionIndex]
      && Choices(engine, qs, t) == AnswerChoices(engine, qs[s.page.currentQuestionIndex].correctAnswer,
                                                 qs[s.page.currentQuestionIndex].incorrectAnswers, freshSeed)
  {
  }

  /** A graded submission: which question it was, and whether it scored. */
  datatype Grade = Grade(number: int, correct: bool)

  /**
   * The grade one event produces: a press of an enabled Submit grades the
   * current question, which is then one more question submitted; any other
   * event grades nothing and leaves score and submissions as they were.
   */
  function GradeOf(qs: seq<RawQuestion>, s: SessionState, e: Event): (gs: seq<Grade>)
    requires Invariant(qs, s)
    ensures |gs| <= 1
    ensures gs != [] ==> gs[0].number == Submitted(s) + 1 == Submitted(Step(qs, s, e))
    ensures gs != [] ==> gs[0].number <= Step(qs, s, e).page.currentQuestionIndex
    ensures gs != [] ==> Step(qs, s, e).page.gameScore == s.page.gameScore + (if gs[0].correct then 1 else 0)
    ensures gs == [] ==> Step(qs, s, e).page.gameScore == s.page.gameScore && Submitted(Step(qs, s, e)) == Submitted(s)
  {
    if e.PressSubmit? && SubmitEnabled(s)
    then [Grade(s.page.currentQuestionIndex, s.question.selectedAnswer == CurrentQuestion(qs, s).correctAnswer)]
    else []
  }

  /** The submissions that took effect during a run, in order. */
  function Grades(qs: seq<RawQuestion>, s: SessionState, events: seq<Event>): seq<Grade>
    requires Invariant(qs, s)
    decreases |events|
  {
    if events == [] then []
    else GradeOf(qs, s, events[0]) + Grades(qs, Step(qs, s, events[0]), events[1..])
  }

  function CountCorrect(gs: seq<Grade>): nat
  {
    if gs == [] then 0 else (if gs[0].correct then 1 else 0) + CountCorrect(gs[1..])
  }

  /** Question numbers strictly increase along the grades. */
  predicate Increasing(gs: seq<Grade>) {
    forall i, j :: 0 <= i < j < |gs| ==> gs[i].number < gs[j].number
  }

  /** Every grade is for a question numbered in [lo, hi]. */
  predicate NumberedWithin(gs: seq<Grade>, lo: int, hi: int) {
    forall i :: 0 <= i < |gs| ==> lo <= gs[i].number <= hi
  }

  /** A grade for a question before all the later ones keeps the grades increasing. */
  lemma GradePrepended(g: Grade, rest: seq<Grade>, lo: int, hi: int)
    requires Increasing(rest) && NumberedWithin(rest, g.number + 1, hi) && lo <= g.number <= hi
    ensures Increasing([g] + rest) && NumberedWithin([g] + rest, lo, hi)
  {
    var gs := [g] + rest;
    forall i, j | 0 <= i < j < |gs| ensures gs[i].number < gs[j].number {
      assert gs[j] == rest[j - 1];
      if i > 0 { assert gs[i] == rest[i - 1]; }
    }
    forall i | 0 <= i < |gs| ensures lo <= gs[i].number <= hi {
      if i > 0 { assert gs[i] == rest[i - 1]; }
    }
  }

  /**
   * Exactly-once scoring: during any run every question is graded at most
   * once, later questions after earlier ones, never one already submitted.
   */
  lemma {:induction false} GradedOncePerQuestion(qs: seq<RawQuestion>, s: SessionState, events: seq<Event>)
    requires Invariant(qs, s)
    ensures Increasing(Grades(qs, s, events))
    ensures NumberedWithin(Grades(qs, s, events), Submitted(s) + 1, Run(qs, s, events).page.currentQuestionIndex)
    decreases |events|
  {
    if events != [] {
      var t := Step(qs, s, events[0]);
      GradedOncePerQuestion(qs, t, events[1..]);
      var here, rest := GradeOf(qs, s, events[0]), Grades(qs, t, events[1..]);
      var last := Run(qs, t, events[1..]).page.currentQuestionIndex;
      assert Grades(qs, s, events) == here + rest;
      assert Run(qs, s, events) == Run(qs, t, events[1..]);
      if here != [] {
        assert here == [here[0]];
        GradePrepended(here[0], rest, Submitted(s) + 1, last);
      } else {
        assert here + rest == rest;
      }
    }
  }

  /**
   * Every graded submission is one more question submitted, and the score
   * grows by exactly the number of correct ones.
   */
  lemma {:induction false} ScoreCountsCorrectGrades(qs: seq<RawQuestion>, s: SessionState, events: seq<Event>)
    requires Invariant(qs, s)
    ensures Run(qs, s, events).page.gameScore == s.page.gameScore + CountCorrect(Grades(qs, s, events))
    ensures Submitted(Run(qs, s, events)) == Submitted(s) + |Grades(qs, s, events)|
    decreases |events|
  {
    if events != [] {
      var t := Step(qs, s, events[0]);
      ScoreCountsCorrectGrades(qs, t, events[1..]);
      var here, rest := GradeOf(qs, s, events[0]), Grades(qs, t, events[1..]);
      var gs := Grades(qs, s, events);
      assert gs == here + rest;
      assert Run(qs, s, events) == Run(qs, t, events[1..]);
      if here != [] {
        assert gs[0] == here[0] && gs[1..] == rest;
      } else {
        assert gs == rest;
      }
    }
  }

  /** Once concluded, nothing a user does changes the result or the score. */
  lemma {:induction false} ConclusionIsFinal(qs: seq<RawQuestion>, s: SessionState, events: seq<Event>)
    requires Invariant(qs, s) && s.result.Some?
    ensures Run(qs, s, events).result == s.result
    ensures Run(qs, s, events).page.gameScore == s.page.gameScore
    decreases |events|
  {
    if events != [] {
      var t := Step(qs, s, events[0]);
      assert t.result == s.result && t.page.gameScore == s.page.gameScore;
      ConclusionIsFinal(qs, t, events[1..]);
    }
  }

  /** Choosing and submitting never reorder the answers shown for the current question. */
  lemma {:induction false} ChoicesStableWithinQuestion(engine: SortEngine, qs: seq<RawQuestion>, s: SessionState, events: seq<Event>)
    requires Invariant(qs, s)
    requires forall i :: 0 <= i < |events| ==> !events[i].PressNext?
    ensures Run(qs, s, events).page.currentQuestionIndex == s.page.currentQuestionIndex
    ensures Choices(engine, qs, Run(qs, s, events)) == Choices(engine, qs, s)
    decreases |events|
  {
    if events != [] {
      var t := Step(qs, s, events[0]);
      assert t.page.currentQuestionIndex == s.page.currentQuestionIndex && t.question.seed == s.question.seed;
      ChoicesStableWithinQuestion(engine, qs, t, events[1..]);
    }
  }

  /** Running two event sequences one after the other. */
  lemma {:induction false} RunConcat(qs: seq<RawQuestion>, s: SessionState, a: seq<Event>, b: seq<Event>)
    requires Invariant(qs, s)
    ensures Run(qs, s, a + b) == Run(qs, Run(qs, s, a), b)
    decreases |a|
  {
    if a != [] {
      assert (a + b)[0] == a[0] && (a + b)[1..] == a[1..] + b;
      RunConcat(qs, Step(qs, s, a[0]), a[1..], b);
    } else {
      assert a + b == b;
    }
  }

  /** Answering one question: pick an answer, submit it, press Next. */
  function Round(answer: string, freshSeed: Seed): seq<Event>
  {
    [Choose(answer), PressSubmit, PressNext(freshSeed)]
  }

  /**
   * One round on an unanswered question scores one point exactly for the
   * correct answer; it moves to a fresh next question, or at the last one
   * concludes with the score text.
   */
  lemma {:induction false} RoundOutcome(qs: seq<RawQuestion>, s: SessionState, answer: string, freshSeed: Seed)
    requires Invariant(qs, s) && !s.question.hasAnswered
    ensures var t := Run(qs, s, Round(answer, freshSeed));
      && t.page.gameScore == s.page.gameScore + (if answer == CurrentQuestion(qs, s).correctAnswer then 1 else 0)
      && (s.page.currentQuestionIndex < |qs| ==>
            t.page.currentQuestionIndex == s.page.currentQuestionIndex + 1
            && t.question == FreshQuestion(freshSeed) && t.result.None? && !t.page.loading)
      && (s.page.currentQuestionIndex == |qs| ==>
            t.page.currentQuestionIndex == |qs| && t.result == Some(ScoreText(t.page.gameScore, |qs|)))
  {
    var e := Round(answer, freshSeed);
    var a := Step(qs, s, e[0]);
    var b := Step(qs, a, e[1]);
    var c := Step(qs, b, e[2]);
    assert e[1..][1..] == e[2..] && e[2..][1..] == [];
    assert Run(qs, s, e) == Run(qs, a, e[1..]) == Run(qs, b, e[2..]) == Run(qs, c, []);
  }

  /**
   * Three questions answered wrong, right, right give "2/3"; the Next after
   * the third question concludes.
   */
  lemma {:induction false} ThreeQuestionScenario(qs: seq<RawQuestion>, wrong: string, s1: Seed, s2: Seed, s3: Seed, s4: Seed)
    requires |qs| == 3 && wrong != qs[0].correctAnswer
    ensures Run(qs, InitialState(s1), Round(wrong, s2) + Round(qs[1].correctAnswer, s3) + Round(qs[2].correctAnswer, s4)).result
         == Some("2/3")
  {
    var a := InitialState(s1);
    RoundOutcome(qs, a, wrong, s2);
    var b := Run(qs, a, Round(wrong, s2));
    RoundOutcome(qs, b, qs[1].correctAnswer, s3);
    var c := Run(qs, b, Round(qs[1].correctAnswer, s3));
    RoundOutcome(qs, c, qs[2].correctAnswer, s4);
    RunConcat(qs, a, Round(wrong, s2), Round(qs[1].correctAnswer, s3));
    RunConcat(qs, a, Round(wrong, s2) + Round(qs[1].correctAnswer, s3), Round(qs[2].correctAnswer, s4));
    assert ScoreText(2, 3) == "2/3";
  }

  /**
   * When the bank returns fewer questions than requested, the list's own
   * length is the count: with two questions the Next after the second one
   * concludes with "k/2".
   */
  lemma {:induction false} ShortListConcludesAtItsLength(qs: seq<RawQuestion>, a1: string, a2: string, s1: Seed, s2: Seed, s3: Seed)
    requires |qs| == 2
    ensures var t := Run(qs, InitialState(s1), Round(a1, s2) + Round(a2, s3));
      t.page.currentQuestionIndex == 2 && t.result.Some?
      && t.result.value == ScoreText(t.page.gameScore, 2)
  {
    var a := InitialState(s1);
    RoundOutcome(qs, a, a1, s2);
    var b := Run(qs, a, Round(a1, s2));
    RoundOutcome(qs, b, a2, s3);
    RunConcat(qs, a, Round(a1, s2), Round(a2, s3));
  }

  /** The quiz page with its mounted question view. */
  class Session {
    const questions: seq<RawQuestion>
    const engine: SortEngine
    var gameScore: int
    var currentQuestionIndex: int
    var loading: bool
    var selectedAnswer: string
    var hasAnswered: bool
    var seed: Seed
    var result: Option<string>

    function State(): SessionState
      reads this
    {
      SessionState(PageState(gameScore, currentQuestionIndex, loading), QuestionState(selectedAnswer, hasAnswered, seed), result)
    }

    ghost predicate Valid()
      reads this
    {
      Invariant(questions, State())
    }

    /** The session over the fetched list, with the first question's seed. */
    constructor (questions: seq<RawQuestion>, engine: SortEngine, seed: Seed)
      requires |questions| >= 1
      ensures this.questions == questions && this.engine == engine
      ensures gameScore == 0 && currentQuestionIndex == 1
      ensures selectedAnswer == "" && !hasAnswered && this.seed == seed && result.None?
      ensures State() == InitialState(seed) && Valid()
    {
      this.questions := questions;
      this.engine := engine;
      gameScore, currentQuestionIndex, loading := 0, 1, false;
      selectedAnswer, hasAnswered, this.seed := "", false, seed;
      result := None;
    }

    /** The answers as currently shown. */
    method ShownChoices() returns (r: seq<string>)
      requires Valid()
      ensures r == Choices(engine, questions, State())
      ensures multiset(r) == multiset([questions[currentQuestionIndex - 1].correctAnswer]
                                      + questions[currentQuestionIndex - 1].incorrectAnswers)
    {
      var q := questions[currentQuestionIndex - 1];
      r := AnswerChoices(engine, q.correctAnswer, q.incorrectAnswers, seed);
    }

    method Select(answer: string)
      requires Valid()
      modifies this
      ensures Valid()
      ensures selectedAnswer == answer
      ensures State() == SelectAnswer(old(State()), answer)
    {
      selectedAnswer := answer;
    }

    /** Callable only while Submit is enabled. */
    method Submit()
      requires Valid() && !hasAnswered
      modifies this
      ensures Valid()
      ensures gameScore == old(gameScore) + (if old(selectedAnswer) == questions[currentQuestionIndex - 1].correctAnswer then 1 else 0)
      ensures hasAnswered
      ensures State() == SubmitAnswer(questions, old(State()))
    {
      if selectedAnswer == questions[currentQuestionIndex - 1].correctAnswer {
        gameScore := gameScore + 1;
      }
      hasAnswered := true;
    }

    /** Callable only while Next is enabled; `freshSeed` is the seed of the question mounted next, if any. */
    method Next(freshSeed: Seed)
      requires Valid() && hasAnswered
      modifies this
      ensures Valid()
      ensures old(currentQuestionIndex) == |questions| ==> result == Some(ScoreText(gameScore, |questions|))
      ensures old(currentQuestionIndex) != |questions| ==> currentQuestionIndex == old(currentQuestionIndex) + 1
      ensures State() == Advance(questions, old(State()), freshSeed)
    {
      if currentQuestionIndex == |questions| {
        loading := true;
        result := Some(ScoreText(gameScore, |questions|));
        return;
      }
      currentQuestionIndex := currentQuestionIndex + 1;
      selectedAnswer, hasAnswered, seed := "", false, freshSeed;
    }
  }
}
