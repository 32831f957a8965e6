/** src/pages/SolveQuiz.jsx: the page that plays a quiz, one question at a
    time against a countdown. The model starts once the quiz is loaded:
    it holds each question's correctAnswer and the quiz's time limit, and
    every handler, timer tick and delayed call is one method. The time
    bonus and the result use exact rational arithmetic in place of
    floating point. */
module SolveQuiz {
  import opened Common

  /** `quiz.timeLimit || 30` for a numeric limit. */
  function MaxTime(timeLimit: int): (r: int)
    ensures r != 0
    ensures timeLimit != 0 ==> r == timeLimit
    ensures timeLimit == 0 ==> r == 30
  {
    if timeLimit != 0 then timeLimit else 30
  }

  /** The correctAnswer a selected index is compared with by `===`: a
      number stays as it is, a string goes through `parseInt(s, 10)`;
      anything else, like NaN, equals no index (None). */
  function CorrectIndex(correctAnswer: Json): (r: Option<int>)
    ensures correctAnswer.JInt? ==> r == Some(correctAnswer.n)
    ensures correctAnswer.JStr? ==> r == JsParseInt(correctAnswer.s)
    ensures !correctAnswer.JInt? && !correctAnswer.JStr? ==> r.None?
  {
    match correctAnswer
    case JInt(n) => Some(n)
    case JStr(s) => JsParseInt(s)
    case _ => None
  }

  /** The points of a correct answer: 100 plus
      ⌊timeLeft / maxTime · 100⌋. */
  function QuestionPoints(timeLeft: int, maxTime: int): int
    requires maxTime != 0
  {
    100 + FloorDiv(timeLeft * 100, maxTime)
  }

  /** The answer picked, or the timer's sentinel with index -1. */
  datatype Selection = Selection(answer: string, index: int)

  const TimedOut := Selection("", -1)

  /** `Math.round(correct / n * 100)`, or 0 for a quiz without questions:
      ⌊100·correct/n + 1/2⌋. */
  function ResultPercentage(correct: nat, n: nat): int {
    if n == 0 then 0 else (200 * correct + n) / (2 * n)
  }

  class Session {
    const answers: seq<Json>
    const timeLimit: int
    var currentQuestionIndex: nat
    var selected: Option<Selection>
    var timeLeft: int
    var showResult: bool
    var showScores: bool
    var timerActive: bool
    var score: int
    var correctAnswers: nat

    /** The states the page can reach: the index on a question (0 for a
        quiz without any), at most one correct answer counted per question
        reached, and with a positive limit every correct answer worth
        between 100 and 200 points and the clock between 0 and the limit. */
    predicate Valid()
      reads this
    {
      && (if |answers| == 0 then currentQuestionIndex == 0 else currentQuestionIndex < |answers|)
      && correctAnswers <= currentQuestionIndex + (if selected.Some? then 1 else 0)
      && (|answers| == 0 ==> correctAnswers == 0)
      && (MaxTime(timeLimit) > 0 ==>
            && 0 <= timeLeft <= MaxTime(timeLimit)
            && 100 * correctAnswers <= score <= 200 * correctAnswers)
    }

    /** The load: the first question, a full clock, nothing scored. */
    constructor (answers: seq<Json>, timeLimit: int)
      ensures this.answers == answers && this.timeLimit == timeLimit
      ensures currentQuestionIndex == 0 && selected.None? && timeLeft == MaxTime(timeLimit)
      ensures !showResult && !showScores && timerActive && score == 0 && correctAnswers == 0
      ensures Valid()
    {
      this.answers := answers;
      this.timeLimit := timeLimit;
      currentQuestionIndex := 0;
      selected := None;
      timeLeft := MaxTime(timeLimit);
      showResult := false;
      showScores := false;
      timerActive := true;
      score := 0;
      correctAnswers := 0;
    }

    /** The timer effect runs only while the page waits for an answer. */
    predicate TimerRuns()
      reads this
    {
      !showResult && selected.None? && timerActive
    }

    /** handleAnswerSelect, from the button of option `index` of the
        current question: only the first answer to a question counts; a
        correct one scores the time bonus. */
    method SelectAnswer(answer: string, index: int)
      requires Valid() && currentQuestionIndex < |answers|
      modifies this
      ensures Valid()
      ensures old(selected).Some? ==>
        selected == old(selected) && score == old(score) && correctAnswers == old(correctAnswers) && timerActive == old(timerActive)
      ensures old(selected).None? ==> selected == Some(Selection(answer, index)) && !timerActive
      ensures old(selected).None? && CorrectIndex(answers[currentQuestionIndex]) == Some(index) ==>
        correctAnswers == old(correctAnswers) + 1 && score == old(score) + QuestionPoints(old(timeLeft), MaxTime(timeLimit))
      ensures old(selected).None? && CorrectIndex(answers[currentQuestionIndex]) != Some(index) ==>
        correctAnswers == old(correctAnswers) && score == old(score)
      ensures currentQuestionIndex == old(currentQuestionIndex) && timeLeft == old(timeLeft)
      ensures showResult == old(showResult) && showScores == old(showScores)
    {
      if selected.Some? {
        return;
      }
      selected := Some(Selection(answer, index));
      timerActive := false;
      if CorrectIndex(answers[currentQuestionIndex]) == Some(index) {
        correctAnswers := correctAnswers + 1;
        var points := QuestionPoints(timeLeft, MaxTime(timeLimit));
        PointsBounds(timeLeft, MaxTime(timeLimit));
        score := score + points;
      }
    }

    /** One second of the interval: the clock goes down, and at 1 or less
        it stops at 0 with the sentinel selected, which scores nothing. */
    method Tick()
      requires Valid()
      modifies this
      ensures Valid()
      ensures !old(TimerRuns()) ==> timeLeft == old(timeLeft) && selected == old(selected) && timerActive == old(timerActive)
      ensures old(TimerRuns()) && old(timeLeft) > 1 ==> timeLeft == old(timeLeft) - 1 && selected == old(selected)
      ensures old(TimerRuns()) && old(timeLeft) <= 1 ==> timeLeft == 0 && selected == Some(TimedOut) && !timerActive
      ensures score == old(score) && correctAnswers == old(correctAnswers)
      ensures currentQuestionIndex == old(currentQuestionIndex) && showResult == old(showResult) && showScores == old(showScores)
    {
      if !TimerRuns() {
        return;
      }
      if timeLeft <= 1 {
        selected := Some(TimedOut);
        timerActive := false;
        timeLeft := 0;
      } else {
        timeLeft := timeLeft - 1;
      }
    }

    /** The call two seconds after an answer or a timeout. */
    method RevealScores()
      modifies this`showScores
      ensures showScores
    {
      showScores := true;
    }

    /** handleNextQuestion, five seconds after an answer or a timeout: the
        result after the last question, otherwise the next question with a
        full clock. */
    method NextQuestion()
      requires Valid()
      modifies this
      ensures Valid()
      ensures score == old(score) && correctAnswers == old(correctAnswers) && !showScores
      ensures old(currentQuestionIndex) + 1 >= |answers| ==>
        showResult && !timerActive && currentQuestionIndex == old(currentQuestionIndex)
        && selected == old(selected) && timeLeft == old(timeLeft)
      ensures old(currentQuestionIndex) + 1 < |answers| ==>
        currentQuestionIndex == old(currentQuestionIndex) + 1 && selected.None?
        && timeLeft == MaxTime(timeLimit) && timerActive && showResult == old(showResult)
    {
      if currentQuestionIndex >= |answers| - 1 {
        showScores := false;
        showResult := true;
        timerActive := false;
      } else {
        currentQuestionIndex := currentQuestionIndex + 1;
        selected := None;
        timeLeft := MaxTime(timeLimit);
        showScores := false;
        timerActive := true;
      }
    }
  }

  /** Multiplying by a non-negative number keeps an order. */
  lemma {:induction false} MulLeq(m: int, a: int, b: int)
    requires m >= 0 && a <= b
    ensures m * a <= m * b
    decreases m
  {
    if m > 0 {
      MulLeq(m - 1, a, b);
      assert m * a == (m - 1) * a + a && m * b == (m - 1) * b + b;
    }
  }

  /** The quotient of a positive divisor is the one integer q with
      d·q <= x < d·q + d. */
  lemma QuotientUnique(x: int, d: int, q: int)
    requires d > 0 && d * q <= x < d * q + d
    ensures x / d == q
  {
    var r := x / d;
    assert d * r <= x < d * r + d;
    if r > q {
      assert d * (q + 1) == d * q + d;
      MulLeq(d, q + 1, r);
    } else if r < q {
      MulLeq(d, r + 1, q);
    }
  }

  /** With a positive limit and the clock between 0 and the limit, a
      correct answer is worth 100 to 200 points. */
  lemma PointsBounds(timeLeft: int, maxTime: int)
    requires maxTime != 0
    ensures maxTime > 0 && 0 <= timeLeft <= maxTime ==> 100 <= QuestionPoints(timeLeft, maxTime) <= 200
  {
    if maxTime > 0 && 0 <= timeLeft <= maxTime {
      var b := FloorDiv(timeLeft * 100, maxTime);
      assert maxTime * b <= timeLeft * 100 < maxTime * b + maxTime;
      if b > 100 {
        MulLeq(maxTime, 101, b);
      }
      if b < 0 {
        MulLeq(maxTime, b, -1);
      }
    }
  }

  /** Answering sooner never scores less. */
  lemma FasterScoresMore(t1: int, t2: int, maxTime: int)
    requires maxTime > 0 && t1 <= t2
    ensures QuestionPoints(t1, maxTime) <= QuestionPoints(t2, maxTime)
  {
    var b1 := FloorDiv(t1 * 100, maxTime);
    var b2 := FloorDiv(t2 * 100, maxTime);
    assert maxTime * b1 <= t1 * 100;
    assert t2 * 100 < maxTime * b2 + maxTime;
    if b1 > b2 {
      assert maxTime * (b2 + 1) == maxTime * b2 + maxTime;
      MulLeq(maxTime, b2 + 1, b1);
    }
  }

  /** The score never passes the maximum the result page shows, the
      number of questions times 200, and at most every question is
      counted correct. */
  lemma ScoreWithinShownMaximum(s: Session)
    requires s.Valid() && MaxTime(s.timeLimit) > 0
    ensures s.correctAnswers <= |s.answers|
    ensures s.score <= |s.answers| * 200
  {
  }

  /** The result is a percentage from 0 to 100, and all correct gives
      100. */
  lemma PercentageBounds(correct: nat, n: nat)
    requires correct <= n
    ensures 0 <= ResultPercentage(correct, n) <= 100
    ensures n > 0 && correct == n ==> ResultPercentage(correct, n) == 100
  {
    if n > 0 {
      var x := 200 * correct + n;
      var p := ResultPercentage(correct, n);
      assert 2 * n * p <= x < 2 * n * p + 2 * n;
      if p > 100 {
        MulLeq(2 * n, 101, p);
      }
      if p < 0 {
        MulLeq(2 * n, p, -1);
      }
      if correct == n {
        QuotientUnique(x, 2 * n, 100);
      }
    }
  }

  /** Rounding can show 100% short of full marks: 199 correct answers out
      of 200 are 99.5%, shown as 100. */
  lemma RoundsUpToFull()
    ensures ResultPercentage(199, 200) == 100
  {
    QuotientUnique(200 * 199 + 200, 400, 100);
  }

  /** A correctAnswer stored as the text of a number is the index it
      names. */
  lemma StringAnswerParsed(k: int)
    ensures CorrectIndex(JStr(IntToString(k))) == Some(k)
  {
    JsParseIntToString(k, []);
    assert IntToString(k) + [] == IntToString(k);
  }
}
