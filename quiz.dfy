/** The quiz screen: one question at a time, each answered once, a running
    score, and a row of progress dots. */
module Quiz {
  import opened Types

  /** The number of committed answers that match their question's answer;
      `picks[i]` is the option committed for question `i`. */
  function Correct(questions: seq<QuizQuestion>, picks: seq<string>): (n: nat)
    requires |picks| <= |questions|
    ensures n <= |picks|
  {
    if picks == [] then 0
    else
      var last := |picks| - 1;
      Correct(questions, picks[..last]) + (if picks[last] == questions[last].answer then 1 else 0)
  }

  /** A full score means every committed answer was right, and conversely. */
  lemma {:induction false} FullScoreIffAllRight(questions: seq<QuizQuestion>, picks: seq<string>)
    requires |picks| <= |questions|
    ensures Correct(questions, picks) == |picks|
        <==> forall i :: 0 <= i < |picks| ==> picks[i] == questions[i].answer
  {
    if picks != [] {
      var last := |picks| - 1;
      FullScoreIffAllRight(questions, picks[..last]);
      assert forall i :: 0 <= i < last ==> picks[..last][i] == picks[i];
    }
  }

  /** A zero score means every committed answer was wrong, and conversely. */
  lemma {:induction false} ZeroScoreIffAllWrong(questions: seq<QuizQuestion>, picks: seq<string>)
    requires |picks| <= |questions|
    ensures Correct(questions, picks) == 0
        <==> forall i :: 0 <= i < |picks| ==> picks[i] != questions[i].answer
  {
    if picks != [] {
      var last := |picks| - 1;
      ZeroScoreIffAllWrong(questions, picks[..last]);
      assert forall i :: 0 <= i < last ==> picks[..last][i] == picks[i];
    }
  }

  /** The state of one progress dot. */
  datatype Dot = Done | Current | Upcoming

  /** The dot for question `i` while question `current` is shown. */
  function DotFor(i: int, current: int): (d: Dot)
    ensures d == Done <==> i < current
    ensures d == Current <==> i == current
    ensures d == Upcoming <==> i > current
  {
    if i < current then Done else if i == current then Current else Upcoming
  }

  /** One dot per question. */
  function ProgressDots(count: nat, current: int): (dots: seq<Dot>)
    ensures |dots| == count
    ensures 0 <= current < count ==>
      dots == seq(current, _ => Done) + [Current] + seq(count - current - 1, _ => Upcoming)
  {
    seq(count, i => DotFor(i, current))
  }

  function CountDots(dots: seq<Dot>, d: Dot): nat
  {
    if dots == [] then 0 else CountDots(dots[..|dots| - 1], d) + (if dots[|dots| - 1] == d then 1 else 0)
  }

  /** With a valid index, exactly `current` dots are done, exactly one is
      current, and the rest are upcoming. */
  lemma {:induction false} DotCounts(count: nat, current: int)
    requires 0 <= current < count
    ensures CountDots(ProgressDots(count, current), Done) == current
    ensures CountDots(ProgressDots(count, current), Current) == 1
    ensures CountDots(ProgressDots(count, current), Upcoming) == count - 1 - current
  {
    DotCountsUpTo(count, current);
  }

  lemma {:induction false} DotCountsUpTo(k: nat, current: int)
    requires 0 <= current
    ensures CountDots(ProgressDots(k, current), Done) == if k <= current then k else current
    ensures CountDots(ProgressDots(k, current), Current) == if k <= current then 0 else 1
    ensures CountDots(ProgressDots(k, current), Upcoming) == if k <= current then 0 else k - 1 - current
  {
    if k > 0 {
      DotCountsUpTo(k - 1, current);
      assert ProgressDots(k, current)[..k - 1] == ProgressDots(k - 1, current);
    }
  }

  /** How an option button is marked. */
  datatype OptionMark = Pending | MarkedRight | MarkedWrong | Dimmed

  /** The mark of `option` under question `q`: before answering every option
      is pending; afterwards the right answer is marked right, a wrong pick
      is marked wrong and the others are dimmed. */
  function MarkFor(option: string, q: QuizQuestion, selected: Option<string>, answered: bool): (m: OptionMark)
    ensures m == Pending <==> !answered
    ensures m == MarkedRight <==> answered && option == q.answer
    ensures m == MarkedWrong <==> answered && option != q.answer && selected == Some(option)
  {
    if !answered then Pending
    else if option == q.answer then MarkedRight
    else if selected == Some(option) then MarkedWrong
    else Dimmed
  }

  /** A right pick marks no option wrong; a wrong pick marks exactly the
      picked option wrong. */
  lemma WrongMarkOnlyOnMiss(q: QuizQuestion, pick: string)
    ensures pick == q.answer ==> forall o :: MarkFor(o, q, Some(pick), true) != MarkedWrong
    ensures pick != q.answer ==> forall o :: MarkFor(o, q, Some(pick), true) == MarkedWrong <==> o == pick
  {
  }

  class QuizView {
    const questions: seq<QuizQuestion>
    var currentIndex: nat
    var selectedAnswer: Option<string>
    var isAnswered: bool
    var score: nat
    /** The option committed for each question answered so far. */
    ghost var picks: seq<string>

    ghost predicate Valid()
      reads this
    {
      && (|questions| == 0 ==> currentIndex == 0)
      && (|questions| > 0 ==> currentIndex < |questions|)
      && |picks| == currentIndex + (if isAnswered then 1 else 0)
      && |picks| <= |questions|
      && (isAnswered <==> selectedAnswer.Some?)
      && (isAnswered ==> selectedAnswer.value == picks[currentIndex])
      && score == Correct(questions, picks)
    }

    /** The number of questions answered so far. */
    function Answered(): nat
      reads this
    {
      currentIndex + (if isAnswered then 1 else 0)
    }

    constructor (qs: seq<QuizQuestion>)
      ensures questions == qs
      ensures currentIndex == 0 && selectedAnswer == None && !isAnswered && score == 0
      ensures picks == [] && Valid()
    {
      questions := qs;
      currentIndex := 0;
      selectedAnswer := None;
      isAnswered := false;
      score := 0;
      picks := [];
    }

    /** The score never exceeds the number of questions answered, nor the
        number of questions. */
    lemma ScoreBounded()
      requires Valid()
      ensures score <= Answered() <= |questions|
    {
    }

    /** Whether the selected answer is the current question's answer. */
    function IsCorrect(): (r: bool)
      reads this
      requires Valid() && currentIndex < |questions|
      ensures r ==> isAnswered
      ensures isAnswered ==> (r <==> picks[currentIndex] == questions[currentIndex].answer)
    {
      selectedAnswer == Some(questions[currentIndex].answer)
    }

    /** `handleAnswer`: the first answer to a question is committed; any
        later one is ignored. It is called only from the buttons of the
        current question's options. */
    method HandleAnswer(option: string)
      requires Valid() && currentIndex < |questions|
      requires questions[currentIndex].options.Some? && option in questions[currentIndex].options.value
      modifies this
      ensures Valid()
      ensures currentIndex == old(currentIndex)
      ensures old(isAnswered) ==>
        selectedAnswer == old(selectedAnswer) && isAnswered && score == old(score) && picks == old(picks)
      ensures !old(isAnswered) ==>
        && selectedAnswer == Some(option) && isAnswered
        && picks == old(picks) + [option]
        && score == old(score) + (if option == questions[currentIndex].answer then 1 else 0)
        && (IsCorrect() <==> score == old(score) + 1)
    {
      if isAnswered {
        return;
      }
      selectedAnswer := Some(option);
      isAnswered := true;
      picks := picks + [option];
      assert picks[..|picks| - 1] == old(picks);
      if option == questions[currentIndex].answer {
        score := score + 1;
      }
    }

    /** `nextQuestion`: advance to the next question, or report completion
        on the last one. Only reachable once the current question is
        answered, since its button is shown only then. */
    method NextQuestion() returns (complete: bool)
      requires Valid() && isAnswered
      modifies this
      ensures Valid()
      ensures complete <==> old(currentIndex) == |questions| - 1
      ensures complete ==>
        currentIndex == old(currentIndex) && selectedAnswer == old(selectedAnswer)
        && isAnswered && score == old(score) && picks == old(picks)
        && |picks| == |questions| && score <= |questions|
      ensures !complete ==>
        currentIndex == old(currentIndex) + 1 && selectedAnswer == None
        && !isAnswered && score == old(score) && picks == old(picks)
    {
      if currentIndex < |questions| - 1 {
        currentIndex := currentIndex + 1;
        selectedAnswer := None;
        isAnswered := false;
        complete := false;
      } else {
        complete := true;
      }
    }

    /** The dots shown above the question. */
    function Dots(): (dots: seq<Dot>)
      reads this
      ensures |dots| == |questions|
    {
      ProgressDots(|questions|, currentIndex)
    }

    /** The dots before the current question are done, the current one is
        marked, and the rest are upcoming. */
    lemma DotsCounted()
      requires Valid() && |questions| > 0
      ensures CountDots(Dots(), Done) == currentIndex
      ensures CountDots(Dots(), Current) == 1
      ensures CountDots(Dots(), Upcoming) == |questions| - 1 - currentIndex
    {
      DotCounts(|questions|, currentIndex);
    }
  }
}
