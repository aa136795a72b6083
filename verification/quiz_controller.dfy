/**
 * The quiz screen's controller as the object it is: its state variables are
 * fields that the tap, timer, button and fetch handlers update in place.
 * `State()` reads the fields as a `QuizModel.Quiz`, and every handler is
 * proved to move the object exactly as the matching step of `QuizModel`
 * does, so the invariants proved there hold of the object too.
 */
module QuizController {
  import opened Optional
  import opened OptionHighlight
  import opened QuizModel

  class MultipleChoice {
    var questions: seq<Question>
    var currentQuestionIndex: nat
    var questionsAttempted: nat
    var score: nat
    var disableBackForTimeout: bool
    /** Answer timers scheduled and not yet fired. */
    var pendingCommits: nat

    function State(): Quiz
      reads this
    {
      Quiz(questions, currentQuestionIndex, questionsAttempted, score, disableBackForTimeout, pendingCommits)
    }

    /** The screen as first mounted: no questions, nothing attempted, nothing locked. */
    constructor ()
      ensures State() == Initial
      ensures Inv(State()) && SpacedInv(State())
    {
      questions := [];
      currentQuestionIndex := 0;
      questionsAttempted := 0;
      score := 0;
      disableBackForTimeout := false;
      pendingCommits := 0;
    }

    /**
     * A tap on `option`. Ignored unless the question on display is the next
     * one to attempt; otherwise it locks Prev, writes the choice into that
     * question only, scores a right choice at once and schedules the commit.
     */
    method HandleAnswer(option: string)
      requires currentQuestionIndex < |questions|
      modifies this
      ensures State() == Answer(old(State()), option)
      ensures old(currentQuestionIndex) != old(questionsAttempted) ==> State() == old(State())
      ensures old(currentQuestionIndex) == old(questionsAttempted) ==>
                && disableBackForTimeout
                && questions == old(questions)[old(currentQuestionIndex) := old(questions)[old(currentQuestionIndex)].(selectedOption := Some(option))]
                && score == (if option == old(questions)[old(currentQuestionIndex)].answer then old(score) + 1 else old(score))
                && pendingCommits == old(pendingCommits) + 1
      ensures currentQuestionIndex == old(currentQuestionIndex) && questionsAttempted == old(questionsAttempted)
    {
      if currentQuestionIndex != questionsAttempted {
        return;
      }
      disableBackForTimeout := true;
      var updatedQuestions := questions;
      var current := updatedQuestions[currentQuestionIndex];
      current := current.(selectedOption := Some(option));
      updatedQuestions := updatedQuestions[currentQuestionIndex := current];
      if IsCorrect(option, current.answer) {
        score := score + 1;
      }
      questions := updatedQuestions;
      pendingCommits := pendingCommits + 1;
    }

    /** One scheduled answer timer fires: index and attempted count advance together and the lock is lifted. */
    method TimerFires()
      requires pendingCommits > 0
      modifies this
      ensures State() == Commit(old(State()))
      ensures questionsAttempted == old(questionsAttempted) + 1
      ensures currentQuestionIndex == old(currentQuestionIndex) + 1
      ensures !disableBackForTimeout && pendingCommits == old(pendingCommits) - 1
      ensures questions == old(questions) && score == old(score)
    {
      questionsAttempted := questionsAttempted + 1;
      currentQuestionIndex := currentQuestionIndex + 1;
      disableBackForTimeout := false;
      pendingCommits := pendingCommits - 1;
    }

    /** The Prev button: disabled on the first question and while locked; otherwise one question back. */
    method PressPrev()
      modifies this
      ensures State() == Prev(old(State()))
      ensures old(PrevEnabled(State())) ==> currentQuestionIndex == old(currentQuestionIndex) - 1
      ensures !old(PrevEnabled(State())) ==> currentQuestionIndex == old(currentQuestionIndex)
      ensures questions == old(questions) && questionsAttempted == old(questionsAttempted)
      ensures score == old(score) && disableBackForTimeout == old(disableBackForTimeout)
      ensures pendingCommits == old(pendingCommits)
    {
      if currentQuestionIndex == 0 || disableBackForTimeout {
        return;
      }
      currentQuestionIndex := currentQuestionIndex - 1;
    }

    /** The Next button: disabled on the next question to attempt; otherwise one question forward. */
    method PressNext()
      modifies this
      ensures State() == Next(old(State()))
      ensures old(NextEnabled(State())) ==> currentQuestionIndex == old(currentQuestionIndex) + 1
      ensures !old(NextEnabled(State())) ==> currentQuestionIndex == old(currentQuestionIndex)
      ensures questions == old(questions) && questionsAttempted == old(questionsAttempted)
      ensures score == old(score) && disableBackForTimeout == old(disableBackForTimeout)
      ensures pendingCommits == old(pendingCommits)
    {
      if currentQuestionIndex == questionsAttempted {
        return;
      }
      currentQuestionIndex := currentQuestionIndex + 1;
    }

    /** A fetch completes: a page is appended after the questions held, no response changes nothing. */
    method ReceivePage(response: Option<seq<Question>>)
      modifies this
      ensures State() == Append(old(State()), response)
      ensures questions == if response.Some? then old(questions) + response.value else old(questions)
      ensures currentQuestionIndex == old(currentQuestionIndex) && questionsAttempted == old(questionsAttempted)
      ensures score == old(score) && disableBackForTimeout == old(disableBackForTimeout)
      ensures pendingCommits == old(pendingCommits)
    {
      if response.Some? {
        questions := questions + response.value;
      }
    }

    /** Whatever the event, the handler keeps the invariant that holds on every run. */
    method Handle(e: Event)
      requires Occurs(State(), e) && Inv(State())
      modifies this
      ensures State() == Step(old(State()), e)
      ensures Inv(State()) && Follows(old(State()), State())
    {
      StepKeepsInv(State(), e);
      StepFollows(State(), e);
      match e
      case Tap(option) => HandleAnswer(option);
      case TimerFires => TimerFires();
      case PressPrev => PressPrev();
      case PressNext => PressNext();
      case Fetched(response) => ReceivePage(response);
    }
  }

  /**
   * The screen driven through: load one question, answer it correctly, let
   * the timer fire. Returns the score and attempted count right after the tap
   * and after the timer, and whether the screen is loading at the end.
   */
  method RightAnswerWalkthrough() returns (scoreAfterTap: nat, attemptedAfterTap: nat,
                                         scoreAfterTimer: nat, attemptedAfterTimer: nat, loading: bool)
    ensures scoreAfterTap == 1 && attemptedAfterTap == 0
    ensures scoreAfterTimer == 1 && attemptedAfterTimer == 1
    ensures loading
  {
    var screen := new MultipleChoice();
    screen.ReceivePage(Some([Sample]));
    screen.HandleAnswer("4");
    scoreAfterTap, attemptedAfterTap := screen.score, screen.questionsAttempted;
    screen.TimerFires();
    scoreAfterTimer, attemptedAfterTimer := screen.score, screen.questionsAttempted;
    loading := IsLoading(screen.State(), true);
  }

  /**
   * Two taps on the right option before the timer fires, then both timers:
   * the score counts twice and the attempted count passes the single question
   * held, while the screen does not show the loading picture.
   */
  method DoubleTapWalkthrough() returns (finalScore: nat, attempted: nat, held: nat, loading: bool)
    ensures finalScore == 2 && attempted == 2 && held == 1
    ensures !loading
  {
    var screen := new MultipleChoice();
    screen.ReceivePage(Some([Sample]));
    screen.HandleAnswer("4");
    screen.HandleAnswer("4");
    screen.TimerFires();
    screen.TimerFires();
    finalScore, attempted, held := screen.score, screen.questionsAttempted, |screen.questions|;
    loading := IsLoading(screen.State(), true);
  }
}
