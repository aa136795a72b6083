/**
 * The quiz screen's controller as a state machine over values.
 *
 * The screen keeps the question list, the index of the question on display,
 * the number of questions attempted, the score and a lock that disables the
 * Prev button while an answer is being shown. Answering records the choice
 * and updates the score at once; 1200 ms later a timer advances the index and
 * the attempted count together and lifts the lock. The timer is not modelled
 * as time: `pendingCommits` counts the timers scheduled and not yet fired,
 * and firing one is the separate step `Commit`. Answering does not look at
 * the lock, so a second tap before the timer fires is accepted; the model
 * keeps that behaviour.
 */
module QuizModel {
  import opened Optional
  import opened OptionHighlight

  /** One question: text, options in display order, the right answer and the option chosen, if any. */
  datatype Question = Question(question: string, options: seq<string>, answer: string, selectedOption: Option<string>)

  /** The screen's state; `pendingCommits` is the number of answer timers not yet fired. */
  datatype Quiz = Quiz(
    questions: seq<Question>,
    currentQuestionIndex: nat,
    questionsAttempted: nat,
    score: nat,
    disableBackForTimeout: bool,
    pendingCommits: nat)

  /** More questions are requested once no more than this many remain unattempted. */
  const PrefetchMargin: nat := 4

  /** The state when the screen is first shown. */
  const Initial: Quiz := Quiz([], 0, 0, 0, false, 0)

  /** Whether the screen wants another page of questions. */
  predicate ShouldFetch(s: Quiz)
    ensures ShouldFetch(s) <==> |s.questions| <= s.questionsAttempted + PrefetchMargin
    ensures s.questionsAttempted >= |s.questions| ==> ShouldFetch(s)
  {
    s.questionsAttempted + PrefetchMargin >= |s.questions|
  }

  /** Whether the screen shows the loading picture instead of a question. */
  predicate IsLoading(s: Quiz, fontsLoaded: bool)
    ensures !fontsLoaded ==> IsLoading(s, fontsLoaded)
    ensures fontsLoaded ==> (IsLoading(s, fontsLoaded) <==> s.questionsAttempted == |s.questions|)
  {
    s.questionsAttempted == |s.questions| || !fontsLoaded
  }

  /** Whether the Prev button can be pressed. */
  predicate PrevEnabled(s: Quiz)
    ensures PrevEnabled(s) ==> s.currentQuestionIndex >= 1
    ensures s.disableBackForTimeout ==> !PrevEnabled(s)
    ensures s.currentQuestionIndex >= 1 && !s.disableBackForTimeout ==> PrevEnabled(s)
  {
    s.currentQuestionIndex != 0 && !s.disableBackForTimeout
  }

  /** Whether the Next button can be pressed (the lock is not consulted). */
  predicate NextEnabled(s: Quiz)
    ensures s.currentQuestionIndex <= s.questionsAttempted ==>
              (NextEnabled(s) <==> s.currentQuestionIndex < s.questionsAttempted)
  {
    s.currentQuestionIndex != s.questionsAttempted
  }

  /**
   * Tapping `option` on the question on display. Only the question at the
   * attempted count can be answered; on it the choice is recorded, the lock
   * is set, the score goes up when the choice is right and a commit is
   * scheduled. A tap can only happen while a question is drawn, so the index
   * is within the list.
   */
  function Answer(s: Quiz, option: string): (r: Quiz)
    requires s.currentQuestionIndex < |s.questions|
    ensures s.currentQuestionIndex != s.questionsAttempted ==> r == s
    ensures s.currentQuestionIndex == s.questionsAttempted ==>
              var i := s.currentQuestionIndex;
              && |r.questions| == |s.questions|
              && r.questions[i].selectedOption == Some(option)
              && r.questions[i] == s.questions[i].(selectedOption := Some(option))
              && (forall j :: 0 <= j < |s.questions| && j != i ==> r.questions[j] == s.questions[j])
              && r.disableBackForTimeout
              && (r.score == s.score + 1 <==> option == s.questions[i].answer)
              && (r.score == s.score <==> option != s.questions[i].answer)
              && r.currentQuestionIndex == s.currentQuestionIndex
              && r.questionsAttempted == s.questionsAttempted
              && r.pendingCommits == s.pendingCommits + 1
  {
    if s.currentQuestionIndex != s.questionsAttempted then s
    else
      var i := s.currentQuestionIndex;
      var current := s.questions[i].(selectedOption := Some(option));
      s.(questions := s.questions[i := current],
         disableBackForTimeout := true,
         score := if IsCorrect(option, current.answer) then s.score + 1 else s.score,
         pendingCommits := s.pendingCommits + 1)
  }

  /** A scheduled answer timer fires: index and attempted count both move on and the lock is lifted. */
  function Commit(s: Quiz): (r: Quiz)
    requires s.pendingCommits > 0
    ensures r.questionsAttempted == s.questionsAttempted + 1
    ensures r.currentQuestionIndex == s.currentQuestionIndex + 1
    ensures !r.disableBackForTimeout
    ensures r.pendingCommits + 1 == s.pendingCommits
    ensures r.questions == s.questions && r.score == s.score
  {
    s.(questionsAttempted := s.questionsAttempted + 1,
       currentQuestionIndex := s.currentQuestionIndex + 1,
       disableBackForTimeout := false,
       pendingCommits := s.pendingCommits - 1)
  }

  /** Pressing Prev: one question back, unless the button is disabled. */
  function Prev(s: Quiz): (r: Quiz)
    ensures !PrevEnabled(s) ==> r == s
    ensures PrevEnabled(s) ==> r.currentQuestionIndex + 1 == s.currentQuestionIndex
    ensures r.(currentQuestionIndex := s.currentQuestionIndex) == s
  {
    if s.currentQuestionIndex == 0 || s.disableBackForTimeout then s
    else s.(currentQuestionIndex := s.currentQuestionIndex - 1)
  }

  /** Pressing Next: one question forward, unless the button is disabled. */
  function Next(s: Quiz): (r: Quiz)
    ensures !NextEnabled(s) ==> r == s
    ensures NextEnabled(s) ==> r.currentQuestionIndex == s.currentQuestionIndex + 1
    ensures r.(currentQuestionIndex := s.currentQuestionIndex) == s
  {
    if s.currentQuestionIndex == s.questionsAttempted then s
    else s.(currentQuestionIndex := s.currentQuestionIndex + 1)
  }

  /**
   * A fetch completes with `response`. A page (even an empty one) is put after
   * the questions already held; no response leaves everything as it was.
   */
  function Append(s: Quiz, response: Option<seq<Question>>): (r: Quiz)
    ensures response.None? ==> r == s
    ensures response.Some? ==> |r.questions| == |s.questions| + |response.value|
    ensures response.Some? ==> r.questions[..|s.questions|] == s.questions
    ensures response.Some? ==> r.questions[|s.questions|..] == response.value
    ensures r.(questions := s.questions) == s
  {
    match response
    case None => s
    case Some(page) => s.(questions := s.questions + page)
  }

  // ---------------------------------------------------------------------------
  // Runs of the screen
  // ---------------------------------------------------------------------------

  /** What can happen to the screen: a tap on an option, a timer firing, a button press, a fetch completing. */
  datatype Event =
    | Tap(option: string)
    | TimerFires
    | PressPrev
    | PressNext
    | Fetched(response: Option<seq<Question>>)

  /** Whether `e` can happen in `s`: a tap needs a question on display, a timer needs to have been scheduled. */
  predicate Occurs(s: Quiz, e: Event)
  {
    match e
    case Tap(_) => s.currentQuestionIndex < |s.questions|
    case TimerFires => s.pendingCommits > 0
    case _ => true
  }

  function Step(s: Quiz, e: Event): Quiz
    requires Occurs(s, e)
  {
    match e
    case Tap(option) => Answer(s, option)
    case TimerFires => Commit(s)
    case PressPrev => Prev(s)
    case PressNext => Next(s)
    case Fetched(response) => Append(s, response)
  }

  /** Whether every event of `evs` can happen, in turn, starting from `s`. */
  predicate Feasible(s: Quiz, evs: seq<Event>)
    decreases |evs|
  {
    evs == [] || (Occurs(s, evs[0]) && Feasible(Step(s, evs[0]), evs[1..]))
  }

  /** Like `Feasible`, and every tap also waits until the previous answer's timer has fired. */
  predicate Spaced(s: Quiz, evs: seq<Event>)
    decreases |evs|
  {
    evs == [] ||
    (Occurs(s, evs[0]) && (evs[0].Tap? ==> s.pendingCommits == 0) && Spaced(Step(s, evs[0]), evs[1..]))
  }

  function Run(s: Quiz, evs: seq<Event>): Quiz
    requires Feasible(s, evs)
    decreases |evs|
  {
    if evs == [] then s else Run(Step(s, evs[0]), evs[1..])
  }

  lemma {:induction false} SpacedIsFeasible(s: Quiz, evs: seq<Event>)
    requires Spaced(s, evs)
    ensures Feasible(s, evs)
    decreases |evs|
  {
    if evs != [] {
      SpacedIsFeasible(Step(s, evs[0]), evs[1..]);
    }
  }

  // ---------------------------------------------------------------------------
  // What holds on every run, overlapping taps included
  // ---------------------------------------------------------------------------

  /**
   * The index never passes the attempted count; every point of score is
   * backed by an attempted or a scheduled answer; while locked, an answer is
   * scheduled and the index sits at the attempted count.
   */
  predicate Inv(s: Quiz)
  {
    && s.currentQuestionIndex <= s.questionsAttempted
    && s.score <= s.questionsAttempted + s.pendingCommits
    && (s.disableBackForTimeout ==> s.pendingCommits > 0 && s.currentQuestionIndex == s.questionsAttempted)
  }

  lemma StepKeepsInv(s: Quiz, e: Event)
    requires Inv(s) && Occurs(s, e)
    ensures Inv(Step(s, e))
  {
  }

  lemma {:induction false} RunKeepsInv(s: Quiz, evs: seq<Event>)
    requires Inv(s) && Feasible(s, evs)
    ensures Inv(Run(s, evs))
    decreases |evs|
  {
    if evs != [] {
      StepKeepsInv(s, evs[0]);
      RunKeepsInv(Step(s, evs[0]), evs[1..]);
    }
  }

  /** The screen starts out satisfying the invariant. */
  lemma InitialInv()
    ensures Inv(Initial) && SpacedInv(Initial)
  {
  }

  /** Next ignores the lock, but while locked it is disabled anyway. */
  lemma LockedDisablesBoth(s: Quiz)
    requires Inv(s) && s.disableBackForTimeout
    ensures !PrevEnabled(s) && !NextEnabled(s)
  {
  }

  /**
   * `t` follows `s`: the list only grows, the attempted count and the score
   * only rise, and no question below the attempted count changes.
   */
  predicate Follows(s: Quiz, t: Quiz)
  {
    && |s.questions| <= |t.questions|
    && s.questionsAttempted <= t.questionsAttempted
    && s.score <= t.score
    && forall j :: 0 <= j < s.questionsAttempted && j < |s.questions| ==> t.questions[j] == s.questions[j]
  }

  lemma StepFollows(s: Quiz, e: Event)
    requires Occurs(s, e)
    ensures Follows(s, Step(s, e))
  {
  }

  /** Once a question is attempted its recorded choice never changes again, on any run. */
  lemma {:induction false} RunFollows(s: Quiz, evs: seq<Event>)
    requires Feasible(s, evs)
    ensures Follows(s, Run(s, evs))
    decreases |evs|
  {
    if evs != [] {
      var t := Step(s, evs[0]);
      StepFollows(s, evs[0]);
      RunFollows(t, evs[1..]);
    }
  }

  // ---------------------------------------------------------------------------
  // What holds when taps are spaced by the timer
  // ---------------------------------------------------------------------------

  /** Whether the choice recorded on `q` is its right answer. */
  predicate AnsweredRight(q: Question)
  {
    q.selectedOption == Some(q.answer)
  }

  /** How many of the first `n` questions carry their right answer. */
  function CountRight(qs: seq<Question>, n: nat): (c: nat)
    requires n <= |qs|
    ensures c <= n
    ensures c == n <==> forall j :: 0 <= j < n ==> AnsweredRight(qs[j])
    decreases n
  {
    if n == 0 then 0
    else CountRight(qs, n - 1) + (if AnsweredRight(qs[n - 1]) then 1 else 0)
  }

  lemma {:induction false} CountRightPrefix(a: seq<Question>, b: seq<Question>, n: nat)
    requires n <= |a| && n <= |b|
    requires forall j :: 0 <= j < n ==> a[j] == b[j]
    ensures CountRight(a, n) == CountRight(b, n)
    decreases n
  {
    if n > 0 {
      CountRightPrefix(a, b, n - 1);
    }
  }

  /**
   * With spaced taps at most one answer is pending, it is pending exactly
   * while the screen is locked, every answered or pending question lies
   * within the list, and the score is the number of those carrying their
   * right answer.
   */
  predicate SpacedInv(s: Quiz)
  {
    && Inv(s)
    && s.pendingCommits <= 1
    && (s.disableBackForTimeout <==> s.pendingCommits == 1)
    && s.questionsAttempted + s.pendingCommits <= |s.questions|
    && s.score == CountRight(s.questions, s.questionsAttempted + s.pendingCommits)
  }

  lemma SpacedAnswerKeepsInv(s: Quiz, option: string)
    requires SpacedInv(s) && s.pendingCommits == 0 && s.currentQuestionIndex < |s.questions|
    ensures SpacedInv(Answer(s, option))
  {
    var r := Answer(s, option);
    if s.currentQuestionIndex == s.questionsAttempted {
      var n := s.questionsAttempted;
      CountRightPrefix(s.questions, r.questions, n);
      assert AnsweredRight(r.questions[n]) <==> option == s.questions[n].answer;
    }
  }

  lemma SpacedStepKeepsInv(s: Quiz, e: Event)
    requires SpacedInv(s) && Occurs(s, e) && (e.Tap? ==> s.pendingCommits == 0)
    ensures SpacedInv(Step(s, e))
  {
    match e
    case Tap(option) => SpacedAnswerKeepsInv(s, option);
    case Fetched(response) =>
      var r := Append(s, response);
      CountRightPrefix(s.questions, r.questions, s.questionsAttempted + s.pendingCommits);
    case _ =>
  }

  lemma {:induction false} SpacedRunKeepsInv(s: Quiz, evs: seq<Event>)
    requires SpacedInv(s) && Spaced(s, evs)
    ensures Feasible(s, evs) && SpacedInv(Run(s, evs))
    decreases |evs|
  {
    SpacedIsFeasible(s, evs);
    if evs != [] {
      SpacedStepKeepsInv(s, evs[0]);
      SpacedRunKeepsInv(Step(s, evs[0]), evs[1..]);
    }
  }

  /**
   * On a spaced run from the first state, the attempted count never passes
   * the list, the score never passes the attempted count once no answer is
   * pending, and whenever the screen is not loading a question is on display.
   */
  lemma SpacedRunBounds(evs: seq<Event>, fontsLoaded: bool)
    requires Spaced(Initial, evs)
    ensures Feasible(Initial, evs)
    ensures Run(Initial, evs).questionsAttempted <= |Run(Initial, evs).questions|
    ensures Run(Initial, evs).pendingCommits == 0 ==>
              Run(Initial, evs).score <= Run(Initial, evs).questionsAttempted
    ensures !IsLoading(Run(Initial, evs), fontsLoaded) ==>
              Run(Initial, evs).currentQuestionIndex < |Run(Initial, evs).questions|
  {
    SpacedRunKeepsInv(Initial, evs);
  }

  /** Running out of questions (the loading case) always asks for more. */
  lemma ExhaustedFetches(s: Quiz)
    requires s.questionsAttempted == |s.questions|
    ensures ShouldFetch(s) && IsLoading(s, true)
  {
  }

  // ---------------------------------------------------------------------------
  // Worked examples
  // ---------------------------------------------------------------------------

  const Sample: Question := Question("2+2?", ["3", "4", "5"], "4", None)

  /** The single question loaded, before any answer. */
  function Loaded(): (s: Quiz)
    ensures |s.questions| == 1 && s.questions[0] == Sample
    ensures s.currentQuestionIndex == 0 && s.questionsAttempted == 0 && s.score == 0
    ensures !s.disableBackForTimeout && s.pendingCommits == 0
  {
    Append(Initial, Some([Sample]))
  }

  /**
   * The right answer scores at once without moving on; the timer then moves
   * to index 1 and the screen loads again, the list being used up.
   */
  lemma RightAnswerScenario()
    ensures Answer(Loaded(), "4").score == 1
    ensures Answer(Loaded(), "4").questionsAttempted == 0
    ensures Commit(Answer(Loaded(), "4")).questionsAttempted == 1
    ensures Commit(Answer(Loaded(), "4")).currentQuestionIndex == 1
    ensures Commit(Answer(Loaded(), "4")).score == 1
    ensures IsLoading(Commit(Answer(Loaded(), "4")), true)
  {
  }

  /** A wrong answer leaves the score at 0 and still counts as attempted. */
  lemma WrongAnswerScenario()
    ensures Commit(Answer(Loaded(), "3")).score == 0
    ensures Commit(Answer(Loaded(), "3")).questionsAttempted == 1
  {
  }

  /** With 1 attempted, five held questions ask for more and ten do not. */
  lemma PrefetchScenario(s: Quiz)
    requires s.questionsAttempted == 1
    ensures |s.questions| == 5 ==> ShouldFetch(s)
    ensures |s.questions| == 10 ==> !ShouldFetch(s)
  {
  }

  /**
   * Two taps on the right answer before the timer fires: the score counts
   * twice, and after both timers the attempted count is 2 with one question
   * held, so the screen is not loading although no question is at the index.
   */
  lemma DoubleTapOvercounts()
    ensures Answer(Loaded(), "4").currentQuestionIndex < 1
    ensures var twice := Answer(Answer(Loaded(), "4"), "4");
            && twice.score == 2
            && twice.pendingCommits == 2
            && Commit(Commit(twice)).questionsAttempted == 2
            && |Commit(Commit(twice)).questions| == 1
            && !IsLoading(Commit(Commit(twice)), true)
            && Commit(Commit(twice)).currentQuestionIndex >= |Commit(Commit(twice)).questions|
  {
  }
}
