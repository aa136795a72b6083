# Multiple-choice quiz screen, modelled in Dafny

The system is a single React Native screen, `MultipleChoice`, that shows one
quiz question at a time. It keeps a list of questions that grows as pages are
fetched, the index of the question on display, the number of questions
attempted, a score, and a lock (`disableBackForTimeout`) that disables the
Prev button while an answer is being shown. Tapping an option records the
choice on the current question and scores it at once; 1200 ms later a timer
advances the index and the attempted count and lifts the lock. Prev and Next
move through the questions already attempted. More questions are wanted once
four or fewer remain unattempted, and the screen shows a loading picture while
the attempted count equals the number of questions held, or the fonts are not
ready. Each option is drawn green with a check mark when it is the right answer
(once anything is chosen), dark with a cross when it is the wrong choice, and
plain otherwise.

The project has four modules:

- `Optional` (`optional.dfy`): `Option`, standing for a value that may be `undefined`.
- `OptionHighlight` (`highlight.dfy`): the three styling helpers of an option
  (`OptionStyle`, `OptionTextStyle`, `PrefixIcon`) and `IsCorrect`, each proved
  to agree with one classification `Classify` written from its meaning. It also
  holds the drawing of the whole options list.
- `QuizModel` (`quiz_model.dfy`): the controller as a state machine over values.
  It has one step function per handler (`Answer`, `Commit`, `Prev`, `Next`,
  `Append`), the derived predicates `ShouldFetch` and `IsLoading`, runs over
  event sequences (`Run`), and the invariants proved on them.
- `QuizController` (`quiz_controller.dfy`): the controller as the object it is.
  The class `MultipleChoice` has the screen's state variables as fields. Its
  handlers update them in place, and each handler is proved to move the object
  exactly as the matching `QuizModel` step does.

The answer timer is not modelled as time. `pendingCommits` counts the timers
scheduled and not yet fired, and firing one is a step of its own (`Commit`,
`MultipleChoice.TimerFires`). Answering checks only that the index equals the
attempted count and never looks at the lock. So a second tap before the timer
fires is accepted, records the choice again and may score again. The model
keeps this behaviour:

- `Inv` holds on every run.
- The stronger `SpacedInv` holds on runs where each tap waits for the previous
  timer. On those runs the score is exactly the number of answered questions
  that carry their right answer.
- `DoubleTapOvercounts` and `MultipleChoice.DoubleTapWalkthrough` show what a
  double tap does: two points for one question, and an attempted count past the
  end of the list while the screen is not loading.

Next's handler does not consult the lock
(`components/multiplechoice.jsx:109-111`). `LockedDisablesBoth` proves that
while locked the index equals the attempted count, so Next is disabled anyway.

## Model

| member | source | states |
|---|---|---|
| `OptionHighlight.OptionStyle` | components/multiplechoice.jsx:155-162 | The button is green exactly when something is chosen and the option is the answer. It is dark exactly when the option is the chosen one and is wrong. Otherwise it is plain. |
| `OptionHighlight.OptionTextStyle` | components/multiplechoice.jsx:164-173 | The text is white exactly when the option is classified Correct or Incorrect, which is exactly when its button is not plain. |
| `OptionHighlight.PrefixIcon` | components/multiplechoice.jsx:294-301 | The marker is the check mark exactly for Correct, the cross exactly for Incorrect, and empty exactly for Neutral. |
| `OptionHighlight.IsCorrect` | components/multiplechoice.jsx:175 | An option is correct iff it equals the answer string. A chosen option is then classified Correct iff it is correct, and Incorrect otherwise. |
| `OptionHighlight.ClassifyCases` | components/multiplechoice.jsx:175 | With `IsCorrect` as string equality: Correct iff something is chosen and the option equals the answer. Incorrect iff the option is the chosen one and differs from the answer. Neutral otherwise, so always Neutral when nothing is chosen. |
| `OptionHighlight.StylesAgree` | components/multiplechoice.jsx:155-173 | The fill, text colour and marker helpers agree on every input. |
| `OptionHighlight.RenderOption` | components/multiplechoice.jsx:128-139 | One drawn option: a plain button shows black text and the bare option. A green button shows white text and the check mark before the option. A dark button shows white text and the cross before the option. |
| `OptionHighlight.RenderOptions` | components/multiplechoice.jsx:127-140 | One drawn option per option, in order. With nothing chosen, all are plain, black and show the bare option text. Otherwise the green ones are exactly those equal to the answer, and the dark one is the chosen option when wrong. Every caption is the marker matching its fill followed by the option text. |
| `OptionHighlight.AtMostOneIncorrect` | components/multiplechoice.jsx:127-140 | With distinct options, at most one option is drawn as wrong. |
| `QuizModel.ShouldFetch` | components/multiplechoice.jsx:29 | More questions are wanted iff the list holds at most 4 more than the attempted count, and always once attempted reaches the list length. |
| `QuizModel.IsLoading` | components/multiplechoice.jsx:31 | Always loading while the fonts are not ready. With fonts ready, loading iff the attempted count equals the list length. |
| `QuizModel.PrevEnabled` | components/multiplechoice.jsx:98-100 | Prev is enabled iff the index is at least 1 and the screen is not locked. |
| `QuizModel.NextEnabled` | components/multiplechoice.jsx:109-111 | When the index does not pass the attempted count, Next is enabled iff an attempted question lies ahead of the index. The lock plays no part. |
| `QuizModel.Answer` | components/multiplechoice.jsx:45-60 | If the index differs from the attempted count, nothing changes. Otherwise only the current entry gets `selectedOption := option`, and the list length and other entries are unchanged. The lock is set. The score rises by exactly 1 iff the option is the answer. Index and attempted count are untouched and one commit becomes pending. |
| `QuizModel.Commit` | components/multiplechoice.jsx:62-66 | The attempted count and the index each rise by exactly 1. The lock is cleared and one pending commit is used up. Questions and score are unchanged. |
| `QuizModel.Prev` | components/multiplechoice.jsx:98-101 | Disabled at index 0 or while locked, and then nothing changes. Otherwise the index drops by 1 and nothing else changes. |
| `QuizModel.Next` | components/multiplechoice.jsx:109-112 | Disabled when the index equals the attempted count, and then nothing changes. Otherwise the index rises by 1 and nothing else changes. |
| `QuizModel.Append` | components/multiplechoice.jsx:36-39 | A response is appended after the existing questions, which keep their order and contents. No response changes nothing. |
| `QuizModel.RunKeepsInv` | components/multiplechoice.jsx:45-112 | On every run, overlapping taps included: the index never passes the attempted count, the score is at most attempted plus pending, and when locked a commit is pending and the index is at the attempted count. |
| `QuizModel.LockedDisablesBoth` | components/multiplechoice.jsx:98-111 | While locked, Prev and Next are both disabled. |
| `QuizModel.RunFollows` | components/multiplechoice.jsx:45-66 | On every run the list only grows, the attempted count and the score never fall, and no question below the attempted count ever changes again. |
| `QuizModel.CountRight` | components/multiplechoice.jsx:55-57 | The number of right answers among the first n questions is at most n, and equals n iff all of them are right. |
| `QuizModel.CountRightPrefix` | components/multiplechoice.jsx:49-53 | The count of right answers depends only on the questions it covers. |
| `QuizModel.SpacedIsFeasible` | components/multiplechoice.jsx:45-66 | A run whose taps wait for the timer is a possible run. |
| `QuizModel.SpacedAnswerKeepsInv` | components/multiplechoice.jsx:45-60 | A tap with no commit pending keeps the spaced invariant: it adds exactly one point iff the choice is right. |
| `QuizModel.SpacedStepKeepsInv` | components/multiplechoice.jsx:36-112 | Every handler keeps the spaced invariant: at most one commit pending, pending iff locked, attempted plus pending within the list, and score equal to the count of right answers. |
| `QuizModel.SpacedRunKeepsInv` | components/multiplechoice.jsx:36-112 | Every spaced run keeps the spaced invariant. |
| `QuizModel.SpacedRunBounds` | components/multiplechoice.jsx:29-32 | On a spaced run from the first state, attempted never passes the list length. With no commit pending, the score is at most the attempted count. When the screen is not loading, the index points at a held question. |
| `QuizModel.InitialInv` | components/multiplechoice.jsx:18-22 | The first state satisfies both invariants. |
| `QuizModel.ExhaustedFetches` | components/multiplechoice.jsx:29-31 | When every held question has been attempted, the screen is loading and asks for more. |
| `QuizModel.PrefetchScenario` | components/multiplechoice.jsx:29 | With 1 attempted, 5 held questions ask for more (1 + 4 >= 5) and 10 do not. |
| `QuizModel.Loaded` | components/multiplechoice.jsx:36-39 | Appending one page to the first state holds that one question and leaves everything else at zero. |
| `QuizModel.RightAnswerScenario` | components/multiplechoice.jsx:45-66 | A right answer gives score 1 at once with 0 attempted. After the timer, 1 is attempted, the index is 1 and the screen is loading. |
| `QuizModel.WrongAnswerScenario` | components/multiplechoice.jsx:45-66 | A wrong answer leaves the score at 0, and after the timer 1 is attempted. |
| `QuizModel.DoubleTapOvercounts` | components/multiplechoice.jsx:45-66 | Two taps before the timer score twice for one question. After both timers, 2 are attempted out of 1 held, the screen is not loading, and no question is at the index. |
| `QuizController.MultipleChoice.constructor` | components/multiplechoice.jsx:18-22 | Starts with no questions, index, attempted and score 0, and unlocked. Both invariants hold. |
| `QuizController.MultipleChoice.HandleAnswer` | components/multiplechoice.jsx:45-67 | Updates the fields exactly as `QuizModel.Answer`: it is a no-op off the attempted index. Otherwise it writes the choice into the current entry only, locks, scores a right choice and schedules one commit. |
| `QuizController.MultipleChoice.TimerFires` | components/multiplechoice.jsx:62-66 | Updates the fields exactly as `QuizModel.Commit`. |
| `QuizController.MultipleChoice.PressPrev` | components/multiplechoice.jsx:98-101 | Updates the fields exactly as `QuizModel.Prev`. |
| `QuizController.MultipleChoice.PressNext` | components/multiplechoice.jsx:109-112 | Updates the fields exactly as `QuizModel.Next`. |
| `QuizController.MultipleChoice.ReceivePage` | components/multiplechoice.jsx:34-43 | Updates the fields exactly as `QuizModel.Append`. |
| `QuizController.MultipleChoice.Handle` | components/multiplechoice.jsx:45-112 | Any handler applied to the object keeps `Inv` and moves the object to a state that follows the old one. |
| `QuizController.RightAnswerWalkthrough` | components/multiplechoice.jsx:45-66 | On the object: score 1 and attempted 0 right after a right tap, then score 1 and attempted 1 after the timer, and loading. |
| `QuizController.DoubleTapWalkthrough` | components/multiplechoice.jsx:45-66 | On the object: two taps and two timers give score 2 and attempted 2 with one question held, and the screen is not loading. |

## Left out

- Rendering, layout and styles (`QuestionText`, the JSX tree, `StyleSheet` values). Styles appear only as the three named choices the helpers make.
- `getFontSize` and the `Dimensions`-based sizes. These are floating-point screen geometry.
- Font loading: `fontsLoaded` is a boolean input to `IsLoading`. How `useFonts` reaches it is not modelled.
- `fetchAndLog` and the `async`/`await` around it. A completed fetch is an `Option<seq<Question>>` handed to `Append`/`ReceivePage`. `None` stands for a falsy response. An empty array is truthy, so it is a `Some([])` page.
- When fetches are started: the `useEffect` that fires when `shouldFetch` changes, and whether several fetches overlap. Only `ShouldFetch` itself is modelled.
- The stale `questions` captured by the fetch callback (line 38). The model appends to the current list.
- The 1200 ms delay and React's batching of state updates. Each timer firing is an explicit step. The score update made inside the list updater (line 56) is applied once, as the code intends.
- Aliasing: line 53 writes the choice into the question object shared with the previous list. The model replaces that entry with an updated value.
- `console.log` (line 30).
- Question text and options are strings and options are never `undefined`. Malformed questions (missing options or answer) are not modelled; they would fail while drawing.
