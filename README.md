# EduSpark study app — verified model of its state logic

The app turns study material into a generated study pack. The pack has a
summary, quiz questions, flashcards and a mind-map tree. The app then shows
that pack in interactive views and keeps a progress record: points, level,
badges, streak and completed sessions. This project models the app's
logic in Dafny and proves what it promises:

- `types.dfy` (module `Types`): the records of `types.ts`. These are quiz
  questions, flashcards, mind-map nodes, study sessions, badges, the
  progress record and the view names.
- `progress.dfy` (module `Progress`): the scoring policy. The `prev -> new`
  updaters that `addPoints` and `handleSessionComplete` queue on the stats
  hook are pure functions. The level formula `floor(points / 500) + 1`, the
  fixed 100-point reward and the session counter are proved over one call,
  over any sequence of awards and over `k` completions.
- `app.dfy` (module `App`): the top-level component. Its hook state
  (`currentView`, `session`, `stats`, `loading`) is the class `AppState`.
  The class's handlers step those fields. The router `renderView` is the
  function `RenderView` from that state to the screen shown. The two
  updaters that `handleSessionComplete` queues run one after the other, in
  the order they were queued.
- `quiz.dfy` (module `Quiz`): the quiz screen. It is the class `QuizView`
  with `currentIndex`, `selectedAnswer`, `isAnswered` and `score`. A ghost
  field records the option committed for each answered question. The
  class invariant says the score is exactly the number of those
  commitments that match their question's answer. The module also models
  the progress dots and the option marks.
- `flashcards.dfy` (module `Flashcards`): the flashcard screen. It is the
  class `FlashcardView` with `currentIndex` and `isFlipped`. Pure index
  functions model JavaScript's truncating `%`, and lemmas prove the
  wrap-around and cycle facts about them.
- `mindmap.dfy` (module `MindMap`): the recursive node component. It is a
  pre-order flattening of the tree into `(id, text, depth)` entries. An
  independent traversal by child-index paths shows three things: each
  entry's depth is its node's distance from the root, every node is
  rendered exactly once, and children appear in their stored order.

## Model

| member | source | states |
|---|---|---|
| `Progress.LevelFor` | App.tsx:47 | the level `l` for `p` points satisfies `500*(l-1) <= p < 500*l`, which is what `floor(p/500)+1` means, negative `p` included |
| `Progress.InitialStats` | App.tsx:23-29 | the starting record has 0 points, no badges, streak 0, 0 sessions, and its level matches its points (level 1) |
| `Progress.AddPoints` | App.tsx:44-54 | points rise by exactly the award, the level is recomputed from the new points, and badges, streak and completed sessions are unchanged |
| `Progress.LevelMonotone` | App.tsx:47 | more points never give a lower level |
| `Progress.AddPointsMonotone` | App.tsx:46-47 | from a consistent record, a non-negative award never lowers points or level |
| `Progress.AddPointsExample` | App.tsx:46-51 | 450 points plus 100 gives 550 points and level 2 |
| `Progress.CountSession` | App.tsx:58 | the second updater adds exactly one completed session and changes nothing else |
| `Progress.CompleteSession` | App.tsx:56-58 | one completion (both updaters in order) adds exactly 100 points and 1 session, leaves the level consistent with the points, and leaves badges and streak unchanged; it has no score input |
| `Progress.AwardAllSum` | App.tsx:44-54 | after a sequence of awards, points are the start plus the awards' sum, the level matches the points, and sessions, badges and streak are unchanged |
| `Progress.AwardAllMonotone` | App.tsx:44-54 | with non-negative awards from a consistent record, points and level never end lower than they started |
| `Progress.CompleteSessionsEffect` | App.tsx:56-58 | `k` completions add `100*k` points and `k` sessions and leave the level consistent |
| `Progress.CompleteSessionsFromStart` | App.tsx:56-58 | from the initial record, `k` completions give exactly `{points: 100k, level: floor(100k/500)+1, sessions: k}` |
| `Progress.OneSessionFromStart` | App.tsx:56-58 | one completion from the initial record gives 100 points, level 1, 1 session |
| `Progress.FiveSessionsFromStart` | App.tsx:56-58 | five completions from the initial record give 500 points, level 2, 5 sessions |
| `App.RenderView` | App.tsx:62-136 | the loading screen is shown exactly when loading; nothing is shown exactly when not loading, on the quiz, flashcard or mind-map view, with no session; with a session those views show its quizzes, flashcards or mind map; the stats view shows the stats, the study view the session, the dashboard view the stats-driven dashboard and the upload view the uploader |
| `App.LoadingOverridesEveryView` | App.tsx:63-71 | while loading, every view renders the loading screen |
| `App.NoSessionNoContent` | App.tsx:125-130 | with no session, a view renders nothing exactly when it is the quiz, flashcard or mind-map view |
| `App.AppState.Screen` | App.tsx:183 | the screen rendered from the current state is the loading screen exactly while loading, and blank exactly when a quiz, flashcard or mind-map view is open without a session |
| `App.AppState.constructor` | App.tsx:32-38 | the app starts on the dashboard with no session, not loading, and with the stored record if one was loaded or the initial record otherwise |
| `App.AppState.AddPoints` | App.tsx:44-54 | the stats become `Progress.AddPoints` of the old stats and are level-consistent; view, session and loading are unchanged |
| `App.AppState.HandleSessionComplete` | App.tsx:56-60 | the stats become `CompleteSession` of the old stats (+100 points, +1 session, level consistent); the view becomes stats and the stats screen is shown unless loading; session and loading are unchanged |
| `App.AppState.OnSessionGenerated` | App.tsx:77 | the generated session is stored and the view becomes study, whose screen shows it unless loading; stats are unchanged |
| `App.AppState.SetLoading` | App.tsx:77 | the loading flag is set as given and, when set, the loading screen is shown; nothing else changes |
| `App.AppState.Navigate` | App.tsx:142-144 | a navigation or back button changes only the current view |
| `Quiz.Correct` | components/QuizView.tsx:21-28 | the number of correct committed answers is at most the number of answers committed |
| `Quiz.FullScoreIffAllRight` | components/QuizView.tsx:25-27 | the score equals the number answered exactly when every committed answer was right |
| `Quiz.ZeroScoreIffAllWrong` | components/QuizView.tsx:25-27 | the score is zero exactly when every committed answer was wrong |
| `Quiz.DotFor` | components/QuizView.tsx:53 | each dot is done, current or upcoming exactly when its index is below, at or above the current index |
| `Quiz.ProgressDots` | components/QuizView.tsx:49-56 | there is one dot per question; with the current index in range the row is `current` done dots, then one current dot, then the remaining `count - current - 1` upcoming dots |
| `Quiz.DotCounts` | components/QuizView.tsx:49-56 | with a valid index, exactly `currentIndex` dots are done, exactly one is current and the rest are upcoming |
| `Quiz.DotCountsUpTo` | components/QuizView.tsx:49-56 | the first `k` dots contain `min(k, current)` done dots, one current dot once `k` passes the current index, and the rest upcoming |
| `Quiz.MarkFor` | components/QuizView.tsx:80-88 | before answering every option is pending; afterwards an option is marked right exactly when it is the answer, and wrong exactly when it is the wrong option that was picked |
| `Quiz.WrongMarkOnlyOnMiss` | components/QuizView.tsx:80-92 | a right pick marks no option wrong; a wrong pick marks exactly the picked option wrong |
| `Quiz.QuizView.constructor` | components/QuizView.tsx:13-16 | the quiz starts at index 0 with no selection, not answered, score 0 and nothing committed, and the invariant holds |
| `Quiz.QuizView.ScoreBounded` | components/QuizView.tsx:21-38 | under the invariant the score is at most the number answered, which is at most the number of questions |
| `Quiz.QuizView.IsCorrect` | components/QuizView.tsx:19 | the flag that picks the feedback banner holds only once the question is answered, and then exactly when the option committed for the current question is that question's answer |
| `Quiz.QuizView.HandleAnswer` | components/QuizView.tsx:21-28 | called with one of the current question's options (QuizView.tsx:75-79): on an answered question nothing changes; otherwise the option is selected and committed, the question is marked answered, and the score rises by 1 exactly when the option is the answer (exactly when `IsCorrect` then holds); the invariant is kept |
| `Quiz.QuizView.NextQuestion` | components/QuizView.tsx:30-38 | on a non-last question the index advances by 1, selection and answered flag clear and the score is kept; on the last it reports completion and changes nothing, with every question answered and the score at most the question count; the invariant (index in range) is kept |
| `Quiz.QuizView.Dots` | components/QuizView.tsx:49-56 | one dot is shown per question |
| `Quiz.QuizView.DotsCounted` | components/QuizView.tsx:49-56 | in a non-empty quiz exactly `currentIndex` dots are done, exactly one is current, and the remaining `n - 1 - currentIndex` are upcoming |
| `Flashcards.JsRem` | components/FlashcardView.tsx:20 | JavaScript `%` with a positive divisor: equal to Dafny's `%` on a non-negative dividend; on a negative one the result lies in `(-n, 0]` and differs from the dividend by a non-positive multiple of `n`, which fixes it uniquely as the truncated remainder |
| `Flashcards.NextIndex` | components/FlashcardView.tsx:20 | from a valid index the result is valid; it is `i+1` below the last card and 0 from the last card |
| `Flashcards.PrevIndex` | components/FlashcardView.tsx:27 | from a valid index the result is valid; it is `i-1` above the first card and `n-1` from the first card |
| `Flashcards.PrevAfterNext` | components/FlashcardView.tsx:20-27 | next followed by prev returns to the same index |
| `Flashcards.NextAfterPrev` | components/FlashcardView.tsx:20-27 | prev followed by next returns to the same index |
| `Flashcards.NextTimesAdd` | components/FlashcardView.tsx:20 | `a` presses of next then `b` presses equal `a+b` presses |
| `Flashcards.NextTimesNoWrap` | components/FlashcardView.tsx:20 | short of the last card, `k` presses move exactly `k` cards on |
| `Flashcards.NextTimesWithinRound` | components/FlashcardView.tsx:20 | for `k <= n`, `k` presses from index `i` land on `(i+k) mod n` |
| `Flashcards.FullCycle` | components/FlashcardView.tsx:20 | `n` consecutive presses of next return to the starting card |
| `Flashcards.FlashcardView.constructor` | components/FlashcardView.tsx:12-13 | the deck starts at index 0, not flipped, with the index valid |
| `Flashcards.FlashcardView.HandleNext` | components/FlashcardView.tsx:17-22 | the card is unflipped and the index becomes `NextIndex` of the old index, staying in `[0, n)` |
| `Flashcards.FlashcardView.HandlePrev` | components/FlashcardView.tsx:24-29 | the card is unflipped and the index becomes `PrevIndex` of the old index, staying in `[0, n)` |
| `Flashcards.FlashcardView.ToggleFlip` | components/FlashcardView.tsx:43 | a tap inverts the flipped flag and keeps the index |
| `Flashcards.TapTwice` | components/FlashcardView.tsx:43 | two taps restore the flipped flag and the index |
| `Flashcards.FlashcardView.CurrentCard` | components/FlashcardView.tsx:15 | the card shown is a card of the deck |
| `Flashcards.FlashcardView.Position` | components/FlashcardView.tsx:37 | the displayed position lies in `[1, n]` for a non-empty deck |
| `MindMap.Render` | components/MindMapView.tsx:11-27 | a node's rendering has one entry per node of its subtree and starts with the node itself at the depth it was given |
| `MindMap.RenderChildren` | components/MindMapView.tsx:21-23 | the children's renderings together have one entry per node of the children's subtrees, and none exactly when there are no children |
| `MindMap.RenderMap` | components/MindMapView.tsx:45 | the screen renders one entry per node of the tree, the root first at depth 0 and every other node at a depth above 0 |
| `MindMap.LeafRendersOnce` | components/MindMapView.tsx:21 | a node with no children contributes exactly one entry |
| `MindMap.RenderDepths` | components/MindMapView.tsx:21-23 | every entry after a subtree's first is strictly deeper than the subtree's root |
| `MindMap.RenderChildrenDepths` | components/MindMapView.tsx:21-23 | every entry of the children's renderings is at least as deep as the children |
| `MindMap.RootStyledOnlyFirst` | components/MindMapView.tsx:45 | the screen renders the root first at depth 0 with the root style, and every other node indented with a chevron |
| `MindMap.ChildBlock` | components/MindMapView.tsx:21-23 | child `i`'s rendering sits right after the renderings of the children before it |
| `MindMap.ChildOrder` | components/MindMapView.tsx:20-24 | in a node's rendering, child `i`'s subtree occupies the block right after the node and its earlier siblings' subtrees |
| `MindMap.RenderFollowsPaths` | components/MindMapView.tsx:21-23 | the k-th entry renders the node at the k-th pre-order path, at the starting depth plus the path's length |
| `MindMap.ChildrenFollowPaths` | components/MindMapView.tsx:21-23 | the same correspondence for the children from index `i` onward, relative to their parent |
| `MindMap.DepthIsDistance` | components/MindMapView.tsx:45 | in the screen's rendering each entry's depth equals its node's distance from the root |
| `MindMap.StyleMatchesPosition` | components/MindMapView.tsx:13-17 | in the screen's rendering a node gets the root style exactly when it is the root (its path is empty), and the indentation, border and chevron exactly when it is not |
| `MindMap.PathsCover` | components/MindMapView.tsx:21-23 | every node of the tree has its path in the traversal |
| `MindMap.ChildPathsCover` | components/MindMapView.tsx:21-23 | a path into child `j`'s subtree is among the paths into the children from `i <= j` onward |
| `MindMap.ChildPathsStart` | components/MindMapView.tsx:21-23 | paths into children from `i` onward are non-empty and begin with an index `>= i` |
| `MindMap.PathsDistinct` | components/MindMapView.tsx:21-23 | no path occurs twice in the traversal |
| `MindMap.ChildPathsDistinct` | components/MindMapView.tsx:21-23 | no path occurs twice among the paths into the children from `i` onward |
| `MindMap.EachNodeOnce` | components/MindMapView.tsx:11-27 | the screen renders every node exactly once: entries match pre-order paths one to one, every node's path is present, none repeats, and the count is the tree's size |

## Design choices

- Dafny's `/` is Euclidean. For the positive divisor 500 it equals the
  `Math.floor` division the app uses, so `LevelFor` needs no adjustment.
- The app's numbers are doubles. They are modelled as unbounded integers.
- `FlashcardView` computes indices with JavaScript's `%`, which truncates
  toward zero. That operator is written out as `JsRem`. From a valid index
  both dividends are non-negative, where it agrees with mathematical `mod`.
- `NextQuestion` returns `complete = true` where the component calls
  `onComplete`. In the app that callback is `handleSessionComplete`, which
  takes no argument, so the reward cannot depend on the quiz score.
- The field `label` of a mind-map node is named `text`, because `label` is
  a Dafny keyword. The field `type` of a question is named `kind`.

## Left out

- Study-pack generation (`geminiService.ts`): a network call to a foreign AI
  service, a JSON parse of its reply and an id taken from the clock. The
  model takes the finished session as the input of `OnSessionGenerated`.
- File upload (`components/FileUploader.tsx`): file reading, base64
  encoding, async calls and alerts are browser I/O. Only its two callbacks
  (`OnSessionGenerated`, `SetLoading`) are modelled.
- Persistence (App.tsx:34-42): reading and writing local storage is I/O. The
  constructor takes the loaded record as an optional parameter. A loaded
  record need not satisfy the level formula, so each stats operation proves
  the formula afterwards instead of assuming it before. The parse itself is
  not modelled: a malformed stored string makes `JSON.parse` throw during
  the first render (App.tsx:36), and a stored `"null"` gives `null` stats
  that the later updaters would dereference.
- The 150 ms delay before the flashcard index changes
  (FlashcardView.tsx:19, 26): the unflip and the index change are one step.
- The stats and dashboard panels and all markup, styling, icons and charts,
  including the fractional progress width `(points % 500) / 5`: these are
  presentation only.
- Floating-point behaviour of point totals beyond 2^53 is not modelled.
- Quiz.QuizView.HandleAnswer: requires a current question and an option
  of it. The handler is only ever called from the buttons of the current
  question's `options` (QuizView.tsx:75-79). A question with no options,
  such as a `fill-blank` question (types.ts:4), shows no button, so it can
  never be answered and the quiz can never reach completion. The
  generation prompt asks only for multiple-choice and true/false
  questions (geminiService.ts:15), so that case is not modelled further.
- Quiz.QuizView.IsCorrect: requires a current question. The component
  reads `questions[currentIndex].answer` while rendering (QuizView.tsx:18-19),
  so an empty quiz throws before any button exists; that crash is not
  modelled.
- Quiz.QuizView.NextQuestion: requires the current question to be answered,
  because the next button is shown only then (QuizView.tsx:97-113).
- Flashcards.FlashcardView.HandleNext: requires a non-empty deck. An empty
  deck throws while rendering `currentCard.front` (FlashcardView.tsx:15, 50)
  before any button exists, and `x % 0` would be `NaN`; neither is modelled.
- Flashcards.FlashcardView.HandlePrev: requires a non-empty deck, for the
  same reason as `HandleNext`.
- Flashcards.FlashcardView.CurrentCard: requires a non-empty deck; with no
  cards the source reads `undefined` and the render throws, which is not
  modelled.
