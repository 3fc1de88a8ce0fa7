/** The top-level app: its four pieces of hook state (current view, the
    active study session, the progress record and the loading flag), the
    handlers that step them, and the screen the router picks from them. */
module App {
  import opened Types
  import Progress

  /** What the router shows. `Blank` is the `null` the router returns for a
      view that needs a session when there is none. */
  datatype Screen =
    | LoadingScreen
    | DashboardScreen(stats: UserStats)
    | UploadScreen
    | StudyScreen(session: Option<StudySession>)
    | QuizScreen(questions: seq<QuizQuestion>)
    | FlashcardScreen(cards: seq<Flashcard>)
    | MindMapScreen(root: MindMapNode)
    | StatsScreen(stats: UserStats)
    | Blank

  /** The views that render content of the session. */
  predicate NeedsSession(v: ViewType)
  {
    v == Quiz || v == Flashcards || v == MindMap
  }

  /** The router: the loading screen first, then a switch over the view. */
  function RenderView(loading: bool, view: ViewType, session: Option<StudySession>, stats: UserStats): (r: Screen)
    ensures r == LoadingScreen <==> loading
    ensures r == Blank <==> !loading && NeedsSession(view) && session.None?
    ensures !loading && session.Some? ==>
      (view == Quiz ==> r == QuizScreen(session.value.quizzes)) &&
      (view == Flashcards ==> r == FlashcardScreen(session.value.flashcards)) &&
      (view == MindMap ==> r == MindMapScreen(session.value.mindMap))
    ensures !loading && view == Stats ==> r == StatsScreen(stats)
    ensures !loading && view == Study ==> r == StudyScreen(session)
    ensures !loading && view == Dashboard ==> r == DashboardScreen(stats)
    ensures !loading && view == Upload ==> r == UploadScreen
  {
    if loading then LoadingScreen
    else match view
      case Dashboard => DashboardScreen(stats)
      case Upload => UploadScreen
      case Study => StudyScreen(session)
      case Quiz => if session.Some? then QuizScreen(session.value.quizzes) else Blank
      case Flashcards => if session.Some? then FlashcardScreen(session.value.flashcards) else Blank
      case MindMap => if session.Some? then MindMapScreen(session.value.mindMap) else Blank
      case Stats => StatsScreen(stats)
  }

  /** While loading, every view shows the loading screen. */
  lemma LoadingOverridesEveryView(session: Option<StudySession>, stats: UserStats)
    ensures forall v: ViewType :: RenderView(true, v, session, stats) == LoadingScreen
  {
  }

  /** Without a session, the quiz, flashcard and mind-map views show nothing
      whatever the stats, and every other view still shows something. */
  lemma NoSessionNoContent(view: ViewType, stats: UserStats)
    ensures RenderView(false, view, None, stats) == Blank <==> NeedsSession(view)
  {
  }

  class AppState {
    var currentView: ViewType
    var session: Option<StudySession>
    var stats: UserStats
    var loading: bool

    /** The screen the router currently picks: the loading screen exactly
        while loading, and nothing exactly when a session view is open
        without a session. */
    function Screen(): (r: Screen)
      reads this
      ensures r == LoadingScreen <==> loading
      ensures r == Blank <==> !loading && NeedsSession(currentView) && session.None?
    {
      RenderView(loading, currentView, session, stats)
    }

    /** The first render. `saved` is the stored progress record, if one was
        found; otherwise the initial record is used. */
    constructor (saved: Option<UserStats>)
      ensures currentView == Dashboard && session == None && !loading
      ensures stats == (if saved.Some? then saved.value else Progress.InitialStats())
    {
      currentView := Dashboard;
      session := None;
      stats := if saved.Some? then saved.value else Progress.InitialStats();
      loading := false;
    }

    /** `addPoints`: one queued stats updater. */
    method AddPoints(amount: int)
      modifies this
      ensures stats == Progress.AddPoints(old(stats), amount)
      ensures Progress.LevelConsistent(stats)
      ensures currentView == old(currentView) && session == old(session) && loading == old(loading)
    {
      stats := Progress.AddPoints(stats, amount);
    }

    /** `handleSessionComplete`: the points award and the session count are
        two updaters applied in sequence, then the view switches to stats. */
    method HandleSessionComplete()
      modifies this
      ensures stats == Progress.CompleteSession(old(stats))
      ensures stats.points == old(stats).points + Progress.SessionReward
      ensures stats.completedSessions == old(stats).completedSessions + 1
      ensures Progress.LevelConsistent(stats)
      ensures currentView == Stats
      ensures session == old(session) && loading == old(loading)
      ensures !loading ==> Screen() == StatsScreen(stats)
    {
      AddPoints(Progress.SessionReward);
      stats := Progress.CountSession(stats);
      currentView := Stats;
    }

    /** The uploader's callback: store the generated session and open it. */
    method OnSessionGenerated(s: StudySession)
      modifies this
      ensures session == Some(s) && currentView == Study
      ensures stats == old(stats) && loading == old(loading)
      ensures !loading ==> Screen() == StudyScreen(Some(s))
    {
      session := Some(s);
      currentView := Study;
    }

    /** The uploader's loading toggle. */
    method SetLoading(on: bool)
      modifies this
      ensures loading == on
      ensures currentView == old(currentView) && session == old(session) && stats == old(stats)
      ensures on ==> Screen() == LoadingScreen
    {
      loading := on;
    }

    /** A navigation button or a view's back button. */
    method Navigate(v: ViewType)
      modifies this
      ensures currentView == v
      ensures session == old(session) && stats == old(stats) && loading == old(loading)
    {
      currentView := v;
    }
  }
}
