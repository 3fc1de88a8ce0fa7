/** The records shared by every view of the study app: the generated study
    pack (questions, flashcards, mind map) and the user's progress record. */
module Types {

  /** An optional value; `None` plays the role of the source's `null`. */
  datatype Option<+T> = None | Some(value: T)

  datatype QuestionKind = MultipleChoice | TrueFalse | FillBlank

  /** One quiz question. `options` is absent for fill-in-the-blank questions. */
  datatype QuizQuestion = QuizQuestion(
    id: string,
    kind: QuestionKind,
    question: string,
    options: Option<seq<string>>,
    answer: string,
    explanation: string)

  datatype Flashcard = Flashcard(id: string, front: string, back: string)

  /** A node of the mind-map tree. The field the app calls `label` is named
      `text` here, since `label` is a Dafny keyword. */
  datatype MindMapNode = MindMapNode(id: string, text: string, children: seq<MindMapNode>)

  /** A generated study pack. */
  datatype StudySession = StudySession(
    id: string,
    title: string,
    summary: string,
    quizzes: seq<QuizQuestion>,
    flashcards: seq<Flashcard>,
    mindMap: MindMapNode,
    concepts: seq<string>)

  datatype Badge = Badge(id: string, name: string, icon: string, description: string)

  /** The user's progress record. The app's numbers are JavaScript doubles;
      they are modelled as unbounded integers. */
  datatype UserStats = UserStats(
    points: int,
    level: int,
    badges: seq<Badge>,
    streak: int,
    completedSessions: int)

  /** The screens the app can route to. */
  datatype ViewType = Dashboard | Upload | Study | Quiz | Flashcards | MindMap | Stats
}
