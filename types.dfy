/** The application's records (lib/types.ts and the component-local project
    type). Dates are millisecond timestamps; optional fields are `Option`s,
    except where every reader treats the absent value like an empty one. */
module Types {
  import opened Wrappers
  import opened JsNumber

  /** A question's `type`; `OtherType` stands for any other tag a stored pack
      might carry, which every `switch` sends to its default branch. */
  datatype QuestionType = BooleanType | NumberType | EnumType | LookupType | OtherType(tag: string)

  datatype Comparator = Ge | Le | Gt | Lt | Eq {
    /** The comparator as it is written in a question and a prompt. */
    function Symbol(): string {
      match this
      case Ge => ">="
      case Le => "<="
      case Gt => ">"
      case Lt => "<"
      case Eq => "=="
    }
  }

  datatype CatalogItem = CatalogItem(
    id: string,
    trade: string,
    text: string,
    qtype: QuestionType,
    requiresThreshold: bool)

  /** A pack question. `weight` is an integer 0..10 where the pack editor sets it. */
  datatype Question = Question(
    id: string,
    key: string,
    text: string,
    qtype: QuestionType,
    threshold: Option<Num>,
    comparator: Option<Comparator>,
    expectedBoolean: Option<bool>,
    expectedEnum: Option<string>,
    critical: bool,
    weight: int)

  datatype PackFilters = PackFilters(states: seq<string>, markets: seq<string>)

  datatype QuestionPack = QuestionPack(
    id: string,
    name: string,
    trades: seq<string>,
    questions: seq<Question>,
    filters: PackFilters,
    createdAt: int)

  /** A document reference parsed out of a GraphRAG answer. */
  datatype Source = Source(
    filename: string,
    humanReadable: string,
    pageNum: int,
    sheetNumber: int,
    section: string)

  datatype TestResult = TestResult(
    questionId: string,
    question: string,
    answer: string,
    rawResponse: string,
    passed: bool,
    sources: seq<Source>,
    critical: bool,
    weight: int)

  /** The declared shape of a completed run, as the history stores it. */
  datatype TestRun = TestRun(
    id: string,
    packId: string,
    projectId: string,
    results: seq<TestResult>,
    finalScore: int,
    baseScore: int,
    hasCriticalFail: bool,
    verdict: string,
    completedAt: int)

  datatype SavedTestResult = SavedTestResult(
    id: string,
    packId: string,
    packName: string,
    projectId: string,
    projectName: string,
    testRun: TestRun,
    createdAt: int)

  /** An entry of `includedDocuments`; only how many there are is ever read. */
  datatype Document = Document(raw: string)

  /** The fields of an API project the application reads. */
  datatype ApiProject = ApiProject(
    id: string,
    projectName: string,
    includedDocuments: Option<seq<Document>>)

  datatype ProjectSource = Manual | Api

  /** A project as the selector lists it. */
  datatype Project = Project(
    id: string,
    name: string,
    source: ProjectSource,
    documentCount: Option<nat>)

  /** A project as the project manager and the saved project list hold it. */
  datatype ManagedProject = ManagedProject(id: string, name: string, description: string)

  datatype MessageType = User | Assistant | System

  datatype MessageMetadata = MessageMetadata(
    projectIds: Option<seq<string>>,
    responseTime: Option<int>,
    tokensUsed: Option<int>,
    model: Option<string>,
    error: Option<string>)

  /** A chat message. An absent `sources` list reads as empty everywhere, so it
      is a plain sequence. */
  datatype ChatMessage = ChatMessage(
    id: string,
    mtype: MessageType,
    content: string,
    timestamp: int,
    sources: seq<Source>,
    metadata: Option<MessageMetadata>)

  /** A conversation. An absent `title` reads as the empty string everywhere. */
  datatype ChatConversation = ChatConversation(
    id: string,
    projectIds: seq<string>,
    projectNames: seq<string>,
    messages: seq<ChatMessage>,
    createdAt: int,
    updatedAt: int,
    title: string)

  /** An export format; `OtherFormat` is any string outside the declared union. */
  datatype ExportFormat = Csv | Txt | Json | OtherFormat(tag: string) {
    function Name(): string {
      match this
      case Csv => "csv"
      case Txt => "txt"
      case Json => "json"
      case OtherFormat(t) => t
    }
  }

  datatype ExportOptions = ExportOptions(
    format: ExportFormat,
    includeMetadata: bool,
    includeSources: bool,
    includeTimestamps: bool,
    conversationId: Option<string>)
}
