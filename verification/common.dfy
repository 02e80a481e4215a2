/** Shapes shared by the repositories and the view-models: the domain Todo, the UI events,
    the outcome of a repository call and the environment a call runs in. */
module Common {

  datatype Option<+T> = None | Some(value: T) {
    function GetOr(default: T): T {
      match this
      case Some(v) => v
      case None => default
    }
  }

  /** An opaque point in time (a client clock reading or a server timestamp). */
  type Instant = int

  /** The domain record the UI shows. */
  datatype Todo = Todo(id: string, title: string, description: Option<string>, isCompleted: bool)

  /** The add/edit destination; a null id means "create a new todo". */
  datatype Route = AddEditRoute(id: Option<string>)

  /** One-shot events a view-model sends to its screen. */
  datatype UiEvent = Navigate(route: Route) | NavigateBack | ShowSnackbar(message: string)

  /** What a repository call ends with: normal return, or one of the exceptions it throws. */
  datatype Outcome = Ok | NotFound(id: string) | NotOwner | StoreError(message: string) {
    /** The exception's message, as the view-models put it into a snackbar. */
    function Message(): string
      requires !Ok?
    {
      match this
      case NotFound(id) => "Todo document not found with id: " + id
      case NotOwner => "Todo does not belong to current user"
      case StoreError(message) => message
    }
  }

  /** The world a repository call runs in: the signed-in user's uid (if any), the clock, and
      whether the store's read or write round trip fails (with the exception's message). */
  datatype Env = Env(session: Option<string>, now: Instant, readFault: Option<string>, writeFault: Option<string>)

  /** Kotlin's Char.isWhitespace: the Unicode space, line and paragraph separators plus the
      ASCII controls HT, LF, VT, FF, CR and FS..US. */
  predicate IsWhitespace(c: char) {
    || c == ' ' || '\t' <= c <= '\r' || '\U{1C}' <= c <= '\U{1F}'
    || c == '\U{A0}' || c == '\U{1680}' || '\U{2000}' <= c <= '\U{200A}'
    || c == '\U{2028}' || c == '\U{2029}' || c == '\U{202F}' || c == '\U{205F}' || c == '\U{3000}'
  }

  /** Kotlin's CharSequence.isBlank: empty or whitespace only. */
  predicate IsBlank(s: string) {
    forall i :: 0 <= i < |s| ==> IsWhitespace(s[i])
  }
}
