/** The shape shared by the four application state containers: the
    last-fetched list, a loading flag and an error slot. */
module Container {
  import opened Domain

  datatype State<T> = State(items: seq<T>, loading: bool, error: Option<string>)

  function Initial<T>(): State<T>
  {
    State([], false, None)
  }

  /** `action.error.message || fallback`: a missing or empty message is
      replaced by the container's default text. */
  function ErrorText(message: Option<string>, fallback: string): (r: string)
    ensures message.Some? && message.value != "" ==> r == message.value
    ensures message.None? || message.value == "" ==> r == fallback
  {
    match message
    case Some(m) => if m != "" then m else fallback
    case None => fallback
  }

  /** A fetch has started. */
  function Pending<T>(s: State<T>): State<T>
  {
    s.(loading := true, error := None)
  }

  /** A fetch has completed with `payload`. */
  function Fetched<T>(s: State<T>, payload: seq<T>): State<T>
  {
    s.(loading := false, items := payload)
  }

  /** A fetch has failed. */
  function FetchFailed<T>(s: State<T>, message: Option<string>, fallback: string): State<T>
  {
    s.(loading := false, error := Some(ErrorText(message, fallback)))
  }

  /** A write (add, update, delete) has failed: only the error slot moves. */
  function WriteFailed<T>(s: State<T>, message: Option<string>, fallback: string): State<T>
  {
    s.(error := Some(ErrorText(message, fallback)))
  }

  function Cleared<T>(s: State<T>): State<T>
  {
    s.(error := None)
  }

  /** A successful write replaces the list and touches no flag. */
  function WithItems<T>(s: State<T>, items: seq<T>): State<T>
  {
    s.(items := items)
  }
}
