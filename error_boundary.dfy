/**
 * The error boundary: it renders its children until one of them throws, then a
 * fallback (when given) or an error panel with a "Try Again" button that clears
 * the error.  The error id comes from the clock in the source; here it is an
 * opaque string supplied by the caller.
 */
module ErrorBoundary {
  import opened Maybe

  datatype Error = Error(message: string)

  const DefaultMessage := "An unexpected error occurred"

  /** What `render` produces. */
  datatype View = Children | Fallback | ErrorPanel(message: string, errorId: string)

  /** `getDerivedStateFromError`: a whole new state that records the error. */
  datatype BoundaryState = BoundaryState(hasError: bool, error: Option<Error>, errorId: string)

  function DerivedStateFromError(e: Error, newId: string): (s: BoundaryState)
    ensures s.hasError && s.error == Some(e) && s.errorId == newId
  {
    BoundaryState(true, Some(e), newId)
  }

  /** The panel's message: the error's message, unless it is missing or empty. */
  function PanelMessage(error: Option<Error>): (m: string)
    ensures error.Some? && error.value.message != "" ==> m == error.value.message
    ensures error.None? || error.value.message == "" ==> m == DefaultMessage
  {
    if error.Some? && error.value.message != "" then error.value.message else DefaultMessage
  }

  /** `render`: the children exactly when there is no error; otherwise the fallback
      when one is given, else the panel. */
  function RenderChoice(s: BoundaryState, hasFallback: bool): (v: View)
    ensures v == Children <==> !s.hasError
    ensures s.hasError && hasFallback ==> v == Fallback
    ensures s.hasError && !hasFallback ==> v == ErrorPanel(PanelMessage(s.error), s.errorId)
  {
    if !s.hasError then Children
    else if hasFallback then Fallback
    else ErrorPanel(PanelMessage(s.error), s.errorId)
  }

  class Boundary {
    var hasError: bool
    var error: Option<Error>
    var errorId: string

    function State(): BoundaryState
      reads this
    {
      BoundaryState(hasError, error, errorId)
    }

    constructor (initialId: string)
      ensures !hasError && error == None && errorId == initialId
    {
      hasError := false;
      error := None;
      errorId := initialId;
    }

    /** A child threw: the derived state replaces all three fields. */
    method CatchError(e: Error, newId: string)
      modifies this
      ensures State() == DerivedStateFromError(e, newId)
      ensures RenderChoice(State(), false) == ErrorPanel(PanelMessage(Some(e)), newId)
    {
      var s := DerivedStateFromError(e, newId);
      hasError, error, errorId := s.hasError, s.error, s.errorId;
    }

    /** "Try Again": `setState` merges, so the error id survives the retry. */
    method HandleRetry()
      modifies this
      ensures !hasError && error == None && errorId == old(errorId)
      ensures forall hasFallback :: RenderChoice(State(), hasFallback) == Children
    {
      hasError := false;
      error := None;
    }
  }
}
