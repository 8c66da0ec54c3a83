/** The neutral event vocabulary shared by the session guard and its bindings. */
module NeutralContract {
  import opened Wrappers
  import opened JsonValues

  datatype Code =
    | EventInvalid
    | EventRequestMismatch
    | DuplicateTerminal
    | LateFrame
    | EventSequence
    | MissingTerminal
    | BindingFailure
    | Cancelled
    | TerminalOversize
    | SessionClosed
    | SessionCapacity
    | TerminalLimitInvalid
    | RequestIdReuse
    | RequestInFlight
    | EmptyRequestId
    | WaiterUnderflow
    | SizeFailure
    | Custom(text: string)

  datatype ErrorLayer = SessionLayer | BindingLayer | ToolLayer
  datatype Presentation = Failed | Canceled
  datatype ProviderOutcome = Succeeded | ProviderFailed | Unknown

  datatype Event =
    | StatusEvent(requestId: string, sequence: int, phase: string, message: string)
    | EvidenceEvent(requestId: string, sequence: int, evidence: Json, provenance: string)
    | FinalEvent(requestId: string, sequence: int, envelope: Json, provenance: string)
    | ErrorEvent(requestId: string, sequence: int, code: Code, layer: ErrorLayer, safeMessage: string,
                 retryable: bool, detail: Json, provenanceRef: Option<string>, effectKnown: bool,
                 presentation: Presentation, outcome: ProviderOutcome)

  predicate IsTerminal(e: Event) {
    e.FinalEvent? || e.ErrorEvent?
  }

  /** What the frozen pydantic models accept. */
  predicate ValidEvent(e: Event) {
    && e.requestId != ""
    && e.sequence >= 0
    && match e
       case StatusEvent(_, _, phase, message) => phase != "" && message != ""
       case EvidenceEvent(_, _, evidence, provenance) => evidence.Obj? && provenance != ""
       case FinalEvent(id, _, envelope, provenance) =>
         envelope.Obj? && provenance != "" && Get(envelope.fields, "request_id") == Some(Str(id))
       case ErrorEvent(_, _, code, _, safeMessage, _, _, _, _, presentation, _) =>
         code != Custom("") && safeMessage != "" && (code == Cancelled <==> presentation == Canceled)
  }

  /** One item yielded by a binding: event-shaped, or a value no event model accepts. */
  datatype Raw = Shaped(event: Event) | Malformed

  function ValidateNeutralEvent(raw: Raw): Option<Event> {
    if raw.Shaped? && ValidEvent(raw.event) then Some(raw.event) else None
  }
}
