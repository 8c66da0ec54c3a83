/** The backend's relay of a host agent's events: pass-through up to the first terminal, then
    exactly one valid `final`. */
module Relay {
  import opened Wrappers
  import opened JsonValues
  import opened QueryContract
  import opened NativeEvidence
  import opened BackendSse

  const UNCONFIGURED := "host-agent-unconfigured"
  const INVALID_ENVELOPE := "host-agent-envelope-invalid"
  const STREAM_UNAVAILABLE := "host-agent-stream-unavailable"
  const STREAM_ERROR := "host-agent-stream-error"
  const NATIVE := "native-markdown"

  datatype Request = Request(query: string, conversationId: Option<string>, requestId: Option<string>)

  /** What the relay calls outside itself: link extraction and journal reads. */
  datatype Host = Host(links: string -> seq<string>, read: Reader)

  function OptionalText(value: Option<string>): Json {
    match value
    case None => Null
    case Some(text) => Str(text)
  }

  function UnavailableAnswer(reason: string): seq<Field> {
    [Field("mode", Str("UNAVAILABLE")), Field("reason", Str(reason)), Field("summary", Str("")),
     Field("insights", Arr([])),
     Field("gap", Str(if reason == UNCONFIGURED then "Host agent handoff endpoint is not configured."
                      else "Host Agent did not complete this request.")),
     Field("suggestions", Arr([]))]
  }

  /** `unavailable_query_response`. */
  function Unavailable(query: string, conversationId: Json, requestId: Json, reason: string): seq<Field> {
    [Field("schema_version", Str(QUERY_SCHEMA)), Field("request_id", requestId), Field("conversation_id", conversationId),
     Field("source", Str("host-agent")), Field("mode", Str("UNAVAILABLE")), Field("reason", Str(reason)),
     Field("query", Str(query)), Field("answer", Obj(UnavailableAnswer(reason))),
     Field("evidence", Arr([])), Field("tool_trace", Arr([]))]
  }

  function Fallback(request: Request, reason: string): Json {
    Obj(Unavailable(request.query, OptionalText(request.conversationId), OptionalText(request.requestId), reason))
  }

  /** `_safe_identity` of an envelope's own value. */
  function SafeIdentity(value: Option<Json>, fallback: Option<string>): Json {
    match value
    case Some(Str(text)) => if text != "" then Str(text) else OptionalText(fallback)
    case _ => OptionalText(fallback)
  }

  // ----- _safe_terminal_error_reason -----

  predicate ReasonChar(c: char) {
    Alnum(c) || c == '_' || c == '.' || c == ':' || c == '-'
  }

  predicate ReasonText(s: string) {
    s != "" && |s| <= 80 && forall k | 0 <= k < |s| :: ReasonChar(s[k])
  }

  function ErrorCandidates(data: Json): seq<Option<Json>> {
    if !data.Obj? then []
    else
      [Get(data.fields, "code"), Get(data.fields, "reason")]
      + match Get(data.fields, "error")
        case Some(Obj(nested)) => [Get(nested, "code"), Get(nested, "reason")]
        case _ => []
  }

  function FirstSafe(candidates: seq<Option<Json>>): string {
    if candidates == [] then STREAM_ERROR
    else
      match candidates[0]
      case Some(Str(text)) => if ReasonText(Strip(text)) then Strip(text) else FirstSafe(candidates[1..])
      case _ => FirstSafe(candidates[1..])
  }

  function ErrorReason(data: Json): string {
    FirstSafe(ErrorCandidates(data))
  }

  // ----- event_generator -----

  /** An invalid envelope keeps only its identity. */
  function Rejected(request: Request, fields: seq<Field>): Json {
    Obj(Unavailable(request.query, SafeIdentity(Get(fields, "conversation_id"), request.conversationId),
                    SafeIdentity(Get(fields, "request_id"), request.requestId), INVALID_ENVELOPE))
  }

  /** A native answer is relabelled, and checked again. */
  function Grounded(request: Request, fields: seq<Field>, host: Host): Json {
    var verified := Obj(VerifyFields(fields, host.links, host.read));
    if ValidQueryResponse(verified) then verified else Fallback(request, INVALID_ENVELOPE)
  }

  /** The data of the one final the relay emits for an upstream `final`. */
  function FinalData(request: Request, data: Json, host: Host): Json {
    if !data.Obj? then Fallback(request, INVALID_ENVELOPE)
    else if !ValidQueryResponse(data) then Rejected(request, data.fields)
    else if Get(data.fields, "answer_origin") == Some(Str(NATIVE)) then Grounded(request, data.fields, host)
    else data
  }

  function Kind(event: WireEvent): string {
    if event.kind == "" then "message" else event.kind
  }

  predicate Terminal(event: WireEvent) {
    Kind(event) == "error" || Kind(event) == "final"
  }

  /** The events before the first terminal; all of them when there is none. */
  function Lead(upstream: seq<WireEvent>): (k: nat)
    ensures k <= |upstream|
    ensures forall i | 0 <= i < k :: !Terminal(upstream[i])
    ensures k < |upstream| ==> Terminal(upstream[k])
  {
    if upstream == [] || Terminal(upstream[0]) then 0 else 1 + Lead(upstream[1..])
  }

  /** What the final says, by how the stream reached its end. */
  function Conclusion(request: Request, upstream: seq<WireEvent>, ending: Ending, exception: string, host: Host): Json {
    var k := Lead(upstream);
    if k < |upstream| then
      if Kind(upstream[k]) == "error" then Fallback(request, ErrorReason(upstream[k].data))
      else FinalData(request, upstream[k].data, host)
    else if ending.RaisedOther? then
      Obj(Put(Fallback(request, STREAM_UNAVAILABLE).fields, "error_type", Str(exception)))
    else Fallback(request, INVALID_ENVELOPE)
  }

  function PassedOn(event: WireEvent): WireEvent {
    event.(kind := Kind(event))
  }

  function PassedUpTo(upstream: seq<WireEvent>, k: nat): seq<WireEvent>
    requires k <= |upstream|
  {
    seq(k, i requires 0 <= i < k => PassedOn(upstream[i]))
  }

  function Relayed(request: Request, upstream: seq<WireEvent>, ending: Ending, exception: string, host: Host): seq<WireEvent> {
    PassedUpTo(upstream, Lead(upstream)) + [WireEvent("final", Conclusion(request, upstream, ending, exception, host))]
  }

  /** `exception` names the class of an exception other than a `ValueError`. */
  method EventGenerator(request: Request, configured: bool, upstream: seq<WireEvent>, ending: Ending, exception: string,
                        host: Host)
    returns (frames: seq<WireEvent>)
    ensures configured ==> frames == Relayed(request, upstream, ending, exception, host)
    ensures !configured ==> frames == [WireEvent("final", Fallback(request, UNCONFIGURED))]
  {
    if !configured {
      return [WireEvent("final", Fallback(request, UNCONFIGURED))];
    }
    frames := [];
    for i := 0 to |upstream|
      invariant i <= Lead(upstream) && frames == PassedUpTo(upstream, i)
    {
      LeadIsFirst(upstream, i);
      var eventType := if upstream[i].kind == "" then "message" else upstream[i].kind;
      if eventType == "error" {
        return frames + [WireEvent("final", Fallback(request, ErrorReason(upstream[i].data)))];
      }
      if eventType == "final" {
        var data := ConcludeFinal(request, upstream[i].data, host);
        return frames + [WireEvent("final", data)];
      }
      frames := frames + [WireEvent(eventType, upstream[i].data)];
    }
    if ending.RaisedOther? {
      var data := Obj(Put(Fallback(request, STREAM_UNAVAILABLE).fields, "error_type", Str(exception)));
      frames := frames + [WireEvent("final", data)];
    } else {
      frames := frames + [WireEvent("final", Fallback(request, INVALID_ENVELOPE))];
    }
  }

  /** The branch for an upstream `final`. */
  method ConcludeFinal(request: Request, data: Json, host: Host) returns (final: Json)
    ensures final == FinalData(request, data, host) && ValidQueryResponse(final)
  {
    FinalDataIsValid(request, data, host);
    if !data.Obj? {
      return Fallback(request, INVALID_ENVELOPE);
    }
    if !ValidQueryResponse(data) {
      return Rejected(request, data.fields);
    }
    if Get(data.fields, "answer_origin") != Some(Str(NATIVE)) {
      return data;
    }
    var verified := VerifyNativeMarkdownEvidence(data.fields, host.links, host.read);
    return if ValidQueryResponse(Obj(verified)) then Obj(verified) else Fallback(request, INVALID_ENVELOPE);
  }

  lemma {:induction false} LeadIsFirst(upstream: seq<WireEvent>, i: nat)
    requires i < |upstream| && i <= Lead(upstream)
    ensures Terminal(upstream[i]) <==> Lead(upstream) == i
  {
  }

  // ----- Every final is a valid envelope -----

  lemma AnswerKeys()
    ensures "reason" != "mode"
    ensures "summary" != "mode" && "summary" != "reason"
    ensures "insights" != "mode" && "insights" != "reason" && "insights" != "summary"
    ensures "gap" != "mode" && "gap" != "reason" && "gap" != "summary" && "gap" != "insights"
    ensures "suggestions" != "mode" && "suggestions" != "reason" && "suggestions" != "summary"
            && "suggestions" != "insights" && "suggestions" != "gap"
  {
    assert |"mode"| == 4 && |"reason"| == 6 && |"summary"| == 7 && |"insights"| == 8 && |"gap"| == 3 && |"suggestions"| == 11;
  }

  lemma AnswerKeysUnique(reason: string)
    ensures UniqueKeys(UnavailableAnswer(reason))
  {
    AnswerKeys();
  }

  lemma AnswerGet(reason: string, k: nat)
    requires k < 6
    ensures Get(UnavailableAnswer(reason), UnavailableAnswer(reason)[k].key) == Some(UnavailableAnswer(reason)[k].value)
  {
    AnswerKeysUnique(reason);
    GetAt(UnavailableAnswer(reason), k);
  }

  lemma AnswerIsValidIf(f: seq<Field>, reason: string, gap: string)
    requires Get(f, "mode") == Some(Str("UNAVAILABLE")) && Get(f, "reason") == Some(Str(reason))
    requires Get(f, "summary") == Some(Str("")) && Get(f, "insights") == Some(Arr([]))
    requires Get(f, "gap") == Some(Str(gap)) && Get(f, "suggestions") == Some(Arr([]))
    ensures IsAnswer(Obj(f))
  {
  }

  lemma AnswerHead(reason: string)
    ensures var f := UnavailableAnswer(reason);
            && Get(f, "mode") == Some(Str("UNAVAILABLE")) && Get(f, "reason") == Some(Str(reason))
            && Get(f, "summary") == Some(Str(""))
  {
    hide Get;
    AnswerGet(reason, 0);
    AnswerGet(reason, 1);
    AnswerGet(reason, 2);
  }

  lemma AnswerTail(reason: string)
    ensures var f := UnavailableAnswer(reason);
            && Get(f, "insights") == Some(Arr([])) && Get(f, "gap").Some? && Get(f, "gap").value.Str?
            && Get(f, "suggestions") == Some(Arr([]))
  {
    hide Get;
    AnswerGet(reason, 3);
    AnswerGet(reason, 4);
    AnswerGet(reason, 5);
  }

  lemma UnavailableAnswerIsValid(reason: string)
    ensures IsAnswer(Obj(UnavailableAnswer(reason)))
    ensures Get(UnavailableAnswer(reason), "mode") == Some(Str("UNAVAILABLE"))
  {
    AnswerHead(reason);
    AnswerTail(reason);
    hide Get, UnavailableAnswer, IsAnswer;
    var f := UnavailableAnswer(reason);
    AnswerIsValidIf(f, reason, Get(f, "gap").value.text);
  }

  lemma EnvelopeKeys()
    ensures "request_id" != "schema_version"
    ensures "conversation_id" != "schema_version" && "conversation_id" != "request_id"
    ensures "source" != "schema_version" && "source" != "request_id" && "source" != "conversation_id"
    ensures "mode" != "schema_version" && "mode" != "request_id" && "mode" != "conversation_id" && "mode" != "source"
    ensures "reason" != "schema_version" && "reason" != "request_id" && "reason" != "conversation_id"
            && "reason" != "source" && "reason" != "mode"
    ensures "query" != "schema_version" && "query" != "request_id" && "query" != "conversation_id"
            && "query" != "source" && "query" != "mode" && "query" != "reason"
    ensures "answer" != "schema_version" && "answer" != "request_id" && "answer" != "conversation_id"
            && "answer" != "source" && "answer" != "mode" && "answer" != "reason" && "answer" != "query"
    ensures "evidence" != "schema_version" && "evidence" != "request_id" && "evidence" != "conversation_id"
            && "evidence" != "source" && "evidence" != "mode" && "evidence" != "reason"
            && "evidence" != "query" && "evidence" != "answer"
    ensures "tool_trace" != "schema_version" && "tool_trace" != "request_id"
            && "tool_trace" != "conversation_id" && "tool_trace" != "source" && "tool_trace" != "mode"
            && "tool_trace" != "reason" && "tool_trace" != "query" && "tool_trace" != "answer"
            && "tool_trace" != "evidence"
  {
    assert |"schema_version"| == 14 && |"conversation_id"| == 15 && |"request_id"| == 10;
    assert |"source"| == 6 && |"mode"| == 4 && |"reason"| == 6 && |"query"| == 5 && |"answer"| == 6;
    assert |"evidence"| == 8 && |"tool_trace"| == 10;
    assert "request_id"[0] == 'r' && "tool_trace"[0] == 't';
    assert "source"[0] == 's' && "reason"[0] == 'r' && "answer"[0] == 'a';
  }

  lemma EnvelopeKeysUnique(query: string, conversationId: Json, requestId: Json, reason: string)
    ensures UniqueKeys(Unavailable(query, conversationId, requestId, reason))
  {
    EnvelopeKeys();
    hide UnavailableAnswer;
  }

  lemma EnvelopeGet(query: string, conversationId: Json, requestId: Json, reason: string, k: nat)
    requires k < 10
    ensures var f := Unavailable(query, conversationId, requestId, reason); Get(f, f[k].key) == Some(f[k].value)
  {
    EnvelopeKeysUnique(query, conversationId, requestId, reason);
    GetAt(Unavailable(query, conversationId, requestId, reason), k);
  }

  lemma EnvelopeIsValidIf(f: seq<Field>, answer: seq<Field>)
    requires Get(f, "schema_version") == Some(Str(QUERY_SCHEMA))
    requires Get(f, "request_id").Some? && IsTextOrNull(Get(f, "request_id").value)
    requires Get(f, "conversation_id").Some? && IsTextOrNull(Get(f, "conversation_id").value)
    requires Get(f, "source") == Some(Str("host-agent")) && Get(f, "mode") == Some(Str("UNAVAILABLE"))
    requires Get(f, "reason").Some? && IsTextOrNull(Get(f, "reason").value)
    requires Get(f, "query").Some? && Get(f, "query").value.Str?
    requires Get(f, "answer") == Some(Obj(answer)) && IsAnswer(Obj(answer)) && Get(answer, "mode") == Some(Str("UNAVAILABLE"))
    requires Get(f, "evidence") == Some(Arr([])) && Get(f, "tool_trace") == Some(Arr([]))
    ensures ValidFields(f)
  {
    assert |"UNAVAILABLE"| == 11 && |"GROUNDED"| == 8 && |"UNGROUNDED"| == 10;
  }

  lemma EnvelopeHead(query: string, conversationId: Json, requestId: Json, reason: string)
    ensures var f := Unavailable(query, conversationId, requestId, reason);
            && Get(f, "schema_version") == Some(Str(QUERY_SCHEMA)) && Get(f, "request_id") == Some(requestId)
            && Get(f, "conversation_id") == Some(conversationId) && Get(f, "source") == Some(Str("host-agent"))
            && Get(f, "mode") == Some(Str("UNAVAILABLE"))
  {
    hide Get;
    EnvelopeGet(query, conversationId, requestId, reason, 0);
    EnvelopeGet(query, conversationId, requestId, reason, 1);
    EnvelopeGet(query, conversationId, requestId, reason, 2);
    EnvelopeGet(query, conversationId, requestId, reason, 3);
    EnvelopeGet(query, conversationId, requestId, reason, 4);
  }

  lemma EnvelopeTail(query: string, conversationId: Json, requestId: Json, reason: string)
    ensures var f := Unavailable(query, conversationId, requestId, reason);
            && Get(f, "reason") == Some(Str(reason)) && Get(f, "query") == Some(Str(query))
            && Get(f, "answer") == Some(Obj(UnavailableAnswer(reason)))
            && Get(f, "evidence") == Some(Arr([])) && Get(f, "tool_trace") == Some(Arr([]))
  {
    hide Get;
    EnvelopeGet(query, conversationId, requestId, reason, 5);
    EnvelopeGet(query, conversationId, requestId, reason, 6);
    EnvelopeGet(query, conversationId, requestId, reason, 7);
    EnvelopeGet(query, conversationId, requestId, reason, 8);
    EnvelopeGet(query, conversationId, requestId, reason, 9);
  }

  /** The fallback envelope is valid, whatever identity and reason it carries. */
  lemma UnavailableIsValid(query: string, conversationId: Json, requestId: Json, reason: string)
    requires IsTextOrNull(conversationId) && IsTextOrNull(requestId)
    ensures ValidFields(Unavailable(query, conversationId, requestId, reason))
  {
    EnvelopeHead(query, conversationId, requestId, reason);
    EnvelopeTail(query, conversationId, requestId, reason);
    UnavailableAnswerIsValid(reason);
    EnvelopeIsValidIf(Unavailable(query, conversationId, requestId, reason), UnavailableAnswer(reason));
  }

  /** An additional key changes nothing the contract reads. */
  lemma ErrorTypeIsHarmless(fields: seq<Field>, name: string)
    requires ValidFields(fields)
    ensures ValidFields(Put(fields, "error_type", Str(name)))
  {
    hide Get, Put, ValidFields;
    NotErrorType();
    GetAfterPut(fields, "error_type", Str(name), "schema_version");
    GetAfterPut(fields, "error_type", Str(name), "request_id");
    GetAfterPut(fields, "error_type", Str(name), "conversation_id");
    GetAfterPut(fields, "error_type", Str(name), "source");
    GetAfterPut(fields, "error_type", Str(name), "mode");
    GetAfterPut(fields, "error_type", Str(name), "reason");
    GetAfterPut(fields, "error_type", Str(name), "query");
    GetAfterPut(fields, "error_type", Str(name), "answer");
    GetAfterPut(fields, "error_type", Str(name), "evidence");
    GetAfterPut(fields, "error_type", Str(name), "tool_trace");
    SameView(fields, Put(fields, "error_type", Str(name)));
  }

  lemma NotErrorType()
    ensures "schema_version" != "error_type" && "request_id" != "error_type" && "conversation_id" != "error_type"
    ensures "source" != "error_type" && "mode" != "error_type" && "reason" != "error_type" && "query" != "error_type"
    ensures "answer" != "error_type" && "evidence" != "error_type" && "tool_trace" != "error_type"
  {
    assert |"error_type"| == 10 && "error_type"[0] == 'e' && "request_id"[0] == 'r' && "tool_trace"[0] == 't';
    assert |"schema_version"| == 14 && |"conversation_id"| == 15 && |"source"| == 6 && |"mode"| == 4 && |"reason"| == 6;
    assert |"query"| == 5 && |"answer"| == 6 && |"evidence"| == 8;
  }

  lemma SameView(fields: seq<Field>, f: seq<Field>)
    requires ValidFields(fields)
    requires Get(f, "schema_version") == Get(fields, "schema_version") && Get(f, "request_id") == Get(fields, "request_id")
    requires Get(f, "conversation_id") == Get(fields, "conversation_id") && Get(f, "source") == Get(fields, "source")
    requires Get(f, "mode") == Get(fields, "mode") && Get(f, "reason") == Get(fields, "reason")
    requires Get(f, "query") == Get(fields, "query") && Get(f, "answer") == Get(fields, "answer")
    requires Get(f, "evidence") == Get(fields, "evidence") && Get(f, "tool_trace") == Get(fields, "tool_trace")
    ensures ValidFields(f)
  {
  }

  lemma FallbackIsValid(request: Request, reason: string)
    ensures ValidQueryResponse(Fallback(request, reason))
  {
    UnavailableIsValid(request.query, OptionalText(request.conversationId), OptionalText(request.requestId), reason);
  }

  lemma RejectedIsValid(request: Request, fields: seq<Field>)
    ensures ValidQueryResponse(Rejected(request, fields))
  {
    UnavailableIsValid(request.query, SafeIdentity(Get(fields, "conversation_id"), request.conversationId),
                       SafeIdentity(Get(fields, "request_id"), request.requestId), INVALID_ENVELOPE);
  }

  lemma GroundedIsValid(request: Request, fields: seq<Field>, host: Host)
    ensures ValidQueryResponse(Grounded(request, fields, host))
  {
    FallbackIsValid(request, INVALID_ENVELOPE);
  }

  lemma FinalDataIsValid(request: Request, data: Json, host: Host)
    ensures ValidQueryResponse(FinalData(request, data, host))
  {
    if !data.Obj? {
      FallbackIsValid(request, INVALID_ENVELOPE);
    } else if !ValidQueryResponse(data) {
      RejectedIsValid(request, data.fields);
    } else {
      GroundedIsValid(request, data.fields, host);
    }
  }

  /** Grounding never costs an answer: the fallback behind a relabelled answer is dead code. */
  lemma NativeAnswerSurvives(request: Request, fields: seq<Field>, host: Host)
    requires ValidFields(fields) && Get(fields, "answer_origin") == Some(Str(NATIVE))
    ensures FinalData(request, Obj(fields), host) == Obj(VerifyFields(fields, host.links, host.read))
  {
    VerifiedStaysValid(fields, host.links, host.read);
  }

  lemma ConclusionIsValid(request: Request, upstream: seq<WireEvent>, ending: Ending, exception: string, host: Host)
    ensures ValidQueryResponse(Conclusion(request, upstream, ending, exception, host))
  {
    var k := Lead(upstream);
    if k < |upstream| {
      FinalDataIsValid(request, upstream[k].data, host);
      FallbackIsValid(request, ErrorReason(upstream[k].data));
    } else {
      FallbackIsValid(request, INVALID_ENVELOPE);
      FallbackIsValid(request, STREAM_UNAVAILABLE);
      ErrorTypeIsHarmless(Fallback(request, STREAM_UNAVAILABLE).fields, exception);
    }
  }

  /** Exactly one `final`, last and a valid envelope; no `error`; and before it exactly the
      upstream events ahead of the first terminal, in order and unchanged but for an empty type. */
  ghost predicate OneFinal(frames: seq<WireEvent>, upstream: seq<WireEvent>) {
    && frames != [] && |frames| - 1 <= |upstream|
    && (forall i | 0 <= i < |frames| :: frames[i].kind == "final" <==> i == |frames| - 1)
    && (forall i | 0 <= i < |frames| :: frames[i].kind != "error")
    && ValidQueryResponse(frames[|frames| - 1].data)
    && (forall i | 0 <= i < |frames| - 1 :: frames[i].data == upstream[i].data && !Terminal(upstream[i])
          && frames[i].kind == if upstream[i].kind == "" then "message" else upstream[i].kind)
    && (|frames| - 1 < |upstream| ==> Terminal(upstream[|frames| - 1]))
  }

  lemma LeadThenFinal(upstream: seq<WireEvent>, k: nat, conclusion: Json)
    requires k <= |upstream| && (forall i | 0 <= i < k :: !Terminal(upstream[i])) && (k < |upstream| ==> Terminal(upstream[k]))
    requires ValidQueryResponse(conclusion)
    ensures OneFinal(PassedUpTo(upstream, k) + [WireEvent("final", conclusion)], upstream)
  {
    hide ValidQueryResponse;
    assert "final" != "error" by { assert "final"[0] == 'f' && "error"[0] == 'e'; }
  }

  /** For every upstream and every way it ends. */
  lemma ExactlyOneFinal(request: Request, upstream: seq<WireEvent>, ending: Ending, exception: string, host: Host)
    ensures OneFinal(Relayed(request, upstream, ending, exception, host), upstream)
  {
    ConclusionIsValid(request, upstream, ending, exception, host);
    LeadThenFinal(upstream, Lead(upstream), Conclusion(request, upstream, ending, exception, host));
  }
}
