/** What the last event of the relay says, from the request and from how the upstream ended. */
module RelayAnswers {
  import opened Wrappers
  import opened JsonValues
  import opened QueryContract
  import opened NativeEvidence
  import opened BackendSse
  import opened Relay

  // ----- The fallback envelope -----

  predicate TextOrNullIs(value: Option<Json>, text: Option<string>) {
    match text
    case None => value == Some(Null)
    case Some(t) => value == Some(Str(t))
  }

  /** The fallback for a query and identity: unavailable, for this reason, with nothing in it. */
  ghost predicate FallbackSays(data: Json, query: string, conversationId: Option<string>, requestId: Option<string>,
                               reason: string) {
    && data.Obj?
    && var f := data.fields;
       && Get(f, "query") == Some(Str(query))
       && TextOrNullIs(Get(f, "conversation_id"), conversationId) && TextOrNullIs(Get(f, "request_id"), requestId)
       && Get(f, "reason") == Some(Str(reason)) && Get(f, "mode") == Some(Str("UNAVAILABLE"))
       && Get(f, "schema_version") == Some(Str("gui.host_agent.query_response.v1"))
       && Get(f, "source") == Some(Str("host-agent"))
       && Get(f, "evidence") == Some(Arr([])) && Get(f, "tool_trace") == Some(Arr([]))
       && Get(f, "answer").Some? && Get(f, "answer").value.Obj?
       && AnswerSays(Get(f, "answer").value.fields, reason)
  }

  ghost predicate AnswerSays(answer: seq<Field>, reason: string) {
    && Get(answer, "mode") == Some(Str("UNAVAILABLE")) && Get(answer, "reason") == Some(Str(reason))
    && Get(answer, "summary") == Some(Str("")) && Get(answer, "insights") == Some(Arr([]))
    && Get(answer, "suggestions") == Some(Arr([]))
    && Get(answer, "gap") == Some(Str(if reason == "host-agent-unconfigured" then "Host agent handoff endpoint is not configured."
                                      else "Host Agent did not complete this request."))
  }

  lemma EmptyAnswerSays(reason: string)
    ensures AnswerSays(UnavailableAnswer(reason), reason)
  {
    AnswerHead(reason);
    AnswerTail(reason);
    AnswerGet(reason, 4);
    hide Get;
    assert UnavailableAnswer(reason)[4].key == "gap";
  }

  lemma UnavailableSays(query: string, conversationId: Option<string>, requestId: Option<string>, reason: string)
    ensures FallbackSays(Obj(Unavailable(query, OptionalText(conversationId), OptionalText(requestId), reason)),
                         query, conversationId, requestId, reason)
  {
    EnvelopeHead(query, OptionalText(conversationId), OptionalText(requestId), reason);
    EnvelopeTail(query, OptionalText(conversationId), OptionalText(requestId), reason);
    EmptyAnswerSays(reason);
    hide Get, Unavailable, UnavailableAnswer, AnswerSays;
  }

  // ----- The identity of a refused envelope -----

  /** Its own nonempty text, else the request's. */
  function KeptIdentity(fields: seq<Field>, key: string, own: Option<string>): Option<string> {
    match Get(fields, key)
    case Some(Str(text)) => if |text| > 0 then Some(text) else own
    case _ => own
  }

  lemma IdentityIsKept(fields: seq<Field>, key: string, own: Option<string>)
    ensures SafeIdentity(Get(fields, key), own) == OptionalText(KeptIdentity(fields, key, own))
  {
  }

  // ----- The reason of an upstream error -----

  /** The four places a reason may stand in, in order of preference. */
  function Place(data: Json, n: nat): Option<Json>
    requires n < 4
  {
    if !data.Obj? then None
    else if n == 0 then Get(data.fields, "code")
    else if n == 1 then Get(data.fields, "reason")
    else
      match Get(data.fields, "error")
      case Some(Obj(nested)) => if n == 2 then Get(nested, "code") else Get(nested, "reason")
      case _ => None
  }

  /** A text of 1 to 80 harmless characters, spaces around it aside. */
  predicate Harmless(value: Option<Json>, text: string) {
    && value.Some? && value.value.Str? && text == Strip(value.value.text) && 1 <= |text| <= 80
    && forall k | 0 <= k < |text| ::
         'a' <= text[k] <= 'z' || 'A' <= text[k] <= 'Z' || '0' <= text[k] <= '9'
         || text[k] == '_' || text[k] == '.' || text[k] == ':' || text[k] == '-'
  }

  /** The first place with such a text gives the reason; without any it is a fixed one. */
  ghost predicate ReasonIs(data: Json, reason: string) {
    || (exists n | 0 <= n < 4 :: Harmless(Place(data, n), reason) && forall m, text | 0 <= m < n :: !Harmless(Place(data, m), text))
    || (reason == "host-agent-stream-error" && forall n, text | 0 <= n < 4 :: !Harmless(Place(data, n), text))
  }

  lemma SafeIsHarmless(candidates: seq<Option<Json>>)
    requires candidates != []
    ensures FirstSafe(candidates) ==
              if candidates[0].Some? && candidates[0].value.Str? && Harmless(candidates[0], Strip(candidates[0].value.text)) then
                Strip(candidates[0].value.text)
              else FirstSafe(candidates[1..])
  {
    hide Strip;
  }

  lemma PlacesAreCandidates(data: Json)
    ensures data.Obj? && Get(data.fields, "error").Some? && Get(data.fields, "error").value.Obj? ==>
              ErrorCandidates(data) == [Place(data, 0), Place(data, 1), Place(data, 2), Place(data, 3)]
    ensures data.Obj? && !(Get(data.fields, "error").Some? && Get(data.fields, "error").value.Obj?) ==>
              ErrorCandidates(data) == [Place(data, 0), Place(data, 1)] && Place(data, 2) == Place(data, 3) == None
    ensures !data.Obj? ==>
              ErrorCandidates(data) == [] && Place(data, 0) == Place(data, 1) == Place(data, 2) == Place(data, 3) == None
  {
    hide Get;
  }

  /** Of the places from `n` on the first harmless one, else the fixed reason. */
  function FirstHarmless(data: Json, n: nat): string
    requires n <= 4
    decreases 4 - n
  {
    if n == 4 then "host-agent-stream-error"
    else if Place(data, n).Some? && Place(data, n).value.Str? && Harmless(Place(data, n), Strip(Place(data, n).value.text)) then
      Strip(Place(data, n).value.text)
    else FirstHarmless(data, n + 1)
  }

  lemma ReasonIsFirst(data: Json)
    ensures ErrorReason(data) == FirstHarmless(data, 0)
  {
    PlacesAreCandidates(data);
    var c := ErrorCandidates(data);
    hide Get, Strip, Harmless, Place, ErrorCandidates;
    if |c| > 0 { SafeIsHarmless(c); }
    if |c| > 1 { SafeIsHarmless(c[1..]); }
    if |c| > 2 { SafeIsHarmless(c[1..][1..]); }
    if |c| > 3 { SafeIsHarmless(c[1..][1..][1..]); }
    assert |c| == 4 ==> c[1..][1..][1..][1..] == [];
    assert |c| == 2 ==> c[1..][1..] == [];
    NoneIsNotHarmless(data);
  }

  lemma NoneIsNotHarmless(data: Json)
    ensures Place(data, 2).None? && Place(data, 3).None? ==> FirstHarmless(data, 2) == "host-agent-stream-error"
    ensures Place(data, 0).None? && Place(data, 1).None? && Place(data, 2).None? && Place(data, 3).None? ==>
              FirstHarmless(data, 0) == "host-agent-stream-error"
  {
    hide Place;
  }

  /** The reason of an `error` event. */
  lemma ErrorReasonSays(data: Json)
    ensures ReasonIs(data, ErrorReason(data))
  {
    ReasonIsFirst(data);
    FirstHarmlessSays(data, 0);
  }

  lemma {:induction false} FirstHarmlessSays(data: Json, n: nat)
    requires n <= 4 && forall m, text | 0 <= m < n :: !Harmless(Place(data, m), text)
    ensures ReasonIs(data, FirstHarmless(data, n))
    decreases 4 - n
  {
    hide Place, Strip;
    if n < 4 {
      if Place(data, n).Some? && Place(data, n).value.Str? && Harmless(Place(data, n), Strip(Place(data, n).value.text)) {
        assert Harmless(Place(data, n), FirstHarmless(data, n));
      } else {
        forall m, text | 0 <= m < n + 1
          ensures !Harmless(Place(data, m), text)
        {
        }
        FirstHarmlessSays(data, n + 1);
      }
    }
  }

  // ----- The events before the last -----

  /** Every event before the first terminal is passed on with its data and its own kind, or as a
      `message` if it names none; and nothing else is. */
  lemma LeadIsPassedOn(request: Request, upstream: seq<WireEvent>, ending: Ending, exception: string, host: Host)
    ensures var frames := Relayed(request, upstream, ending, exception, host);
            var n := |frames| - 1;
            && 0 <= n <= |upstream|
            && (n < |upstream| ==> upstream[n].kind == "error" || upstream[n].kind == "final")
            && forall i | 0 <= i < n ::
                 && upstream[i].kind != "error" && upstream[i].kind != "final"
                 && frames[i].data == upstream[i].data
                 && frames[i].kind == if upstream[i].kind == "" then "message" else upstream[i].kind
  {
    assert "message" != "error" && "message" != "final" by {
      assert |"message"| == 7 && |"error"| == 5 && |"final"| == 5;
    }
    hide Conclusion;
    var k := Lead(upstream);
    assert forall i | 0 <= i < k :: !Terminal(upstream[i]);
  }

  // ----- The last event -----

  /** Event `k` is the first terminal of the upstream, of this kind. */
  ghost predicate FirstTerminal(upstream: seq<WireEvent>, k: int, kind: string) {
    && 0 <= k < |upstream| && (kind == "error" || kind == "final") && upstream[k].kind == kind
    && forall j | 0 <= j < k :: upstream[j].kind != "error" && upstream[j].kind != "final"
  }

  lemma LeadIsFirstTerminal(upstream: seq<WireEvent>, k: int, kind: string)
    requires FirstTerminal(upstream, k, kind)
    ensures Lead(upstream) == k && Kind(upstream[k]) == kind
  {
    assert "error" != "" && "final" != "" && "message" != "error" && "message" != "final" by {
      assert |"message"| == 7 && |"error"| == 5 && |"final"| == 5;
    }
    assert Terminal(upstream[k]) && forall j | 0 <= j < k :: !Terminal(upstream[j]);
  }

  lemma NoTerminalLeads(upstream: seq<WireEvent>)
    requires forall j | 0 <= j < |upstream| :: upstream[j].kind != "error" && upstream[j].kind != "final"
    ensures Lead(upstream) == |upstream|
  {
    assert "message" != "error" && "message" != "final" by {
      assert |"message"| == 7 && |"error"| == 5 && |"final"| == 5;
    }
    assert forall j | 0 <= j < |upstream| :: !Terminal(upstream[j]);
  }

  function LastData(request: Request, upstream: seq<WireEvent>, ending: Ending, exception: string, host: Host): Json {
    var frames := Relayed(request, upstream, ending, exception, host);
    frames[|frames| - 1].data
  }

  lemma LastIsConclusion(request: Request, upstream: seq<WireEvent>, ending: Ending, exception: string, host: Host)
    ensures LastData(request, upstream, ending, exception, host) == Conclusion(request, upstream, ending, exception, host)
  {
    hide Conclusion;
  }

  /** After an upstream `error` the relay ends in the request's own fallback with the error's
      reason. */
  lemma AfterError(request: Request, upstream: seq<WireEvent>, ending: Ending, exception: string, host: Host, k: int)
    returns (reason: string)
    requires FirstTerminal(upstream, k, "error")
    ensures ReasonIs(upstream[k].data, reason)
    ensures FallbackSays(LastData(request, upstream, ending, exception, host), request.query, request.conversationId,
                         request.requestId, reason)
  {
    LastIsConclusion(request, upstream, ending, exception, host);
    LeadIsFirstTerminal(upstream, k, "error");
    reason := ErrorReason(upstream[k].data);
    ErrorReasonSays(upstream[k].data);
    UnavailableSays(request.query, request.conversationId, request.requestId, reason);
    hide Unavailable, FallbackSays, ReasonIs, ErrorReason;
  }

  /** After an upstream `final` it ends in that answer, relabelled if it is native Markdown; or,
      if the answer is no valid envelope, in a fallback that keeps the answer's identity. */
  lemma AfterFinal(request: Request, upstream: seq<WireEvent>, ending: Ending, exception: string, host: Host, k: int)
    requires FirstTerminal(upstream, k, "final")
    ensures var data, last := upstream[k].data, LastData(request, upstream, ending, exception, host);
            if ValidQueryResponse(data) then
              if Get(data.fields, "answer_origin") == Some(Str("native-markdown")) then
                last == Obj(VerifyFields(data.fields, host.links, host.read))
              else last == data
            else
              FallbackSays(last, request.query,
                           if data.Obj? then KeptIdentity(data.fields, "conversation_id", request.conversationId)
                           else request.conversationId,
                           if data.Obj? then KeptIdentity(data.fields, "request_id", request.requestId) else request.requestId,
                           "host-agent-envelope-invalid")
  {
    LastIsConclusion(request, upstream, ending, exception, host);
    LeadIsFirstTerminal(upstream, k, "final");
    assert "final" != "error" by { assert "final"[0] == 'f' && "error"[0] == 'e'; }
    var data := upstream[k].data;
    FinalDataSays(request, data, host);
  }

  lemma FinalDataSays(request: Request, data: Json, host: Host)
    ensures if ValidQueryResponse(data) then
              if Get(data.fields, "answer_origin") == Some(Str("native-markdown")) then
                FinalData(request, data, host) == Obj(VerifyFields(data.fields, host.links, host.read))
              else FinalData(request, data, host) == data
            else
              FallbackSays(FinalData(request, data, host), request.query,
                           if data.Obj? then KeptIdentity(data.fields, "conversation_id", request.conversationId)
                           else request.conversationId,
                           if data.Obj? then KeptIdentity(data.fields, "request_id", request.requestId) else request.requestId,
                           "host-agent-envelope-invalid")
  {
    hide Unavailable, FallbackSays, KeptIdentity, SafeIdentity, VerifyFields, ValidFields, OptionalText;
    if !data.Obj? {
      UnavailableSays(request.query, request.conversationId, request.requestId, INVALID_ENVELOPE);
    } else if !ValidQueryResponse(data) {
      IdentityIsKept(data.fields, "conversation_id", request.conversationId);
      IdentityIsKept(data.fields, "request_id", request.requestId);
      UnavailableSays(request.query, KeptIdentity(data.fields, "conversation_id", request.conversationId),
                      KeptIdentity(data.fields, "request_id", request.requestId), INVALID_ENVELOPE);
    } else if Get(data.fields, "answer_origin") == Some(Str(NATIVE)) {
      NativeAnswerSurvives(request, data.fields, host);
    }
  }

  /** Without a terminal it ends in a fallback that says how the upstream stopped; after an
      exception other than a `ValueError` also of which class that was. */
  lemma AfterNothing(request: Request, upstream: seq<WireEvent>, ending: Ending, exception: string, host: Host)
    requires forall j | 0 <= j < |upstream| :: upstream[j].kind != "error" && upstream[j].kind != "final"
    ensures var last := LastData(request, upstream, ending, exception, host);
            && FallbackSays(last, request.query, request.conversationId, request.requestId,
                            if ending == RaisedOther then "host-agent-stream-unavailable" else "host-agent-envelope-invalid")
            && (ending == RaisedOther ==> last.Obj? && Get(last.fields, "error_type") == Some(Str(exception)))
  {
    LastIsConclusion(request, upstream, ending, exception, host);
    NoTerminalLeads(upstream);
    UnavailableSays(request.query, request.conversationId, request.requestId, INVALID_ENVELOPE);
    UnavailableSays(request.query, request.conversationId, request.requestId, STREAM_UNAVAILABLE);
    var fields := Unavailable(request.query, OptionalText(request.conversationId), OptionalText(request.requestId),
                              STREAM_UNAVAILABLE);
    WithErrorType(fields, request, exception);
    hide Unavailable, FallbackSays, Put, Get;
  }

  lemma WithErrorType(fields: seq<Field>, request: Request, exception: string)
    ensures var f := Put(fields, "error_type", Str(exception));
            && Get(f, "error_type") == Some(Str(exception))
            && (FallbackSays(Obj(fields), request.query, request.conversationId, request.requestId, STREAM_UNAVAILABLE) ==>
                FallbackSays(Obj(f), request.query, request.conversationId, request.requestId, STREAM_UNAVAILABLE))
  {
    NotErrorType();
    GetAfterPut(fields, "error_type", Str(exception), "error_type");
    GetAfterPut(fields, "error_type", Str(exception), "schema_version");
    GetAfterPut(fields, "error_type", Str(exception), "request_id");
    GetAfterPut(fields, "error_type", Str(exception), "conversation_id");
    GetAfterPut(fields, "error_type", Str(exception), "source");
    GetAfterPut(fields, "error_type", Str(exception), "mode");
    GetAfterPut(fields, "error_type", Str(exception), "reason");
    GetAfterPut(fields, "error_type", Str(exception), "query");
    GetAfterPut(fields, "error_type", Str(exception), "answer");
    GetAfterPut(fields, "error_type", Str(exception), "evidence");
    GetAfterPut(fields, "error_type", Str(exception), "tool_trace");
    hide Put, Get, AnswerSays;
  }

  /** Without a configured host agent the one event is the request's fallback, and says so. */
  lemma WhenUnconfigured(request: Request)
    ensures FallbackSays(Fallback(request, UNCONFIGURED), request.query, request.conversationId, request.requestId,
                         "host-agent-unconfigured")
  {
    UnavailableSays(request.query, request.conversationId, request.requestId, UNCONFIGURED);
  }
}
