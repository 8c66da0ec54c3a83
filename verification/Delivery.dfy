/** What the relay sends, as text and for the browser: all of it can be written, and the data of
    its one final is accepted by the browser's schema under an exact condition on the upstream. */
module Delivery {
  import opened Wrappers
  import opened JsonValues
  import opened JsonText
  import opened QueryContract
  import opened NativeEvidence
  import opened BackendSse
  import opened BrowserSchema
  import opened Relay

  // ----- All of it can be written -----

  lemma PutIsWritable(fields: seq<Field>, key: string, value: Json)
    requires Writable(Obj(fields)) && Writable(value)
    ensures Writable(Obj(Put(fields, key, value)))
  {
    PutKeepsKeys(fields, key, value);
    PutValues(fields, key, value, j => Writable(j));
  }

  lemma RemoveIsWritable(fields: seq<Field>, key: string)
    requires Writable(Obj(fields))
    ensures Writable(Obj(Remove(fields, key)))
  {
    RemoveKeepsKeys(fields, key);
    RemoveValues(fields, key, j => Writable(j));
  }

  lemma GetIsWritable(fields: seq<Field>, key: string)
    requires Writable(Obj(fields)) && Get(fields, key).Some?
    ensures Writable(Get(fields, key).value)
  {
    var k :| 0 <= k < |fields| && fields[k] == Field(key, Get(fields, key).value);
  }

  lemma UnavailableIsWritable(query: string, conversationId: Json, requestId: Json, reason: string)
    requires Writable(conversationId) && Writable(requestId)
    ensures Writable(Obj(Unavailable(query, conversationId, requestId, reason)))
  {
    AnswerKeysUnique(reason);
    AnswerIsWritable(reason);
    EnvelopeKeysUnique(query, conversationId, requestId, reason);
    hide UniqueKeys, UnavailableAnswer;
    assert Writable(Arr([]));
  }

  lemma AnswerIsWritable(reason: string)
    ensures Writable(Obj(UnavailableAnswer(reason)))
  {
    AnswerKeysUnique(reason);
    hide UniqueKeys;
    assert Writable(Arr([]));
  }

  lemma FallbackIsWritable(request: Request, reason: string)
    ensures Writable(Fallback(request, reason))
  {
    UnavailableIsWritable(request.query, OptionalText(request.conversationId), OptionalText(request.requestId), reason);
  }

  lemma RejectedIsWritable(request: Request, fields: seq<Field>)
    ensures Writable(Relay.Rejected(request, fields))
  {
    UnavailableIsWritable(request.query, SafeIdentity(Get(fields, "conversation_id"), request.conversationId),
                          SafeIdentity(Get(fields, "request_id"), request.requestId), INVALID_ENVELOPE);
  }

  lemma RelabelAnswerIsWritable(answer: seq<Field>, grade: Grade)
    requires Writable(Obj(answer)) && Writable(grade.gap)
    ensures Writable(Obj(RelabelAnswer(answer, grade)))
  {
    hide Writable;
    TextIsWritable(grade.mode);
    TextIsWritable(grade.reason);
    var f1 := Put(answer, "mode", Str(grade.mode));
    PutIsWritable(answer, "mode", Str(grade.mode));
    PutIsWritable(f1, "reason", Str(grade.reason));
    PutIsWritable(Put(f1, "reason", Str(grade.reason)), "gap", grade.gap);
  }

  lemma TextIsWritable(text: string)
    ensures Writable(Str(text)) && Writable(Null) && Writable(Arr([]))
  {
  }

  lemma RelabelIsWritable(fields: seq<Field>, answer: seq<Field>, grade: Grade, evidence: seq<Json>)
    requires Writable(Obj(fields)) && Writable(Obj(answer)) && Writable(grade.gap) && Writable(Arr(evidence))
    ensures Writable(Obj(Relabel(fields, answer, grade, evidence)))
  {
    hide Writable;
    TextIsWritable(grade.mode);
    TextIsWritable(grade.reason);
    RelabelAnswerIsWritable(answer, grade);
    var f0 := Remove(fields, "answer_origin");
    var f1 := Put(f0, "mode", Str(grade.mode));
    var f2 := Put(f1, "reason", Str(grade.reason));
    var f3 := Put(f2, "evidence", Arr(evidence));
    RemoveIsWritable(fields, "answer_origin");
    PutIsWritable(f0, "mode", Str(grade.mode));
    PutIsWritable(f1, "reason", Str(grade.reason));
    PutIsWritable(f2, "evidence", Arr(evidence));
    PutIsWritable(f3, "tool_trace", Arr([]));
    PutIsWritable(Put(f3, "tool_trace", Arr([])), "answer", Obj(RelabelAnswer(answer, grade)));
  }

  lemma ItemIsWritable(id: string, title: string, date: string)
    ensures Writable(EvidenceItem(id, title, date))
  {
    assert |"id"| == 2 && |"rel_path"| == 8 && |"title"| == 5 && |"date"| == 4;
    hide RelPath;
  }

  lemma EvidenceIsWritable(ids: seq<string>, read: Reader)
    ensures Writable(Arr(EvidenceOf(ids, read)))
  {
    CollectSome(ids, Verifier(read));
    var evidence := EvidenceOf(ids, read);
    forall k | 0 <= k < |evidence|
      ensures Writable(evidence[k])
    {
      assert evidence[k] in Collect(ids, Verifier(read));
      var id :| id in ids && Verifier(read)(id) == Some(evidence[k]);
      VerifiedIsWritable(id, read);
    }
  }

  lemma VerifiedIsWritable(id: string, read: Reader)
    requires Verified(id, read).Some?
    ensures Writable(Verified(id, read).value)
  {
    VerifiedShape(id, read);
    var title, date :| title != "" && date != "" && Verified(id, read) == Some(EvidenceItem(id, title, date));
    ItemIsWritable(id, title, date);
  }

  lemma VerifyIsWritable(fields: seq<Field>, links: string -> seq<string>, read: Reader)
    requires Writable(Obj(fields))
    ensures Writable(Obj(VerifyFields(fields, links, read)))
  {
    hide Writable, Relabel, Candidates, NativeEvidence.Rejected, EvidenceOf;
    if AnswerOf(fields).Some? {
      var answer := AnswerOf(fields).value;
      var hrefs := links(Get(answer, "summary").value.text);
      var evidence := EvidenceOf(Candidates(hrefs), read);
      var grade := GradeFor(evidence, NativeEvidence.Rejected(hrefs, read));
      GetIsWritable(fields, "answer");
      EvidenceIsWritable(Candidates(hrefs), read);
      GapIsWritable(evidence, NativeEvidence.Rejected(hrefs, read));
      RelabelIsWritable(fields, answer, grade, evidence);
    }
  }

  lemma GapIsWritable(evidence: seq<Json>, rejected: bool)
    ensures Writable(GradeFor(evidence, rejected).gap)
  {
  }

  lemma FinalDataIsWritable(request: Request, data: Json, host: Host)
    requires Writable(data)
    ensures Writable(FinalData(request, data, host))
  {
    hide Writable;
    FallbackIsWritable(request, INVALID_ENVELOPE);
    if data.Obj? {
      RejectedIsWritable(request, data.fields);
      VerifyIsWritable(data.fields, host.links, host.read);
    }
  }

  lemma ConclusionIsWritable(request: Request, upstream: seq<WireEvent>, ending: Ending, exception: string, host: Host)
    requires forall event <- upstream :: Writable(event.data)
    ensures Writable(Conclusion(request, upstream, ending, exception, host))
  {
    hide Writable;
    var k := Lead(upstream);
    if k < |upstream| {
      assert upstream[k] in upstream;
      FinalDataIsWritable(request, upstream[k].data, host);
      FallbackIsWritable(request, ErrorReason(upstream[k].data));
    } else {
      FallbackIsWritable(request, INVALID_ENVELOPE);
      FallbackIsWritable(request, STREAM_UNAVAILABLE);
      TextIsWritable(exception);
      PutIsWritable(Fallback(request, STREAM_UNAVAILABLE).fields, "error_type", Str(exception));
    }
  }

  /** If the reader returns writable values only, everything the relay emits can be written. */
  lemma RelayedIsWritable(request: Request, upstream: seq<WireEvent>, ending: Ending, exception: string, host: Host)
    requires forall event <- upstream :: Writable(event.data)
    ensures forall event <- Relayed(request, upstream, ending, exception, host) :: Writable(event.data)
  {
    ConclusionIsWritable(request, upstream, ending, exception, host);
    forall event | event in PassedUpTo(upstream, Lead(upstream))
      ensures Writable(event.data)
    {
      var k :| 0 <= k < Lead(upstream) && event == PassedOn(upstream[k]);
      assert upstream[k] in upstream;
    }
  }

  // ----- Which finals the browser accepts -----

  lemma UnavailableIsShown(query: string, conversationId: Json, requestId: Json, reason: string)
    requires IsTextOrNull(conversationId) && IsTextOrNull(requestId)
    ensures Shown("final", Obj(Unavailable(query, conversationId, requestId, reason)))
  {
    var f := Unavailable(query, conversationId, requestId, reason);
    UnavailableIsValid(query, conversationId, requestId, reason);
    EnvelopeTail(query, conversationId, requestId, reason);
    AnswerTail(reason);
    hide Shown, ValidFields, Unavailable, UnavailableAnswer, WithoutNulls, PlainExtras, Get;
    ValidAnswerShownIff(f);
  }

  lemma FallbackIsShown(request: Request, reason: string)
    ensures Shown("final", Fallback(request, reason))
  {
    hide Shown;
    UnavailableIsShown(request.query, OptionalText(request.conversationId), OptionalText(request.requestId), reason);
  }

  lemma RejectedIsShown(request: Request, fields: seq<Field>)
    ensures Shown("final", Relay.Rejected(request, fields))
  {
    hide Shown;
    UnavailableIsShown(request.query, SafeIdentity(Get(fields, "conversation_id"), request.conversationId),
                       SafeIdentity(Get(fields, "request_id"), request.requestId), INVALID_ENVELOPE);
  }

  lemma ErrorTypeIsShown(request: Request, exception: string)
    ensures Shown("final", Obj(Put(Fallback(request, STREAM_UNAVAILABLE).fields, "error_type", Str(exception))))
  {
    var fields := Fallback(request, STREAM_UNAVAILABLE).fields;
    FallbackIsShown(request, STREAM_UNAVAILABLE);
    FallbackIsValid(request, STREAM_UNAVAILABLE);
    ErrorTypeIsHarmless(fields, exception);
    NotErrorType();
    GetAfterPut(fields, "error_type", Str(exception), "answer");
    GetAfterPut(fields, "error_type", Str(exception), "evidence");
    hide Shown, ValidFields, Fallback, WithoutNulls, PlainExtras, Get;
    ValidAnswerShownIff(fields);
    ValidAnswerShownIff(Put(fields, "error_type", Str(exception)));
  }

  /** The evidence the relay itself puts in has no extras at all. */
  lemma ItemIsPlain(id: string, title: string, date: string)
    ensures PlainExtras(EvidenceItem(id, title, date))
  {
    assert |"id"| == 2 && |"rel_path"| == 8 && |"title"| == 5 && |"date"| == 4 && |"snippet"| == 7;
    assert |"excerpt"| == 7 && |"metadata"| == 8 && "metadata"[0] == 'm' && "rel_path"[0] == 'r';
    ItemFields(id, title, date, "snippet");
    ItemFields(id, title, date, "excerpt");
    ItemFields(id, title, date, "metadata");
  }

  lemma EvidenceIsPlain(ids: seq<string>, read: Reader)
    ensures forall item <- EvidenceOf(ids, read) :: PlainExtras(item)
  {
    CollectSome(ids, Verifier(read));
    forall item | item in EvidenceOf(ids, read)
      ensures PlainExtras(item)
    {
      var id :| id in ids && Verifier(read)(id) == Some(item);
      VerifiedShape(id, read);
      var title, date :| title != "" && date != "" && Verified(id, read) == Some(EvidenceItem(id, title, date));
      ItemIsPlain(id, title, date);
    }
  }

  lemma RelabelKeepsInsights(fields: seq<Field>, answer: seq<Field>, grade: Grade, evidence: seq<Json>)
    requires Get(fields, "answer") == Some(Obj(answer))
    ensures InsightsWithoutNulls(Relabel(fields, answer, grade, evidence)) <==> InsightsWithoutNulls(fields)
  {
    RelabelGet(fields, answer, grade, evidence, "answer");
    assert |"insights"| == 8 && |"gap"| == 3 && |"reason"| == 6 && |"mode"| == 4;
    RelabelAnswerGet(answer, grade, "insights");
    hide Relabel, RelabelAnswer, WithoutNulls, Get;
  }

  lemma RelabelReplacesEvidence(fields: seq<Field>, answer: seq<Field>, grade: Grade, evidence: seq<Json>)
    requires forall item <- evidence :: PlainExtras(item)
    ensures EvidenceWithPlainExtras(Relabel(fields, answer, grade, evidence))
  {
    RelabelGet(fields, answer, grade, evidence, "evidence");
    assert |"evidence"| == 8 && |"answer"| == 6 && |"tool_trace"| == 10;
    hide Relabel, RelabelAnswer, PlainExtras, Get;
  }

  lemma ValidHasAnswer(fields: seq<Field>)
    requires ValidFields(fields)
    ensures AnswerOf(fields).Some? && Get(fields, "answer") == Some(Obj(AnswerOf(fields).value))
  {
  }

  /** Relabelling replaces the evidence and keeps the insights. */
  lemma RelabelledIsShownIff(fields: seq<Field>, links: string -> seq<string>, read: Reader)
    requires ValidFields(fields)
    ensures Shown("final", Obj(VerifyFields(fields, links, read))) <==> InsightsWithoutNulls(fields)
  {
    ValidHasAnswer(fields);
    hide Shown, ValidFields, InsightsWithoutNulls, EvidenceWithPlainExtras, Relabel, PlainExtras, Get, EvidenceOf,
         Candidates, NativeEvidence.Rejected, GradeFor;
    var answer := AnswerOf(fields).value;
    var hrefs := links(Get(answer, "summary").value.text);
    var evidence := EvidenceOf(Candidates(hrefs), read);
    var grade := GradeFor(evidence, NativeEvidence.Rejected(hrefs, read));
    VerifiedStaysValid(fields, links, read);
    RelabelKeepsInsights(fields, answer, grade, evidence);
    EvidenceIsPlain(Candidates(hrefs), read);
    RelabelReplacesEvidence(fields, answer, grade, evidence);
    ValidAnswerShownIff(Relabel(fields, answer, grade, evidence));
  }

  /** The exact condition, on the upstream `final` itself: an answer the backend holds valid must
      have no nulls in its insights, and plain extras unless its evidence is replaced anyway. */
  predicate FinalReadable(data: Json) {
    data.Obj? && ValidFields(data.fields) ==>
      && InsightsWithoutNulls(data.fields)
      && (Get(data.fields, "answer_origin") == Some(Str(NATIVE)) || EvidenceWithPlainExtras(data.fields))
  }

  lemma FinalDataShownIff(request: Request, data: Json, host: Host)
    ensures Shown("final", FinalData(request, data, host)) <==> FinalReadable(data)
  {
    hide Shown, ValidFields, InsightsWithoutNulls, EvidenceWithPlainExtras, VerifyFields;
    FallbackIsShown(request, INVALID_ENVELOPE);
    if data.Obj? {
      RejectedIsShown(request, data.fields);
      if ValidFields(data.fields) {
        ValidAnswerShownIff(data.fields);
        RelabelledIsShownIff(data.fields, host.links, host.read);
        VerifiedStaysValid(data.fields, host.links, host.read);
      }
    }
  }

  /** The browser accepts the relayed final unless the first terminal upstream is a `final` that
      is not readable; whatever else happens upstream, the fallback is accepted. */
  lemma ConclusionShownIff(request: Request, upstream: seq<WireEvent>, ending: Ending, exception: string, host: Host)
    ensures Shown("final", Conclusion(request, upstream, ending, exception, host)) <==>
              var k := Lead(upstream);
              k < |upstream| && Kind(upstream[k]) == "final" ==> FinalReadable(upstream[k].data)
  {
    hide Shown, FinalReadable, FinalData, Fallback, ErrorReason, Put;
    var k := Lead(upstream);
    if k < |upstream| {
      FinalDataShownIff(request, upstream[k].data, host);
      FallbackIsShown(request, ErrorReason(upstream[k].data));
      assert "final"[0] == 'f' && "error"[0] == 'e';
    } else {
      FallbackIsShown(request, INVALID_ENVELOPE);
      ErrorTypeIsShown(request, exception);
    }
  }
}
