/** The event schema of the browser, and which of the backend's valid answers it accepts. */
module BrowserSchema {
  import opened Wrappers
  import opened JsonValues
  import opened QueryContract

  // ----- HostAgentStreamEventSchema -----

  predicate IsObject(j: Json) { j.Obj? }

  predicate EvidenceMetadata(j: Json) {
    j.Obj? && Allows(j.fields, "location", IsText) && Allows(j.fields, "topic", IsTextList)
  }

  predicate ShownEvidence(j: Json) {
    && j.Obj?
    && Requires(j.fields, "id", IsText) && Requires(j.fields, "rel_path", IsText)
    && Requires(j.fields, "title", IsText) && Requires(j.fields, "date", IsText)
    && Allows(j.fields, "snippet", IsText) && Allows(j.fields, "excerpt", IsText)
    && Allows(j.fields, "metadata", EvidenceMetadata)
  }

  predicate ShownEvidenceList(j: Json) { j.Arr? && forall item <- j.items :: ShownEvidence(item) }

  predicate ShownInsight(j: Json) {
    && j.Obj?
    && Requires(j.fields, "theme", IsText) && Allows(j.fields, "quote", IsText)
    && Allows(j.fields, "date", IsText) && Allows(j.fields, "interpretation", IsText)
    && Allows(j.fields, "evidence_refs", IsTextList)
  }

  predicate ShownInsightList(j: Json) { j.Arr? && forall item <- j.items :: ShownInsight(item) }

  predicate ShownAnswer(j: Json) {
    && j.Obj?
    && Requires(j.fields, "mode", IsNonEmptyText) && Allows(j.fields, "reason", IsTextOrNull)
    && Allows(j.fields, "summary", IsText) && Allows(j.fields, "insights", ShownInsightList)
    && Allows(j.fields, "gap", IsTextOrNull) && Allows(j.fields, "suggestions", IsTextList)
  }

  /** The relations that `superRefine` adds. */
  predicate Refined(fields: seq<Field>)
    requires Allows(fields, "answer", ShownAnswer) && Allows(fields, "evidence", ShownEvidenceList)
  {
    && (Get(fields, "answer").Some? ==> Get(Get(fields, "answer").value.fields, "mode") == Get(fields, "mode"))
    && (Get(fields, "mode") == Some(Str("UNGROUNDED")) && Get(fields, "evidence").Some? ==>
          Get(fields, "evidence").value.items == [])
  }

  predicate ShownResponse(j: Json) {
    && j.Obj?
    && Allows(j.fields, "schema_version", IsText)
    && Allows(j.fields, "request_id", IsTextOrNull) && Allows(j.fields, "conversation_id", IsTextOrNull)
    && Requires(j.fields, "source", IsText)
    && Requires(j.fields, "mode", IsNonEmptyText) && Allows(j.fields, "reason", IsTextOrNull)
    && Requires(j.fields, "query", IsText)
    && Allows(j.fields, "answer", ShownAnswer)
    && Allows(j.fields, "evidence", ShownEvidenceList)
    && Allows(j.fields, "tool_trace", IsObjectList)
    && Refined(j.fields)
  }

  predicate ShownStatus(j: Json) {
    j.Obj? && Allows(j.fields, "phase", IsText) && Allows(j.fields, "message", IsText)
  }

  /** A bare text, or an object with one text and no other key. */
  predicate ShownDelta(j: Json) {
    j.Str? || (j.Obj? && Requires(j.fields, "text", IsText) && forall field <- j.fields :: field.key == "text")
  }

  /** The events that reach the reader's caller: one of the schema's kinds with data of its shape.
      An `error` never does: it throws, whether or not the schema accepts it. */
  predicate Shown(kind: string, data: Json) {
    if kind == "status" then ShownStatus(data)
    else if kind == "evidence" then ShownEvidenceList(data)
    else if kind == "delta" then ShownDelta(data)
    else if kind == "tool_call" || kind == "tool_result" then IsObject(data)
    else kind == "final" && ShownResponse(data)
  }

  // ----- What JSON.parse makes of a value -----

  function SeenValue(value: Option<Json>, seen: Json -> Json): Option<Json> {
    match value
    case None => None
    case Some(j) => Some(seen(j))
  }

  /** A number may lose digits and an object may reorder its keys; nothing else changes. */
  ghost predicate SeenAs(j: Json, v: Json, seen: Json -> Json) {
    match j
    case Null => v == j
    case Bool(_) => v == j
    case Int(_) => v.Int? || v.Dec?
    case Dec(_) => v.Int? || v.Dec?
    case Str(_) => v == j
    case Arr(items) => v.Arr? && |v.items| == |items| && forall k | 0 <= k < |items| :: v.items[k] == seen(items[k])
    case Obj(fields) => v.Obj? && forall key :: Get(v.fields, key) == SeenValue(Get(fields, key), seen)
  }

  ghost predicate Faithful(seen: Json -> Json) {
    forall j: Json :: SeenAs(j, seen(j), seen)
  }

  /** The predicate does not notice the difference. */
  ghost predicate Stable(ok: Json -> bool, seen: Json -> Json) {
    forall j: Json :: ok(seen(j)) <==> ok(j)
  }

  lemma TextsAreStable(seen: Json -> Json)
    requires Faithful(seen)
    ensures Stable(IsText, seen) && Stable(IsNonEmptyText, seen) && Stable(IsTextOrNull, seen) && Stable(IsObject, seen)
  {
    forall j: Json
      ensures IsText(seen(j)) <==> IsText(j)
      ensures IsNonEmptyText(seen(j)) <==> IsNonEmptyText(j)
      ensures IsTextOrNull(seen(j)) <==> IsTextOrNull(j)
      ensures IsObject(seen(j)) <==> IsObject(j)
    {
      assert SeenAs(j, seen(j), seen);
    }
  }

  lemma FieldsAreStable(fields: seq<Field>, seen: Json -> Json, key: string, ok: Json -> bool)
    requires Faithful(seen) && Stable(ok, seen)
    ensures seen(Obj(fields)).Obj?
    ensures Allows(seen(Obj(fields)).fields, key, ok) <==> Allows(fields, key, ok)
    ensures Requires(seen(Obj(fields)).fields, key, ok) <==> Requires(fields, key, ok)
  {
    assert SeenAs(Obj(fields), seen(Obj(fields)), seen);
    assert Get(seen(Obj(fields)).fields, key) == SeenValue(Get(fields, key), seen);
  }

  lemma ObjectsStayObjects(j: Json, seen: Json -> Json)
    requires Faithful(seen)
    ensures seen(j).Obj? <==> j.Obj?
  {
    assert SeenAs(j, seen(j), seen);
  }

  lemma ListsAreStable(seen: Json -> Json, item: Json -> bool, j: Json)
    requires Faithful(seen) && Stable(item, seen)
    ensures seen(j).Arr? <==> j.Arr?
    ensures j.Arr? ==> ((forall i <- seen(j).items :: item(i)) <==> (forall i <- j.items :: item(i)))
    ensures j.Arr? ==> (seen(j).items == [] <==> j.items == [])
  {
    assert SeenAs(j, seen(j), seen);
    if j.Arr? {
      var v := seen(j).items;
      if forall i <- v :: item(i) {
        forall i | i in j.items ensures item(i) {
          var k :| 0 <= k < |j.items| && j.items[k] == i;
          assert v[k] in v && item(seen(i));
        }
      }
      if forall i <- j.items :: item(i) {
        forall i | i in v ensures item(i) {
          var k :| 0 <= k < |v| && v[k] == i;
          assert j.items[k] in j.items && item(seen(j.items[k]));
        }
      }
    }
  }

  lemma TextListsAreStable(seen: Json -> Json)
    requires Faithful(seen)
    ensures Stable(IsTextList, seen) && Stable(IsObjectList, seen)
  {
    TextsAreStable(seen);
    forall j: Json
      ensures IsTextList(seen(j)) <==> IsTextList(j)
      ensures IsObjectList(seen(j)) <==> IsObjectList(j)
    {
      ListsAreStable(seen, IsText, j);
      ListsAreStable(seen, IsObject, j);
      ListMeaning(j);
      ListMeaning(seen(j));
    }
  }

  lemma ListMeaning(j: Json)
    ensures IsTextList(j) <==> j.Arr? && forall i <- j.items :: IsText(i)
    ensures IsObjectList(j) <==> j.Arr? && forall i <- j.items :: IsObject(i)
  {
  }

  lemma MetadataIsStable(seen: Json -> Json)
    requires Faithful(seen)
    ensures Stable(EvidenceMetadata, seen)
  {
    TextsAreStable(seen);
    TextListsAreStable(seen);
    hide Requires, Allows, Stable, Faithful, IsText, IsTextList;
    forall j: Json
      ensures EvidenceMetadata(seen(j)) <==> EvidenceMetadata(j)
    {
      ObjectsStayObjects(j, seen);
      if j.Obj? {
        FieldsAreStable(j.fields, seen, "location", IsText);
        FieldsAreStable(j.fields, seen, "topic", IsTextList);
      }
    }
    StableIf(EvidenceMetadata, seen);
  }

  lemma StableIf(ok: Json -> bool, seen: Json -> Json)
    requires forall j: Json :: ok(seen(j)) <==> ok(j)
    ensures Stable(ok, seen)
  {
  }

  lemma EvidenceIsStable(seen: Json -> Json)
    requires Faithful(seen)
    ensures Stable(ShownEvidence, seen)
  {
    TextsAreStable(seen);
    MetadataIsStable(seen);
    hide Requires, Allows, Stable, Faithful, IsText, EvidenceMetadata;
    forall j: Json
      ensures ShownEvidence(seen(j)) <==> ShownEvidence(j)
    {
      ObjectsStayObjects(j, seen);
      if j.Obj? {
        FieldsAreStable(j.fields, seen, "id", IsText);
        FieldsAreStable(j.fields, seen, "rel_path", IsText);
        FieldsAreStable(j.fields, seen, "title", IsText);
        FieldsAreStable(j.fields, seen, "date", IsText);
        FieldsAreStable(j.fields, seen, "snippet", IsText);
        FieldsAreStable(j.fields, seen, "excerpt", IsText);
        FieldsAreStable(j.fields, seen, "metadata", EvidenceMetadata);
      }
    }
    StableIf(ShownEvidence, seen);
  }

  lemma InsightIsStable(seen: Json -> Json)
    requires Faithful(seen)
    ensures Stable(ShownInsight, seen)
  {
    TextsAreStable(seen);
    TextListsAreStable(seen);
    hide Requires, Allows, Stable, Faithful, IsText, IsTextList;
    forall j: Json
      ensures ShownInsight(seen(j)) <==> ShownInsight(j)
    {
      ObjectsStayObjects(j, seen);
      if j.Obj? {
        FieldsAreStable(j.fields, seen, "theme", IsText);
        FieldsAreStable(j.fields, seen, "quote", IsText);
        FieldsAreStable(j.fields, seen, "date", IsText);
        FieldsAreStable(j.fields, seen, "interpretation", IsText);
        FieldsAreStable(j.fields, seen, "evidence_refs", IsTextList);
      }
    }
    StableIf(ShownInsight, seen);
  }

  lemma ShownListsAreStable(seen: Json -> Json)
    requires Faithful(seen)
    ensures Stable(ShownEvidenceList, seen) && Stable(ShownInsightList, seen)
  {
    EvidenceIsStable(seen);
    InsightIsStable(seen);
    hide ShownEvidence, ShownInsight;
    forall j: Json
      ensures ShownEvidenceList(seen(j)) <==> ShownEvidenceList(j)
      ensures ShownInsightList(seen(j)) <==> ShownInsightList(j)
    {
      ListsAreStable(seen, ShownEvidence, j);
      ListsAreStable(seen, ShownInsight, j);
    }
  }

  lemma AnswerIsStable(seen: Json -> Json)
    requires Faithful(seen)
    ensures Stable(ShownAnswer, seen)
  {
    TextsAreStable(seen);
    TextListsAreStable(seen);
    ShownListsAreStable(seen);
    hide Requires, Allows, Stable, Faithful, IsText, IsTextList, IsNonEmptyText, IsTextOrNull, ShownInsightList;
    forall j: Json
      ensures ShownAnswer(seen(j)) <==> ShownAnswer(j)
    {
      ObjectsStayObjects(j, seen);
      if j.Obj? {
        FieldsAreStable(j.fields, seen, "mode", IsNonEmptyText);
        FieldsAreStable(j.fields, seen, "reason", IsTextOrNull);
        FieldsAreStable(j.fields, seen, "summary", IsText);
        FieldsAreStable(j.fields, seen, "insights", ShownInsightList);
        FieldsAreStable(j.fields, seen, "gap", IsTextOrNull);
        FieldsAreStable(j.fields, seen, "suggestions", IsTextList);
      }
    }
    StableIf(ShownAnswer, seen);
  }

  lemma ShapesAreStable(fields: seq<Field>, seen: Json -> Json)
    requires Faithful(seen)
    ensures seen(Obj(fields)).Obj?
    ensures var f := seen(Obj(fields)).fields;
            && (Allows(f, "schema_version", IsText) <==> Allows(fields, "schema_version", IsText))
            && (Allows(f, "request_id", IsTextOrNull) <==> Allows(fields, "request_id", IsTextOrNull))
            && (Allows(f, "conversation_id", IsTextOrNull) <==> Allows(fields, "conversation_id", IsTextOrNull))
            && (Requires(f, "source", IsText) <==> Requires(fields, "source", IsText))
            && (Requires(f, "mode", IsNonEmptyText) <==> Requires(fields, "mode", IsNonEmptyText))
            && (Allows(f, "reason", IsTextOrNull) <==> Allows(fields, "reason", IsTextOrNull))
            && (Requires(f, "query", IsText) <==> Requires(fields, "query", IsText))
            && (Allows(f, "answer", ShownAnswer) <==> Allows(fields, "answer", ShownAnswer))
            && (Allows(f, "evidence", ShownEvidenceList) <==> Allows(fields, "evidence", ShownEvidenceList))
            && (Allows(f, "tool_trace", IsObjectList) <==> Allows(fields, "tool_trace", IsObjectList))
  {
    TextsAreStable(seen);
    TextListsAreStable(seen);
    ShownListsAreStable(seen);
    AnswerIsStable(seen);
    hide Requires, Allows, Stable, Faithful, IsText, IsObjectList, IsNonEmptyText, IsTextOrNull, ShownEvidenceList, ShownAnswer;
    FieldsAreStable(fields, seen, "schema_version", IsText);
    FieldsAreStable(fields, seen, "request_id", IsTextOrNull);
    FieldsAreStable(fields, seen, "conversation_id", IsTextOrNull);
    FieldsAreStable(fields, seen, "source", IsText);
    FieldsAreStable(fields, seen, "mode", IsNonEmptyText);
    FieldsAreStable(fields, seen, "reason", IsTextOrNull);
    FieldsAreStable(fields, seen, "query", IsText);
    FieldsAreStable(fields, seen, "answer", ShownAnswer);
    FieldsAreStable(fields, seen, "evidence", ShownEvidenceList);
    FieldsAreStable(fields, seen, "tool_trace", IsObjectList);
  }

  /** A text under a key is seen as it is. */
  lemma TextIsSeen(fields: seq<Field>, seen: Json -> Json, key: string)
    requires Faithful(seen) && Requires(fields, key, IsText)
    ensures seen(Obj(fields)).Obj? && Get(seen(Obj(fields)).fields, key) == Get(fields, key)
  {
    assert SeenAs(Obj(fields), seen(Obj(fields)), seen);
    assert Get(seen(Obj(fields)).fields, key) == SeenValue(Get(fields, key), seen);
    assert SeenAs(Get(fields, key).value, seen(Get(fields, key).value), seen);
  }

  lemma RefinedIsStable(fields: seq<Field>, seen: Json -> Json)
    requires Faithful(seen) && Requires(fields, "mode", IsNonEmptyText)
    requires Allows(fields, "answer", ShownAnswer) && Allows(fields, "evidence", ShownEvidenceList)
    requires seen(Obj(fields)).Obj?
    requires var f := seen(Obj(fields)).fields; Allows(f, "answer", ShownAnswer) && Allows(f, "evidence", ShownEvidenceList)
    ensures Refined(seen(Obj(fields)).fields) <==> Refined(fields)
  {
    var f := seen(Obj(fields)).fields;
    TextIsSeen(fields, seen, "mode");
    assert SeenAs(Obj(fields), seen(Obj(fields)), seen);
    assert Get(f, "answer") == SeenValue(Get(fields, "answer"), seen);
    assert Get(f, "evidence") == SeenValue(Get(fields, "evidence"), seen);
    if Get(fields, "answer").Some? {
      TextIsSeen(Get(fields, "answer").value.fields, seen, "mode");
    }
    if Get(fields, "evidence").Some? {
      TextsAreStable(seen);
      ListsAreStable(seen, IsText, Get(fields, "evidence").value);
    }
  }

  lemma ResponseIsStable(j: Json, seen: Json -> Json)
    requires Faithful(seen)
    ensures ShownResponse(seen(j)) <==> ShownResponse(j)
  {
    ObjectsStayObjects(j, seen);
    if j.Obj? {
      ShapesAreStable(j.fields, seen);
      hide Refined, Requires, Allows, Faithful;
      if Requires(j.fields, "mode", IsNonEmptyText) && Allows(j.fields, "answer", ShownAnswer)
         && Allows(j.fields, "evidence", ShownEvidenceList) {
        RefinedIsStable(j.fields, seen);
      }
    }
  }

  lemma DeltaIsStable(j: Json, seen: Json -> Json)
    requires Faithful(seen)
    ensures ShownDelta(seen(j)) <==> ShownDelta(j)
  {
    TextsAreStable(seen);
    ObjectsStayObjects(j, seen);
    if j.Obj? {
      FieldsAreStable(j.fields, seen, "text", IsText);
      KeysAreStable(j.fields, seen);
    }
    assert IsText(seen(j)) <==> IsText(j);
  }

  lemma KeysAreStable(fields: seq<Field>, seen: Json -> Json)
    requires Faithful(seen)
    ensures seen(Obj(fields)).Obj?
    ensures (forall field <- seen(Obj(fields)).fields :: field.key == "text") <==> (forall field <- fields :: field.key == "text")
  {
    assert SeenAs(Obj(fields), seen(Obj(fields)), seen);
    var f := seen(Obj(fields)).fields;
    forall key: string
      ensures Has(f, key) <==> Has(fields, key)
    {
      assert Get(f, key) == SeenValue(Get(fields, key), seen);
    }
    assert forall field <- f :: Has(f, field.key);
    assert forall field <- fields :: Has(fields, field.key);
  }

  /** The schema judges what the browser sees as it would judge what the backend sent. */
  lemma ShownIsStable(kind: string, j: Json, seen: Json -> Json)
    requires Faithful(seen)
    ensures Shown(kind, seen(j)) <==> Shown(kind, j)
  {
    TextsAreStable(seen);
    ShownListsAreStable(seen);
    ResponseIsStable(j, seen);
    DeltaIsStable(j, seen);
    ObjectsStayObjects(j, seen);
    if j.Obj? {
      FieldsAreStable(j.fields, seen, "phase", IsText);
      FieldsAreStable(j.fields, seen, "message", IsText);
    }
    hide Faithful, ShownEvidenceList, ShownDelta, ShownResponse, Allows;
  }

  // ----- Which valid answers it accepts -----

  predicate WithoutNulls(insight: Json) {
    insight.Obj? ==>
      && Get(insight.fields, "quote") != Some(Null) && Get(insight.fields, "date") != Some(Null)
      && Get(insight.fields, "interpretation") != Some(Null)
  }

  /** No insight of the answer says `null` for its quote, date or interpretation. */
  predicate InsightsWithoutNulls(fields: seq<Field>) {
    match Get(fields, "answer")
    case Some(Obj(answer)) =>
      (match Get(answer, "insights")
       case Some(Arr(items)) => forall item <- items :: WithoutNulls(item)
       case _ => true)
    case _ => true
  }

  predicate PlainExtras(item: Json) {
    item.Obj? ==>
      && Allows(item.fields, "snippet", IsText) && Allows(item.fields, "excerpt", IsText)
      && Allows(item.fields, "metadata", EvidenceMetadata)
  }

  /** Snippet, excerpt and metadata, which only the browser's schema knows, have its shapes. */
  predicate EvidenceWithPlainExtras(fields: seq<Field>) {
    match Get(fields, "evidence")
    case Some(Arr(items)) => forall item <- items :: PlainExtras(item)
    case _ => true
  }

  lemma InsightShownIff(j: Json)
    requires IsInsight(j)
    ensures ShownInsight(j) <==> WithoutNulls(j)
  {
  }

  lemma AnswerShownIff(j: Json)
    requires IsAnswer(j)
    ensures ShownAnswer(j) <==> Allows(j.fields, "insights", ShownInsightList)
    ensures Allows(j.fields, "insights", ShownInsightList) <==>
              match Get(j.fields, "insights")
              case Some(Arr(items)) => forall item <- items :: WithoutNulls(item)
              case _ => true
  {
    hide ShownInsight, WithoutNulls, IsInsight;
    var insights := Get(j.fields, "insights");
    if insights.Some? {
      forall item | item in insights.value.items
        ensures ShownInsight(item) <==> WithoutNulls(item)
      {
        InsightShownIff(item);
      }
    }
  }

  lemma EvidenceShownIff(j: Json)
    requires IsEvidenceList(j)
    ensures ShownEvidenceList(j) <==> forall item <- j.items :: PlainExtras(item)
  {
    forall item | item in j.items
      ensures ShownEvidence(item) <==> PlainExtras(item)
    {
      hide EvidenceMetadata;
      assert IsEvidenceItem(item);
    }
  }

  /** Of the envelopes the backend holds valid, the browser accepts exactly those whose insights
      have no nulls and whose evidence has plain extras. */
  lemma ValidAnswerShownIff(fields: seq<Field>)
    requires ValidFields(fields)
    ensures Shown("final", Obj(fields)) <==> InsightsWithoutNulls(fields) && EvidenceWithPlainExtras(fields)
  {
    ValidShapes(fields);
    FinalShownIff(Obj(fields));
    var answer, evidence := Get(fields, "answer").value, Get(fields, "evidence").value;
    AnswerIsObject(answer);
    AnswerShownIff(answer);
    EvidenceShownIff(evidence);
    hide Shown, ShownAnswer, ShownEvidenceList, ShownResponse, WithoutNulls, PlainExtras, IsAnswer, IsEvidenceList,
         ValidFields, Get, ShownInsightList, InsightsWithoutNulls, EvidenceWithPlainExtras;
    NullsAndExtras(fields, answer.fields, evidence.items);
  }

  lemma NullsAndExtras(fields: seq<Field>, answer: seq<Field>, evidence: seq<Json>)
    requires Get(fields, "answer") == Some(Obj(answer)) && Get(fields, "evidence") == Some(Arr(evidence))
    ensures InsightsWithoutNulls(fields) <==>
              match Get(answer, "insights")
              case Some(Arr(items)) => forall item <- items :: WithoutNulls(item)
              case _ => true
    ensures EvidenceWithPlainExtras(fields) <==> forall item <- evidence :: PlainExtras(item)
  {
    hide Get, WithoutNulls, PlainExtras;
  }

  lemma FinalShownIff(data: Json)
    ensures Shown("final", data) <==> ShownResponse(data)
  {
    KindsApart();
  }

  lemma AnswerIsObject(answer: Json)
    requires IsAnswer(answer)
    ensures answer.Obj?
  {
  }

  lemma ValidShapes(fields: seq<Field>)
    requires ValidFields(fields)
    ensures Requires(fields, "answer", IsAnswer) && Requires(fields, "evidence", IsEvidenceList)
    ensures ShownResponse(Obj(fields)) <==>
              ShownAnswer(Get(fields, "answer").value) && ShownEvidenceList(Get(fields, "evidence").value)
  {
    hide ShownAnswer, ShownEvidenceList, IsAnswer, IsEvidenceList;
  }

  lemma KindsApart()
    ensures "final" != "status" && "final" != "evidence" && "final" != "delta" && "final" != "tool_call"
    ensures "final" != "tool_result" && "final" != "error" && "final" != "message"
    ensures "ping" != "status" && "ping" != "evidence" && "ping" != "delta" && "ping" != "tool_call"
    ensures "ping" != "tool_result" && "ping" != "final" && "ping" != "error"
  {
    assert "final"[0] == 'f' && "delta"[0] == 'd' && "error"[0] == 'e';
    assert |"final"| == 5 && |"status"| == 6 && |"evidence"| == 8 && |"delta"| == 5 && |"tool_call"| == 9;
    assert |"tool_result"| == 11 && |"message"| == 7 && |"ping"| == 4;
  }
}
