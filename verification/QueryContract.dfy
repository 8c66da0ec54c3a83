/** The v1 query response envelope: what `validate_query_response` accepts. */
module QueryContract {
  import opened Wrappers
  import opened JsonValues

  const QUERY_SCHEMA := "gui.host_agent.query_response.v1"

  predicate IsText(j: Json) { j.Str? }

  predicate IsNonEmptyText(j: Json) { j.Str? && j.text != "" }

  predicate IsTextOrNull(j: Json) { j.Str? || j.Null? }

  predicate IsTextList(j: Json) { j.Arr? && forall item <- j.items :: item.Str? }

  predicate IsObjectList(j: Json) { j.Arr? && forall item <- j.items :: item.Obj? }

  /** A required key with a value of the right shape. */
  predicate Requires(fields: seq<Field>, key: string, ok: Json -> bool) {
    Get(fields, key).Some? && ok(Get(fields, key).value)
  }

  /** A key with a default: absent, or of the right shape. */
  predicate Allows(fields: seq<Field>, key: string, ok: Json -> bool) {
    Get(fields, key).None? || ok(Get(fields, key).value)
  }

  predicate IsMode(j: Json) {
    j.Str? && (j.text == "GROUNDED" || j.text == "UNGROUNDED" || j.text == "PARTIAL" || j.text == "SCAFFOLD"
               || j.text == "UNAVAILABLE")
  }

  predicate IsEvidenceItem(j: Json) {
    && j.Obj?
    && Requires(j.fields, "id", IsNonEmptyText) && Requires(j.fields, "rel_path", IsNonEmptyText)
    && Requires(j.fields, "title", IsNonEmptyText) && Requires(j.fields, "date", IsNonEmptyText)
  }

  predicate IsEvidenceList(j: Json) { j.Arr? && forall item <- j.items :: IsEvidenceItem(item) }

  predicate IsInsight(j: Json) {
    && j.Obj?
    && Requires(j.fields, "theme", IsNonEmptyText) && Allows(j.fields, "quote", IsTextOrNull)
    && Allows(j.fields, "date", IsTextOrNull) && Allows(j.fields, "interpretation", IsTextOrNull)
    && Allows(j.fields, "evidence_refs", IsTextList)
  }

  predicate IsInsightList(j: Json) { j.Arr? && forall item <- j.items :: IsInsight(item) }

  predicate IsAnswer(j: Json) {
    && j.Obj?
    && Requires(j.fields, "mode", IsMode) && Allows(j.fields, "reason", IsTextOrNull)
    && Requires(j.fields, "summary", IsText) && Allows(j.fields, "insights", IsInsightList)
    && Allows(j.fields, "gap", IsTextOrNull) && Allows(j.fields, "suggestions", IsTextList)
  }

  /** The relation the envelope's own validator adds to the field shapes. */
  predicate ModeFitsEvidence(fields: seq<Field>)
    requires Requires(fields, "answer", IsAnswer) && Requires(fields, "evidence", IsEvidenceList)
  {
    && Get(Get(fields, "answer").value.fields, "mode") == Get(fields, "mode")
    && (Get(fields, "mode") == Some(Str("GROUNDED")) ==> Get(fields, "evidence").value.items != [])
    && (Get(fields, "mode") == Some(Str("UNGROUNDED")) ==> Get(fields, "evidence").value.items == [])
  }

  predicate IsSchema(j: Json) { j == Str(QUERY_SCHEMA) }

  predicate IsHostAgent(j: Json) { j == Str("host-agent") }

  predicate ValidFields(fields: seq<Field>) {
    && Requires(fields, "schema_version", IsSchema)
    && Allows(fields, "request_id", IsTextOrNull) && Allows(fields, "conversation_id", IsTextOrNull)
    && Requires(fields, "source", IsHostAgent)
    && Requires(fields, "mode", IsMode) && Allows(fields, "reason", IsTextOrNull)
    && Requires(fields, "query", IsText)
    && Requires(fields, "answer", IsAnswer)
    && Requires(fields, "evidence", IsEvidenceList)
    && Allows(fields, "tool_trace", IsObjectList)
    && ModeFitsEvidence(fields)
  }

  predicate ValidQueryResponse(j: Json) {
    j.Obj? && ValidFields(j.fields)
  }
}
