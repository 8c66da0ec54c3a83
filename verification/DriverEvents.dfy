/** What the driver makes of one wire frame, read off the frame's data key by key. */
module DriverEvents {
  import opened Wrappers
  import opened JsonValues
  import opened NeutralContract
  import opened QueryContract
  import opened HttpSseDriver

  function Wire(kind: string, data: seq<Field>): WireFrame {
    Pair(Str(kind), Obj(data))
  }

  /** The frame's own id and sequence number, or the call's id and the frame's position. */
  predicate Identified(inv: Invocation, k: nat, data: seq<Field>, id: string, sequence: int) {
    && id != ""
    && (Get(data, "request_id") == Some(Str(id)) || (Get(data, "request_id") == None && id == inv.requestId))
    && sequence >= 0
    && (Get(data, "sequence") == Some(Int(sequence)) || (Get(data, "sequence") == None && sequence == k))
  }

  /** `prov:` and 1 to 123 letters, digits, dots, underscores, colons or hyphens. */
  predicate SafeReference(value: Option<Json>) {
    && value.Some? && value.value.Str?
    && var text := value.value.text;
       && 6 <= |text| <= 128
       && text[0] == 'p' && text[1] == 'r' && text[2] == 'o' && text[3] == 'v' && text[4] == ':'
       && forall k | 5 <= k < |text| ::
            'a' <= text[k] <= 'z' || 'A' <= text[k] <= 'Z' || '0' <= text[k] <= '9'
            || text[k] == '.' || text[k] == '_' || text[k] == ':' || text[k] == '-'
  }

  /** A safe reference of the frame is kept; otherwise the call's own, or a fixed one, is used. */
  predicate ProvenanceIs(inv: Invocation, data: seq<Field>, provenance: string) {
    if SafeReference(Get(data, "provenance_ref")) then Get(data, "provenance_ref") == Some(Str(provenance))
    else if inv.provenanceRef == None || inv.provenanceRef == Some("") then provenance == "http-sse:query"
    else inv.provenanceRef == Some(provenance)
  }

  lemma ProvenanceRule(inv: Invocation, data: seq<Field>, provenance: string)
    ensures ProvenanceIs(inv, data, provenance) <==>
              provenance == SafeProvenance(Get(data, "provenance_ref"), FallbackProvenance(inv))
    ensures ProvenanceIs(inv, data, provenance) ==> provenance != ""
  {
    match Get(data, "provenance_ref")
    case Some(Str(text)) =>
      assert "prov:" <= text <==>
        |text| >= 5 && text[0] == 'p' && text[1] == 'r' && text[2] == 'o' && text[3] == 'v' && text[4] == ':';
    case _ =>
  }

  lemma IdentityRule(inv: Invocation, k: nat, data: seq<Field>, id: string, sequence: int)
    ensures Identified(inv, k, data, id, sequence) <==>
              FrameId(inv, data) == Some(id) && FrameSequence(k, data) == Some(sequence) && id != ""
    ensures Identified(inv, k, data, id, sequence) ==> sequence >= 0
  {
  }

  /** The result of a frame of this kind is what its data makes of it under its id and number. */
  lemma MapsByKind(inv: Invocation, sizes: Sizes, k: nat, kind: string, data: seq<Field>)
    ensures var mapped := MapQueryFrame(inv, sizes, k, Wire(kind, data));
            if FrameId(inv, data).None? || FrameSequence(k, data).None? then mapped.None?
            else mapped == MapKind(inv, sizes, kind, data, FrameId(inv, data).value, FrameSequence(k, data).value)
  {
  }

  /** A construction yields this very event, or raises. */
  lemma ConstructedIs(target: Event)
    ensures forall e: Event :: Constructed(e) == Some([Shaped(target)]) <==> e == target && ValidEvent(target)
  {
    forall e: Event
      ensures Constructed(e) == Some([Shaped(target)]) <==> e == target && ValidEvent(target)
    {
      assert [Shaped(e)][0] == Shaped(e) && [Shaped(target)][0] == Shaped(target);
    }
  }

  lemma Kinds()
    ensures "status" != "delta" && "evidence" != "delta" && "final" != "delta" && "error" != "delta"
    ensures "evidence" != "status" && "final" != "status" && "error" != "status"
    ensures "final" != "evidence" && "error" != "evidence" && "error" != "final"
  {
    assert |"status"| == 6 && |"evidence"| == 8 && |"final"| == 5 && |"error"| == 5 && |"delta"| == 5;
    assert "final"[0] == 'f' && "error"[0] == 'e' && "delta"[0] == 'd';
  }

  // ----- Status -----

  /** A status frame maps to exactly the event with its own phase and message, or raises. */
  lemma StatusFrameIff(inv: Invocation, sizes: Sizes, k: nat, data: seq<Field>, id: string, sequence: int,
                       phase: string, message: string)
    ensures MapQueryFrame(inv, sizes, k, Wire("status", data)) == Some([Shaped(StatusEvent(id, sequence, phase, message))])
            <==> && Identified(inv, k, data, id, sequence)
                 && Get(data, "phase") == Some(Str(phase)) && phase != ""
                 && Get(data, "message") == Some(Str(message)) && message != ""
  {
    Kinds();
    IdentityRule(inv, k, data, id, sequence);
    MapsByKind(inv, sizes, k, "status", data);
    ConstructedIs(StatusEvent(id, sequence, phase, message));
    hide MapQueryFrame, FrameId, FrameSequence, Identified, Get, Constructed;
  }

  lemma StatusFrameGives(inv: Invocation, sizes: Sizes, k: nat, data: seq<Field>)
    ensures match MapQueryFrame(inv, sizes, k, Wire("status", data))
            case None => true
            case Some(items) => |items| == 1 && items[0].Shaped? && items[0].event.StatusEvent?
  {
    Kinds();
    MapsByKind(inv, sizes, k, "status", data);
    hide MapQueryFrame, FrameId, FrameSequence, Get;
  }

  // ----- Evidence -----

  /** The object under `evidence`, or all data but the three keys of the frame itself. */
  predicate EvidenceIs(data: seq<Field>, evidence: Json) {
    match Get(data, "evidence")
    case Some(Obj(fields)) => evidence == Obj(fields)
    case Some(Null) => evidence == Obj(WithoutFrameKeys(data))
    case None => evidence == Obj(WithoutFrameKeys(data))
    case _ => false
  }

  function WithoutFrameKeys(data: seq<Field>): seq<Field> {
    Remove(Remove(Remove(data, "request_id"), "sequence"), "provenance_ref")
  }

  lemma {:induction false} OtherFieldsAreTheRest(data: seq<Field>)
    ensures OtherFields(data) == WithoutFrameKeys(data)
  {
    if data != [] {
      OtherFieldsAreTheRest(data[1..]);
      RemoveStep(data[0], data[1..], "request_id");
      assert data == [data[0]] + data[1..];
      var once := Remove(data[1..], "request_id");
      var twice := Remove(once, "sequence");
      RemoveStep(data[0], once, "sequence");
      RemoveStep(data[0], twice, "provenance_ref");
    }
  }

  lemma RemoveStep(first: Field, rest: seq<Field>, key: string)
    ensures Remove([first] + rest, key) == if first.key == key then Remove(rest, key) else [first] + Remove(rest, key)
  {
    assert ([first] + rest)[1..] == rest;
  }

  lemma EvidenceFrameIff(inv: Invocation, sizes: Sizes, k: nat, data: seq<Field>, id: string, sequence: int,
                         evidence: Json, provenance: string)
    ensures MapQueryFrame(inv, sizes, k, Wire("evidence", data))
              == Some([Shaped(EvidenceEvent(id, sequence, evidence, provenance))])
            <==> && Identified(inv, k, data, id, sequence)
                 && EvidenceIs(data, evidence) && ProvenanceIs(inv, data, provenance)
  {
    Kinds();
    IdentityRule(inv, k, data, id, sequence);
    MapsByKind(inv, sizes, k, "evidence", data);
    OtherFieldsAreTheRest(data);
    ConstructedIs(EvidenceEvent(id, sequence, evidence, provenance));
    ProvenanceRule(inv, data, provenance);
    ProvenanceRule(inv, data, SafeProvenance(Get(data, "provenance_ref"), FallbackProvenance(inv)));
    hide MapQueryFrame, FrameId, FrameSequence, Identified, ProvenanceIs, SafeProvenance, FallbackProvenance, OtherFields,
         WithoutFrameKeys, Get, Constructed;
  }

  lemma EvidenceFrameGives(inv: Invocation, sizes: Sizes, k: nat, data: seq<Field>)
    ensures match MapQueryFrame(inv, sizes, k, Wire("evidence", data))
            case None => true
            case Some(items) => |items| == 1 && items[0].Shaped? && items[0].event.EvidenceEvent?
  {
    Kinds();
    MapsByKind(inv, sizes, k, "evidence", data);
    hide MapQueryFrame, FrameId, FrameSequence, Get, SafeProvenance, FallbackProvenance, OtherFields;
  }

  // ----- Final -----

  /** The envelope is the data itself; it must be a valid query response that names the id. */
  lemma FinalFrameIff(inv: Invocation, sizes: Sizes, k: nat, data: seq<Field>, id: string, sequence: int,
                      envelope: Json, provenance: string)
    ensures MapQueryFrame(inv, sizes, k, Wire("final", data))
              == Some([Shaped(FinalEvent(id, sequence, envelope, provenance))])
            <==> && Identified(inv, k, data, id, sequence) && Get(data, "request_id") == Some(Str(id))
                 && ValidQueryResponse(Obj(data)) && envelope == Obj(data) && ProvenanceIs(inv, data, provenance)
  {
    Kinds();
    IdentityRule(inv, k, data, id, sequence);
    MapsByKind(inv, sizes, k, "final", data);
    ConstructedIs(FinalEvent(id, sequence, envelope, provenance));
    ProvenanceRule(inv, data, provenance);
    ProvenanceRule(inv, data, SafeProvenance(Get(data, "provenance_ref"), FallbackProvenance(inv)));
    hide MapQueryFrame, FrameId, FrameSequence, Identified, ProvenanceIs, SafeProvenance, FallbackProvenance,
         ValidQueryResponse, Get, Constructed;
  }

  lemma FinalFrameGives(inv: Invocation, sizes: Sizes, k: nat, data: seq<Field>)
    ensures match MapQueryFrame(inv, sizes, k, Wire("final", data))
            case None => true
            case Some(items) => |items| == 1 && items[0].Shaped? && items[0].event.FinalEvent?
  {
    Kinds();
    MapsByKind(inv, sizes, k, "final", data);
    hide MapQueryFrame, FrameId, FrameSequence, Get, SafeProvenance, FallbackProvenance, ValidQueryResponse;
  }

  // ----- Error -----

  predicate IsTextOf(value: Option<Json>, text: string) {
    value == Some(Str(text))
  }

  /** Only a known code passes; anything else reads as a binding error. */
  predicate CodeIs(data: seq<Field>, code: Code) {
    if IsTextOf(Get(data, "code"), "CANCELLED") then code == Cancelled
    else if IsTextOf(Get(data, "code"), "PROVIDER_FAILED") then code == Custom("PROVIDER_FAILED")
    else if IsTextOf(Get(data, "code"), "TOOL_FAILED") then code == Custom("TOOL_FAILED")
    else code == Custom("BINDING_ERROR")
  }

  predicate OutcomeIs(data: seq<Field>, outcome: ProviderOutcome) {
    && (outcome == Succeeded <==> IsTextOf(Get(data, "provider_outcome"), "succeeded"))
    && (outcome == ProviderFailed <==> IsTextOf(Get(data, "provider_outcome"), "failed"))
  }

  /** The detail repeats code and outcome as texts, the flag, and a known reason only. */
  predicate DetailIs(data: seq<Field>, e: Event)
    requires e.ErrorEvent?
  {
    && e.detail.Obj?
    && var detail := e.detail.fields;
       && Get(detail, "code") == Some(Str(match e.code { case Custom(text) => text case _ => "CANCELLED" }))
       && Get(detail, "provider_outcome")
          == Some(Str(match e.outcome { case Succeeded => "succeeded" case ProviderFailed => "failed" case Unknown => "unknown" }))
       && Get(detail, "effect_known") == Some(Bool(e.effectKnown))
       && Get(detail, "reason") ==
            (if IsTextOf(Get(data, "reason"), "provider-failed") || IsTextOf(Get(data, "reason"), "synthetic-tool-failure")
             then Get(data, "reason") else None)
       && forall f <- detail :: f.key == "code" || f.key == "reason" || f.key == "provider_outcome" || f.key == "effect_known"
  }

  /** Everything an error event says, from the frame's data. */
  predicate ErrorSays(inv: Invocation, data: seq<Field>, e: Event) {
    && e.ErrorEvent?
    && CodeIs(data, e.code) && OutcomeIs(data, e.outcome) && DetailIs(data, e)
    && (e.effectKnown <==> Get(data, "effect_known") == Some(Bool(true)))
    && (e.retryable <==> Get(data, "retryable") == Some(Bool(true)))
    && (e.presentation == Canceled <==> IsTextOf(Get(data, "code"), "CANCELLED"))
    && e.layer == BindingLayer && e.safeMessage == "Host agent binding reported an error."
    && e.provenanceRef == inv.provenanceRef
  }

  /** Lists and objects cannot be looked up: such a code, reason or outcome raises. */
  predicate Lookable(data: seq<Field>, key: string) {
    match Get(data, key)
    case Some(Arr(_)) => false
    case Some(Obj(_)) => false
    case _ => true
  }

  lemma DetailKeys()
    ensures "code" != "reason" && "code" != "provider_outcome" && "code" != "effect_known"
    ensures "reason" != "provider_outcome" && "reason" != "effect_known" && "provider_outcome" != "effect_known"
    ensures "CANCELLED" != "PROVIDER_FAILED" && "CANCELLED" != "TOOL_FAILED" && "PROVIDER_FAILED" != "TOOL_FAILED"
    ensures "CANCELLED" != "BINDING_ERROR" && "BINDING_ERROR" != "" && "PROVIDER_FAILED" != "" && "TOOL_FAILED" != ""
    ensures "succeeded" != "failed"
  {
    assert |"code"| == 4 && |"reason"| == 6 && |"provider_outcome"| == 16 && |"effect_known"| == 12;
    assert |"CANCELLED"| == 9 && |"PROVIDER_FAILED"| == 15 && |"TOOL_FAILED"| == 11 && |"BINDING_ERROR"| == 13;
    assert |"succeeded"| == 9 && |"failed"| == 6;
  }

  lemma GetOfPieces(a: Field, middle: seq<Field>, b: Field, c: Field, key: string)
    requires middle == [] || |middle| == 1
    ensures Get([a] + middle + [b, c], key) ==
              if a.key == key then Some(a.value) else if middle != [] && middle[0].key == key then Some(middle[0].value)
              else if b.key == key then Some(b.value) else if c.key == key then Some(c.value) else None
  {
    assert [b, c] == [b] + ([c] + []);
    GetCons(c, [], key);
    GetCons(b, [c] + [], key);
    if middle == [] {
      assert [a] + middle + [b, c] == [a] + [b, c];
      GetCons(a, [b, c], key);
    } else {
      assert [a] + middle + [b, c] == [a] + ([middle[0]] + [b, c]);
      GetCons(middle[0], [b, c], key);
      GetCons(a, [middle[0]] + [b, c], key);
    }
  }

  function Detail(code: string, reason: Option<string>, outcome: string, effectKnown: bool): seq<Field> {
    [Field("code", Str(code))] + (if reason.Some? then [Field("reason", Str(reason.value))] else [])
    + [Field("provider_outcome", Str(outcome)), Field("effect_known", Bool(effectKnown))]
  }

  lemma DetailGets(code: string, reason: Option<string>, outcome: string, effectKnown: bool)
    ensures var detail := Detail(code, reason, outcome, effectKnown);
            && Get(detail, "code") == Some(Str(code)) && Get(detail, "provider_outcome") == Some(Str(outcome))
            && Get(detail, "effect_known") == Some(Bool(effectKnown))
            && Get(detail, "reason") == (if reason.Some? then Some(Str(reason.value)) else None)
            && forall f <- detail :: f.key == "code" || f.key == "reason" || f.key == "provider_outcome" || f.key == "effect_known"
  {
    DetailKeys();
    hide Get;
    var a, b, c := Field("code", Str(code)), Field("provider_outcome", Str(outcome)), Field("effect_known", Bool(effectKnown));
    var middle := if reason.Some? then [Field("reason", Str(reason.value))] else [];
    GetOfPieces(a, middle, b, c, "code");
    GetOfPieces(a, middle, b, c, "provider_outcome");
    GetOfPieces(a, middle, b, c, "effect_known");
    GetOfPieces(a, middle, b, c, "reason");
  }

  predicate MadeFrom(data: seq<Field>, e: Event) {
    && e.ErrorEvent? && e.code == SafeCode(Get(data, "code"))
    && e.detail == Obj(Detail(CodeText(e.code), SafeReason(Get(data, "reason")), OutcomeText(e.outcome), e.effectKnown))
  }

  /** The detail of an error event, piece by piece. */
  lemma DetailSays(data: seq<Field>, e: Event)
    requires e.ErrorEvent? && MadeFrom(data, e)
    ensures DetailIs(data, e)
  {
    DetailGets(CodeText(e.code), SafeReason(Get(data, "reason")), OutcomeText(e.outcome), e.effectKnown);
    CodeTexts(data, e.code);
    ReasonText(data);
    OutcomeTexts(e.outcome);
    hide Get, SafeReason, SafeCode, Detail, IsTextOf, CodeIs, CodeText, OutcomeText;
  }

  lemma OutcomeTexts(outcome: ProviderOutcome)
    ensures OutcomeText(outcome)
            == match outcome { case Succeeded => "succeeded" case ProviderFailed => "failed" case Unknown => "unknown" }
  {
  }

  lemma CodeTexts(data: seq<Field>, code: Code)
    requires code == SafeCode(Get(data, "code"))
    ensures CodeText(code) == match code { case Custom(text) => text case _ => "CANCELLED" }
    ensures CodeIs(data, code)
  {
    DetailKeys();
    hide Get;
  }

  lemma ReasonText(data: seq<Field>)
    ensures var value := Get(data, "reason");
            var known := IsTextOf(value, "provider-failed") || IsTextOf(value, "synthetic-tool-failure");
            match SafeReason(Get(data, "reason"))
            case Some(text) => known && Get(data, "reason") == Some(Str(text))
            case None => !known
  {
    hide Get;
  }

  /** The mapped error says what the data says. */
  lemma MappedErrorSays(inv: Invocation, id: string, sequence: int, data: seq<Field>)
    ensures MapError(inv, id, sequence, data).Some? <==>
              Lookable(data, "code") && Lookable(data, "reason") && Lookable(data, "provider_outcome")
    ensures MapError(inv, id, sequence, data).Some? ==>
              var e := MapError(inv, id, sequence, data).value;
              && ErrorSays(inv, data, e) && e.requestId == id && e.sequence == sequence
              && (ValidEvent(e) <==> id != "" && sequence >= 0)
  {
    DetailKeys();
    hide Get, DetailIs, SafeReason, OutcomeText;
    if MapError(inv, id, sequence, data).Some? {
      var e := MapError(inv, id, sequence, data).value;
      CodeTexts(data, e.code);
      DetailSays(data, e);
    }
  }

  /** An error frame maps to one event that says exactly that, or raises. */
  lemma ErrorFrameGives(inv: Invocation, sizes: Sizes, k: nat, data: seq<Field>, id: string, sequence: int)
    requires Identified(inv, k, data, id, sequence)
    ensures var mapped := MapQueryFrame(inv, sizes, k, Wire("error", data));
            && (mapped.Some? <==> Lookable(data, "code") && Lookable(data, "reason") && Lookable(data, "provider_outcome"))
            && (mapped.Some? ==>
                  && |mapped.value| == 1 && mapped.value[0].Shaped?
                  && ErrorSays(inv, data, mapped.value[0].event)
                  && mapped.value[0].event.requestId == id && mapped.value[0].event.sequence == sequence)
  {
    Kinds();
    DetailKeys();
    IdentityRule(inv, k, data, id, sequence);
    MapsByKind(inv, sizes, k, "error", data);
    MappedErrorSays(inv, id, sequence, data);
    hide MapQueryFrame, FrameId, FrameSequence, MapError, Get, ErrorSays, Lookable, ValidEvent;
  }

  // ----- The rest -----

  /** A frame without a usable id and number raises, whatever its kind. */
  lemma UnidentifiedRaises(inv: Invocation, sizes: Sizes, k: nat, kind: string, data: seq<Field>)
    requires inv.requestId != "" && forall id, sequence :: !Identified(inv, k, data, id, sequence)
    ensures MapQueryFrame(inv, sizes, k, Wire(kind, data)) == None
  {
    if FrameId(inv, data).Some? && FrameSequence(k, data).Some? {
      IdentityRule(inv, k, data, FrameId(inv, data).value, FrameSequence(k, data).value);
    }
  }

  /** A delta with a text within the limit gives no event, any other delta raises; a frame of an
      unknown kind gives one malformed item; a frame that is no pair of a text and an object
      raises. */
  lemma OtherFrames(inv: Invocation, sizes: Sizes, k: nat, kind: string, data: seq<Field>, id: string, sequence: int)
    requires Identified(inv, k, data, id, sequence)
    ensures MapQueryFrame(inv, sizes, k, Wire("delta", data)) ==
              (match Get(data, "text")
               case Some(Str(text)) => if 0 < |text| && sizes.utf8(text) <= 262144 then Some([]) else None
               case _ => None)
    ensures kind !in {"delta", "status", "evidence", "final", "error"} ==>
              MapQueryFrame(inv, sizes, k, Wire(kind, data)) == Some([Malformed])
  {
    IdentityRule(inv, k, data, id, sequence);
    MapsByKind(inv, sizes, k, kind, data);
    MapsByKind(inv, sizes, k, "delta", data);
    hide MapQueryFrame, FrameId, FrameSequence, Identified, Get;
  }

  lemma ShapelessRaises(inv: Invocation, sizes: Sizes, k: nat, frame: WireFrame)
    ensures MapQueryFrame(inv, sizes, k, frame).Some? ==>
              frame.Pair? && exists kind, data :: frame == Wire(kind, data)
  {
    if MapQueryFrame(inv, sizes, k, frame).Some? {
      assert frame == Wire(frame.kind.text, frame.data.fields);
    }
  }

  // ----- The limits -----

  /** The size of each frame: of its two parts as one pair. */
  predicate Measured(sizes: Sizes, frames: seq<WireFrame>, bytes: seq<nat>) {
    && |bytes| == |frames|
    && forall k | 0 <= k < |frames| ::
         frames[k].Pair? && sizes.json(Arr([frames[k].kind, frames[k].data])) == Some(bytes[k]) && bytes[k] <= 262144
  }

  function Sum(bytes: seq<nat>): nat {
    if bytes == [] then 0 else bytes[0] + Sum(bytes[1..])
  }

  lemma {:induction false} SumOfMore(bytes: seq<nat>, last: nat)
    ensures Sum(bytes + [last]) == Sum(bytes) + last
  {
    if bytes != [] {
      assert (bytes + [last])[1..] == bytes[1..] + [last];
      SumOfMore(bytes[1..], last);
    }
  }

  lemma {:induction false} TotalIsSum(sizes: Sizes, frames: seq<WireFrame>, bytes: seq<nat>)
    requires Measured(sizes, frames, bytes)
    ensures TotalBytes(sizes, frames) == Sum(bytes)
  {
    if frames != [] {
      var n := |frames| - 1;
      assert bytes == bytes[..n] + [bytes[n]];
      SumOfMore(bytes[..n], bytes[n]);
      TotalIsSum(sizes, frames[..n], bytes[..n]);
      assert frames[n].Pair? && FrameBytes(sizes, frames[n]) == bytes[n];
    }
  }

  lemma MeasuredIffFit(sizes: Sizes, frames: seq<WireFrame>)
    ensures FramesFit(sizes, frames, |frames|) <==> exists bytes :: Measured(sizes, frames, bytes)
  {
    if FramesFit(sizes, frames, |frames|) {
      assert Measured(sizes, frames, seq(|frames|, k requires 0 <= k < |frames| => FrameBytes(sizes, frames[k])));
    }
    if bytes :| Measured(sizes, frames, bytes) {
      forall k | 0 <= k < |frames|
        ensures FrameSize(sizes, frames[k]) == Some(bytes[k])
      {
        assert frames[k].Pair?;
      }
    }
  }

  /** A call keeps the limits if and only if it has at most 512 frames, each of at most 256 KiB,
      and at most 4 MiB together. */
  lemma WithinLimitsIff(sizes: Sizes, frames: seq<WireFrame>)
    ensures WithinLimits(sizes, frames) <==>
              |frames| <= 512 && exists bytes :: Measured(sizes, frames, bytes) && Sum(bytes) <= 4194304
  {
    MeasuredIffFit(sizes, frames);
    forall bytes | Measured(sizes, frames, bytes)
      ensures TotalBytes(sizes, frames) == Sum(bytes)
    {
      TotalIsSum(sizes, frames, bytes);
    }
    hide Measured, FramesFit, TotalBytes;
  }
}
