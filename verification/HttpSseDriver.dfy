/** The HTTP/SSE binding: wire frames become neutral events, or the whole call fails. */
module HttpSseDriver {
  import opened Wrappers
  import opened JsonValues
  import opened NeutralContract
  import opened EventLoop
  import opened QueryContract

  const MAX_BODY_BYTES := 4 * 1024 * 1024
  const MAX_SSE_FRAME_BYTES := 256 * 1024
  const MAX_SSE_FRAMES := 512
  const MAX_SAFE_ERROR_TEXT := 128

  /** One element of the client's frame list: a pair, or anything else. */
  datatype WireFrame = Pair(kind: Json, data: Json) | NotAPair

  /** Byte lengths: of a value's compact JSON text, if it has one, and of a text in UTF-8. */
  datatype Sizes = Sizes(json: Json -> Option<nat>, utf8: string -> nat)

  datatype Invocation = Invocation(requestId: string, provenanceRef: Option<string>)

  predicate ProvenanceChar(c: char) {
    'A' <= c <= 'Z' || 'a' <= c <= 'z' || '0' <= c <= '9' || c == '.' || c == '_' || c == ':' || c == '-'
  }

  function SafeProvenance(value: Option<Json>, fallback: string): string {
    match value
    case Some(Str(text)) =>
      if |text| <= MAX_SAFE_ERROR_TEXT && |text| > 5 && "prov:" <= text
         && forall k | 5 <= k < |text| :: ProvenanceChar(text[k]) then text else fallback
    case _ => fallback
  }

  function FallbackProvenance(inv: Invocation): string {
    if inv.provenanceRef.Some? && inv.provenanceRef.value != "" then inv.provenanceRef.value else "http-sse:query"
  }

  // ----- _map_error -----

  /** A list or an object cannot be looked up in a Python set: the attempt raises. */
  predicate Unhashable(value: Option<Json>) {
    value.Some? && (value.value.Arr? || value.value.Obj?)
  }

  function SafeCode(value: Option<Json>): Code {
    match value
    case Some(Str(text)) =>
      if text == "CANCELLED" then Cancelled
      else if text == "PROVIDER_FAILED" || text == "TOOL_FAILED" then Custom(text)
      else Custom("BINDING_ERROR")
    case _ => Custom("BINDING_ERROR")
  }

  function CodeText(code: Code): string {
    if code.Custom? then code.text else "CANCELLED"
  }

  function SafeReason(value: Option<Json>): Option<string> {
    match value
    case Some(Str(text)) => if text == "provider-failed" || text == "synthetic-tool-failure" then Some(text) else None
    case _ => None
  }

  function Outcome(value: Option<Json>): ProviderOutcome {
    match value
    case Some(Str(text)) => if text == "succeeded" then Succeeded else if text == "failed" then ProviderFailed else Unknown
    case _ => Unknown
  }

  function OutcomeText(outcome: ProviderOutcome): string {
    match outcome
    case Succeeded => "succeeded"
    case ProviderFailed => "failed"
    case Unknown => "unknown"
  }

  function FlagOr(value: Option<Json>, default: bool): bool {
    match value
    case Some(Bool(flag)) => flag
    case _ => default
  }

  function MapError(inv: Invocation, id: string, sequence: int, data: seq<Field>): Option<Event> {
    if Unhashable(Get(data, "code")) || Unhashable(Get(data, "reason")) || Unhashable(Get(data, "provider_outcome")) then None
    else
      var code := SafeCode(Get(data, "code"));
      var reason := SafeReason(Get(data, "reason"));
      var outcome := Outcome(Get(data, "provider_outcome"));
      var effectKnown := FlagOr(Get(data, "effect_known"), false);
      var detail := [Field("code", Str(CodeText(code)))]
                       + (if reason.Some? then [Field("reason", Str(reason.value))] else [])
                       + [Field("provider_outcome", Str(OutcomeText(outcome))), Field("effect_known", Bool(effectKnown))];
      Some(ErrorEvent(id, sequence, code, BindingLayer, "Host agent binding reported an error.",
                      FlagOr(Get(data, "retryable"), false), Obj(detail), inv.provenanceRef, effectKnown,
                      if code == Cancelled then Canceled else Failed, outcome))
  }

  // ----- _map_query_frame -----

  function FrameId(inv: Invocation, data: seq<Field>): Option<string> {
    match Get(data, "request_id")
    case None => Some(inv.requestId)
    case Some(Str(text)) => if text != "" then Some(text) else None
    case _ => None
  }

  function FrameSequence(index: nat, data: seq<Field>): Option<int> {
    match Get(data, "sequence")
    case None => Some(index)
    case Some(Int(number)) => if number >= 0 then Some(number) else None
    case _ => None
  }

  predicate IsKind(frame: WireFrame, kind: string) {
    frame.Pair? && frame.kind == Str(kind)
  }

  function OtherFields(data: seq<Field>): seq<Field> {
    if data == [] then []
    else if data[0].key == "request_id" || data[0].key == "sequence" || data[0].key == "provenance_ref" then
      OtherFields(data[1..])
    else [data[0]] + OtherFields(data[1..])
  }

  function Evidence(data: seq<Field>): Option<Json> {
    match Get(data, "evidence")
    case Some(Obj(fields)) => Some(Obj(fields))
    case Some(Null) => Some(Obj(OtherFields(data)))
    case None => Some(Obj(OtherFields(data)))
    case _ => None
  }

  /** A model construction: it raises for an event its validators refuse. */
  function Constructed(event: Event): Option<seq<Raw>> {
    if ValidEvent(event) then Some([Shaped(event)]) else None
  }

  /** The events of one frame (none for a delta), or nothing when the frame raises. */
  function MapQueryFrame(inv: Invocation, sizes: Sizes, index: nat, frame: WireFrame): Option<seq<Raw>> {
    if !frame.Pair? || !frame.kind.Str? || !frame.data.Obj? then None
    else
      var data := frame.data.fields;
      var id := FrameId(inv, data);
      var sequence := FrameSequence(index, data);
      if id.None? || sequence.None? then None
      else MapKind(inv, sizes, frame.kind.text, data, id.value, sequence.value)
  }

  function MapKind(inv: Invocation, sizes: Sizes, kind: string, data: seq<Field>, id: string, sequence: int): Option<seq<Raw>> {
    if kind == "delta" then
      match Get(data, "text")
      case Some(Str(text)) => if text != "" && sizes.utf8(text) <= MAX_SSE_FRAME_BYTES then Some([]) else None
      case _ => None
    else if kind == "status" then
      match (Get(data, "phase"), Get(data, "message"))
      case (Some(Str(phase)), Some(Str(message))) =>
        if phase != "" && message != "" then Constructed(StatusEvent(id, sequence, phase, message)) else None
      case _ => None
    else if kind == "evidence" then
      match Evidence(data)
      case Some(evidence) =>
        Constructed(EvidenceEvent(id, sequence, evidence, SafeProvenance(Get(data, "provenance_ref"), FallbackProvenance(inv))))
      case None => None
    else if kind == "final" then
      if ValidQueryResponse(Obj(data)) then
        Constructed(FinalEvent(id, sequence, Obj(data), SafeProvenance(Get(data, "provenance_ref"), FallbackProvenance(inv))))
      else None
    else if kind == "error" then
      match MapError(inv, id, sequence, data)
      case Some(event) => Constructed(event)
      case None => None
    else Some([Malformed])
  }

  // ----- _invoke_query -----

  /** What each frame maps to, in order. */
  function MappedFrames(inv: Invocation, sizes: Sizes, frames: seq<WireFrame>): (mapped: seq<Option<seq<Raw>>>)
    ensures |mapped| == |frames|
  {
    seq(|frames|, k requires 0 <= k < |frames| => MapQueryFrame(inv, sizes, k, frames[k]))
  }

  /** All items from `k` on; nothing when one frame raised. */
  function Gather(mapped: seq<Option<seq<Raw>>>, k: nat): Option<seq<Raw>>
    requires k <= |mapped|
    decreases |mapped| - k
  {
    if k == |mapped| then Some([])
    else if mapped[k].None? then None
    else Prefixed(mapped[k].value, Gather(mapped, k + 1))
  }

  function MapAll(inv: Invocation, sizes: Sizes, frames: seq<WireFrame>): Option<seq<Raw>> {
    Gather(MappedFrames(inv, sizes, frames), 0)
  }

  function Prefixed(events: seq<Raw>, rest: Option<seq<Raw>>): Option<seq<Raw>> {
    if rest.Some? then Some(events + rest.value) else None
  }

  /** `_json_size` of a frame; nothing when it raises. */
  function FrameSize(sizes: Sizes, frame: WireFrame): Option<nat> {
    if frame.Pair? then sizes.json(Arr([frame.kind, frame.data])) else None
  }

  function FrameBytes(sizes: Sizes, frame: WireFrame): nat {
    if FrameSize(sizes, frame).Some? then FrameSize(sizes, frame).value else 0
  }

  function TotalBytes(sizes: Sizes, frames: seq<WireFrame>): nat {
    if frames == [] then 0 else TotalBytes(sizes, frames[..|frames| - 1]) + FrameBytes(sizes, frames[|frames| - 1])
  }

  predicate FramesFit(sizes: Sizes, frames: seq<WireFrame>, k: nat)
    requires k <= |frames|
  {
    forall i | 0 <= i < k :: FrameSize(sizes, frames[i]).Some? && FrameBytes(sizes, frames[i]) <= MAX_SSE_FRAME_BYTES
  }

  predicate WithinLimits(sizes: Sizes, frames: seq<WireFrame>) {
    && |frames| <= MAX_SSE_FRAMES
    && FramesFit(sizes, frames, |frames|)
    && TotalBytes(sizes, frames) <= MAX_BODY_BYTES
  }

  /** What the guard sees: the mapped list, or a call that raises. */
  function Driven(inv: Invocation, sizes: Sizes, frames: seq<WireFrame>): Stream {
    if WithinLimits(sizes, frames) && MapAll(inv, sizes, frames).Some? then
      Stream(MapAll(inv, sizes, frames).value, Finished)
    else Stream([], RaisedException)
  }

  method InvokeQuery(inv: Invocation, sizes: Sizes, frames: seq<WireFrame>) returns (stream: Stream)
    ensures stream == Driven(inv, sizes, frames)
  {
    if |frames| > MAX_SSE_FRAMES {
      return Stream([], RaisedException);
    }
    var totalBytes := 0;
    var events: seq<Raw> := [];
    ghost var all := MappedFrames(inv, sizes, frames);
    PrefixedNothing(Gather(all, 0));
    for k := 0 to |frames|
      invariant totalBytes == TotalBytes(sizes, frames[..k]) <= MAX_BODY_BYTES
      invariant FramesFit(sizes, frames, k)
      invariant Gather(all, 0) == Prefixed(events, Gather(all, k))
    {
      TotalStep(sizes, frames, k);
      FailsEarly(inv, sizes, frames, events, k);
      if frames[k].NotAPair? {
        return Stream([], RaisedException);
      }
      var frameBytes := sizes.json(Arr([frames[k].kind, frames[k].data]));
      if frameBytes.None? || frameBytes.value > MAX_SSE_FRAME_BYTES {
        return Stream([], RaisedException);
      }
      totalBytes := totalBytes + frameBytes.value;
      if totalBytes > MAX_BODY_BYTES {
        return Stream([], RaisedException);
      }
      var mapped := MapQueryFrame(inv, sizes, k, frames[k]);
      if mapped.None? {
        return Stream([], RaisedException);
      }
      PrefixedMore(events, mapped.value, Gather(all, k + 1));
      events := events + mapped.value;
    }
    Completes(inv, sizes, frames, events);
    stream := Stream(events, Finished);
  }

  lemma PrefixedNothing(rest: Option<seq<Raw>>)
    ensures Prefixed([], rest) == rest
  {
    if rest.Some? {
      assert [] + rest.value == rest.value;
    }
  }

  lemma PrefixedMore(events: seq<Raw>, more: seq<Raw>, rest: Option<seq<Raw>>)
    ensures Prefixed(events, Prefixed(more, rest)) == Prefixed(events + more, rest)
  {
    if rest.Some? {
      assert events + (more + rest.value) == (events + more) + rest.value;
    }
  }

  lemma {:induction false} TotalGrows(sizes: Sizes, frames: seq<WireFrame>, k: nat)
    requires k <= |frames|
    ensures TotalBytes(sizes, frames[..k]) <= TotalBytes(sizes, frames)
    decreases |frames|
  {
    if k < |frames| {
      assert frames[..|frames| - 1][..k] == frames[..k];
      TotalGrows(sizes, frames[..|frames| - 1], k);
    } else {
      assert frames[..k] == frames;
    }
  }

  lemma TotalStep(sizes: Sizes, frames: seq<WireFrame>, k: nat)
    requires k < |frames|
    ensures TotalBytes(sizes, frames[..k + 1]) == TotalBytes(sizes, frames[..k]) + FrameBytes(sizes, frames[k])
    ensures TotalBytes(sizes, frames[..k + 1]) <= TotalBytes(sizes, frames)
  {
    assert frames[..k + 1][..k] == frames[..k];
    TotalGrows(sizes, frames, k + 1);
  }

  /** The loop's exits before the end: any one of them means the whole call raises. */
  lemma FailsEarly(inv: Invocation, sizes: Sizes, frames: seq<WireFrame>, events: seq<Raw>, k: nat)
    requires k < |frames|
    requires MapAll(inv, sizes, frames) == Prefixed(events, Gather(MappedFrames(inv, sizes, frames), k))
    ensures FrameSize(sizes, frames[k]).None? || FrameBytes(sizes, frames[k]) > MAX_SSE_FRAME_BYTES
            || TotalBytes(sizes, frames) > MAX_BODY_BYTES || MappedFrames(inv, sizes, frames)[k].None?
            ==> Driven(inv, sizes, frames) == Stream([], RaisedException)
  {
  }

  lemma Completes(inv: Invocation, sizes: Sizes, frames: seq<WireFrame>, events: seq<Raw>)
    requires |frames| <= MAX_SSE_FRAMES && FramesFit(sizes, frames, |frames|)
    requires TotalBytes(sizes, frames[..|frames|]) <= MAX_BODY_BYTES
    requires MapAll(inv, sizes, frames) == Prefixed(events, Gather(MappedFrames(inv, sizes, frames), |frames|))
    ensures Driven(inv, sizes, frames) == Stream(events, Finished)
  {
    assert frames[..|frames|] == frames;
    assert events + [] == events;
  }
}
