/** The HTTP/SSE binding composed with the guard's stream check: what the guard offers,
    said about the wire frames. */
module DriverGuard {
  import opened Wrappers
  import opened JsonValues
  import opened NeutralContract
  import opened EventLoop
  import opened HttpSseDriver

  predicate IsDelta(frame: WireFrame) {
    IsKind(frame, "delta")
  }

  predicate IsAnswer(frame: WireFrame) {
    IsKind(frame, "final") || IsKind(frame, "error")
  }

  predicate KnownKind(frame: WireFrame) {
    IsAnswer(frame) || IsKind(frame, "status") || IsKind(frame, "evidence")
  }

  /** The frame leaves the request id to the binding, or repeats it. */
  predicate NamesRequest(inv: Invocation, frame: WireFrame) {
    frame.Pair? && frame.data.Obj?
    && (Get(frame.data.fields, "request_id") == None || Get(frame.data.fields, "request_id") == Some(Str(inv.requestId)))
  }

  /** The frame leaves its sequence number to the binding. */
  predicate Unnumbered(frame: WireFrame) {
    frame.Pair? && frame.data.Obj? ==> Get(frame.data.fields, "sequence").None?
  }

  predicate AnswerBefore(frames: seq<WireFrame>, k: int)
    requires 0 <= k <= |frames|
  {
    exists j | 0 <= j < k :: IsAnswer(frames[j])
  }

  /** What is wrong with frame `k`, judged on the wire; a delta is never wrong. */
  function FrameViolation(inv: Invocation, frames: seq<WireFrame>, k: int): Option<Code>
    requires 0 <= k < |frames|
  {
    if IsDelta(frames[k]) then None
    else if !KnownKind(frames[k]) then Some(EventInvalid)
    else if !NamesRequest(inv, frames[k]) then Some(EventRequestMismatch)
    else if AnswerBefore(frames, k) then Some(if IsAnswer(frames[k]) then DuplicateTerminal else LateFrame)
    else None
  }

  ghost predicate CleanFrames(inv: Invocation, frames: seq<WireFrame>, k: int)
    requires 0 <= k <= |frames|
  {
    forall j | 0 <= j < k :: FrameViolation(inv, frames, j) == None
  }

  /** The wire grammar: frame `t` is the one answer, nothing but deltas follows it, and every
      other frame is a delta or a known frame of this request. */
  ghost predicate OneAnswerAt(inv: Invocation, frames: seq<WireFrame>, t: int) {
    && 0 <= t < |frames| && IsAnswer(frames[t])
    && forall k | 0 <= k < |frames| ::
         IsDelta(frames[k])
         || (KnownKind(frames[k]) && NamesRequest(inv, frames[k]) && k <= t && (IsAnswer(frames[k]) ==> k == t))
  }

  ghost predicate OneAnswer(inv: Invocation, frames: seq<WireFrame>) {
    exists t :: OneAnswerAt(inv, frames, t)
  }

  /** Positions of the frames that are no deltas. */
  function Kept(frames: seq<WireFrame>, from: nat): seq<nat>
    requires from <= |frames|
    decreases |frames| - from
  {
    if from == |frames| then []
    else if IsDelta(frames[from]) then Kept(frames, from + 1)
    else [from] + Kept(frames, from + 1)
  }

  // ----- One frame -----

  lemma KindsDiffer()
    ensures "final" != "delta" && "error" != "delta" && "status" != "delta" && "evidence" != "delta"
    ensures "final" != "status" && "final" != "evidence" && "error" != "status" && "error" != "evidence"
    ensures "error" != "final" && "evidence" != "status"
  {
    assert "final"[0] == 'f' && "error"[0] == 'e' && "status"[0] == 's' && "delta"[0] == 'd';
    assert "error"[1] == 'r' && "evidence"[1] == 'v' && "evidence"[0] == 'e';
  }

  /** A delta yields nothing; any other frame that does not raise yields one item, shaped
      exactly when its kind is known. */
  lemma FrameYield(inv: Invocation, sizes: Sizes, k: nat, frame: WireFrame)
    requires MapQueryFrame(inv, sizes, k, frame).Some? && Unnumbered(frame)
    ensures var mapped := MapQueryFrame(inv, sizes, k, frame).value;
            && |mapped| == (if IsDelta(frame) then 0 else 1)
            && (!IsDelta(frame) ==> DescribesFrame(inv, k, frame, mapped[0]))
  {
    KindsDiffer();
  }

  ghost predicate DescribesFrame(inv: Invocation, k: nat, frame: WireFrame, item: Raw) {
    && (item.Shaped? <==> KnownKind(frame))
    && (item.Shaped? ==>
          && ValidEvent(item.event)
          && (item.event.requestId == inv.requestId <==> NamesRequest(inv, frame))
          && item.event.sequence == k
          && (IsTerminal(item.event) <==> IsAnswer(frame)))
  }

  // ----- Positions -----

  /** Increasing positions of frames that are no deltas. */
  ghost predicate Positions(frames: seq<WireFrame>, from: nat, kept: seq<nat>) {
    && (forall j | 0 <= j < |kept| :: from <= kept[j] < |frames| && !IsDelta(frames[kept[j]]))
    && (forall i, j | 0 <= i < j < |kept| :: kept[i] < kept[j])
  }

  lemma PositionsMore(frames: seq<WireFrame>, from: nat, rest: seq<nat>)
    requires from < |frames| && Positions(frames, from + 1, rest)
    ensures Positions(frames, from, rest)
    ensures !IsDelta(frames[from]) ==> Positions(frames, from, [from] + rest)
  {
  }

  lemma {:induction false} KeptPositions(frames: seq<WireFrame>, from: nat)
    requires from <= |frames|
    ensures Positions(frames, from, Kept(frames, from))
    decreases |frames| - from
  {
    if from < |frames| {
      KeptPositions(frames, from + 1);
      PositionsMore(frames, from, Kept(frames, from + 1));
    }
  }

  lemma {:induction false} KeptAll(frames: seq<WireFrame>, from: nat, k: nat) returns (j: nat)
    requires from <= k < |frames| && !IsDelta(frames[k])
    ensures j < |Kept(frames, from)| && Kept(frames, from)[j] == k
    decreases k - from
  {
    if from == k {
      j := 0;
    } else {
      var rest := KeptAll(frames, from + 1, k);
      j := if IsDelta(frames[from]) then rest else rest + 1;
    }
  }

  // ----- The gathered items, one for each kept frame -----

  /** Item `j` is all that the frame at `kept[j]` maps to. */
  ghost predicate Follows(mapped: seq<Option<seq<Raw>>>, kept: seq<nat>, items: seq<Raw>) {
    && |items| == |kept|
    && forall j | 0 <= j < |kept| :: kept[j] < |mapped| && mapped[kept[j]] == Some([items[j]])
  }

  /** A delta maps to nothing, any other frame that does not raise to one item. */
  ghost predicate OneEach(frames: seq<WireFrame>, mapped: seq<Option<seq<Raw>>>) {
    && |mapped| == |frames|
    && forall k | 0 <= k < |frames| && mapped[k].Some? :: |mapped[k].value| == if IsDelta(frames[k]) then 0 else 1
  }

  lemma FollowsMore(mapped: seq<Option<seq<Raw>>>, k: nat, item: Raw, kept: seq<nat>, items: seq<Raw>)
    requires Follows(mapped, kept, items)
    requires k < |mapped| && mapped[k] == Some([item])
    ensures Follows(mapped, [k] + kept, [item] + items)
  {
  }

  lemma {:induction false} GatheredFollow(frames: seq<WireFrame>, mapped: seq<Option<seq<Raw>>>, from: nat)
    requires from <= |frames| && OneEach(frames, mapped) && Gather(mapped, from).Some?
    ensures Follows(mapped, Kept(frames, from), Gather(mapped, from).value)
    decreases |frames| - from
  {
    if from < |frames| {
      GatheredFollow(frames, mapped, from + 1);
      var first, rest := mapped[from].value, Gather(mapped, from + 1).value;
      if IsDelta(frames[from]) {
        assert first + rest == rest;
      } else {
        assert first == [first[0]];
        FollowsMore(mapped, from, first[0], Kept(frames, from + 1), rest);
      }
    }
  }

  lemma {:induction false} GathersIffNoneRaises(mapped: seq<Option<seq<Raw>>>, from: nat)
    requires from <= |mapped|
    ensures Gather(mapped, from).Some? <==> forall k | from <= k < |mapped| :: mapped[k].Some?
    decreases |mapped| - from
  {
    if from < |mapped| {
      GathersIffNoneRaises(mapped, from + 1);
    }
  }

  ghost predicate Aligned(inv: Invocation, frames: seq<WireFrame>, kept: seq<nat>, items: seq<Raw>) {
    && |items| == |kept|
    && forall j | 0 <= j < |kept| :: kept[j] < |frames| && DescribesFrame(inv, kept[j], frames[kept[j]], items[j])
  }

  lemma ItemsFollowFrames(inv: Invocation, sizes: Sizes, frames: seq<WireFrame>)
    requires MapAll(inv, sizes, frames).Some?
    requires forall k | 0 <= k < |frames| :: Unnumbered(frames[k])
    ensures Follows(MappedFrames(inv, sizes, frames), Kept(frames, 0), MapAll(inv, sizes, frames).value)
    ensures Aligned(inv, frames, Kept(frames, 0), MapAll(inv, sizes, frames).value)
  {
    var mapped, kept := MappedFrames(inv, sizes, frames), Kept(frames, 0);
    forall k | 0 <= k < |frames| && mapped[k].Some?
      ensures |mapped[k].value| == if IsDelta(frames[k]) then 0 else 1
      ensures !IsDelta(frames[k]) ==> DescribesFrame(inv, k, frames[k], mapped[k].value[0])
    {
      FrameYield(inv, sizes, k, frames[k]);
    }
    KeptPositions(frames, 0);
    GatheredFollow(frames, mapped, 0);
    FollowersDescribe(inv, frames, mapped, kept, Gather(mapped, 0).value);
  }

  lemma FollowersDescribe(inv: Invocation, frames: seq<WireFrame>, mapped: seq<Option<seq<Raw>>>, kept: seq<nat>, items: seq<Raw>)
    requires OneEach(frames, mapped) && Positions(frames, 0, kept) && Follows(mapped, kept, items)
    requires forall k | 0 <= k < |frames| && mapped[k].Some? && !IsDelta(frames[k]) ::
               DescribesFrame(inv, k, frames[k], mapped[k].value[0])
    ensures Aligned(inv, frames, kept, items)
  {
  }

  // ----- The two notions of violation agree -----

  lemma AnswersAgree(inv: Invocation, frames: seq<WireFrame>, items: seq<Raw>, j: nat)
    requires Aligned(inv, frames, Kept(frames, 0), items) && j < |items|
    ensures TerminalBefore(items, j) <==> AnswerBefore(frames, Kept(frames, 0)[j])
  {
    var kept := Kept(frames, 0);
    KeptPositions(frames, 0);
    KindsDiffer();
    if TerminalBefore(items, j) {
      var i :| 0 <= i < j && TerminalAt(items, i);
      assert DescribesFrame(inv, kept[i], frames[kept[i]], items[i]);
      assert IsAnswer(frames[kept[i]]);
    }
    if AnswerBefore(frames, kept[j]) {
      var k :| 0 <= k < kept[j] && IsAnswer(frames[k]);
      var i := KeptAll(frames, 0, k);
      assert DescribesFrame(inv, kept[i], frames[kept[i]], items[i]);
      assert TerminalAt(items, i);
    }
  }

  lemma ViolationsAgree(inv: Invocation, frames: seq<WireFrame>, items: seq<Raw>, j: nat)
    requires Aligned(inv, frames, Kept(frames, 0), items) && j < |items|
    ensures Kept(frames, 0)[j] < |frames|
    ensures ViolationAt(inv.requestId, items, j) == FrameViolation(inv, frames, Kept(frames, 0)[j])
  {
    var kept := Kept(frames, 0);
    KeptPositions(frames, 0);
    AnswersAgree(inv, frames, items, j);
    assert DescribesFrame(inv, kept[j], frames[kept[j]], items[j]);
    if j > 0 {
      assert DescribesFrame(inv, kept[j - 1], frames[kept[j - 1]], items[j - 1]);
    }
  }

  // ----- Main results -----

  /** Clean frames with an answer are exactly the wire grammar. */
  lemma CleanIffOneAnswer(inv: Invocation, frames: seq<WireFrame>)
    ensures CleanFrames(inv, frames, |frames|) && AnswerBefore(frames, |frames|) <==> OneAnswer(inv, frames)
  {
    KindsDiffer();
    if CleanFrames(inv, frames, |frames|) && AnswerBefore(frames, |frames|) {
      var t :| 0 <= t < |frames| && IsAnswer(frames[t]);
      forall k | 0 <= k < |frames|
        ensures IsDelta(frames[k])
                || (KnownKind(frames[k]) && NamesRequest(inv, frames[k]) && k <= t && (IsAnswer(frames[k]) ==> k == t))
      {
        assert FrameViolation(inv, frames, k) == None && FrameViolation(inv, frames, t) == None;
      }
      assert OneAnswerAt(inv, frames, t);
    }
    if OneAnswer(inv, frames) {
      var t :| OneAnswerAt(inv, frames, t);
      forall k | 0 <= k < |frames|
        ensures FrameViolation(inv, frames, k) == None
      {
        assert forall j | 0 <= j < k && IsAnswer(frames[j]) :: j == t;
      }
    }
  }

  /** Unnumbered frames that map are offered unchanged exactly when the wire grammar holds,
      and the events are then the mapped frames that are no deltas, one each, in order. */
  lemma OffersExactlyOneAnswer(inv: Invocation, sizes: Sizes, frames: seq<WireFrame>)
    requires WithinLimits(sizes, frames) && MapAll(inv, sizes, frames).Some?
    requires forall k | 0 <= k < |frames| :: Unnumbered(frames[k])
    ensures var verdict := Evaluate(inv.requestId, inv.provenanceRef, Driven(inv, sizes, frames));
            verdict.Some?
            && (verdict.value.events.Some? <==> OneAnswer(inv, frames))
            && (verdict.value.events.Some? ==> EventsAreFrames(inv, sizes, frames, verdict.value.events.value))
  {
    var items := MapAll(inv, sizes, frames).value;
    var kept := Kept(frames, 0);
    ItemsFollowFrames(inv, sizes, frames);
    KeptPositions(frames, 0);
    OffersExactlyTheGrammar(inv.requestId, inv.provenanceRef, Stream(items, Finished));
    CleanIffOrdered(inv.requestId, items);
    CleanIffOneAnswer(inv, frames);
    CleanAgree(inv, frames, items);
    if WellFormed(inv.requestId, items) {
      var events := EventsOf(items);
      assert seq(|events|, j requires 0 <= j < |events| => Shaped(events[j])) == items;
    }
  }

  ghost predicate EventsAreFrames(inv: Invocation, sizes: Sizes, frames: seq<WireFrame>, events: seq<Event>) {
    Follows(MappedFrames(inv, sizes, frames), Kept(frames, 0), seq(|events|, j requires 0 <= j < |events| => Shaped(events[j])))
  }

  lemma CleanAgree(inv: Invocation, frames: seq<WireFrame>, items: seq<Raw>)
    requires Aligned(inv, frames, Kept(frames, 0), items)
    ensures CleanUpTo(inv.requestId, items, |items|) <==> CleanFrames(inv, frames, |frames|)
    ensures TerminalBefore(items, |items|) <==> AnswerBefore(frames, |frames|)
  {
    var kept := Kept(frames, 0);
    KeptPositions(frames, 0);
    KindsDiffer();
    forall j | 0 <= j < |items|
      ensures ViolationAt(inv.requestId, items, j) == FrameViolation(inv, frames, kept[j])
      ensures TerminalAt(items, j) <==> IsAnswer(frames[kept[j]])
    {
      ViolationsAgree(inv, frames, items, j);
      assert DescribesFrame(inv, kept[j], frames[kept[j]], items[j]);
    }
    forall k | 0 <= k < |frames| && !IsDelta(frames[k])
      ensures exists j :: 0 <= j < |items| && kept[j] == k
    {
      var j := KeptAll(frames, 0, k);
    }
  }

  ghost predicate FirstFrameViolation(inv: Invocation, frames: seq<WireFrame>, k: int, code: Code) {
    0 <= k < |frames| && CleanFrames(inv, frames, k) && FrameViolation(inv, frames, k) == Some(code)
  }

  /** A rejected frame list becomes one error coded by its first wrong frame, and that code
      is never a sequence error: deltas leave gaps in the numbering, never a step back. */
  lemma RejectsTheFirstWrongFrame(inv: Invocation, sizes: Sizes, frames: seq<WireFrame>, k: int, code: Code)
    requires WithinLimits(sizes, frames) && MapAll(inv, sizes, frames).Some?
    requires forall i | 0 <= i < |frames| :: Unnumbered(frames[i])
    requires FirstFrameViolation(inv, frames, k, code)
    ensures code != EventSequence
    ensures Evaluate(inv.requestId, inv.provenanceRef, Driven(inv, sizes, frames)) ==
              Some(Verdict(BindingError(inv.requestId, inv.provenanceRef, code, true), None))
  {
    var items := MapAll(inv, sizes, frames).value;
    var kept := Kept(frames, 0);
    ItemsFollowFrames(inv, sizes, frames);
    KeptPositions(frames, 0);
    var j := KeptAll(frames, 0, k);
    forall i | 0 <= i <= j
      ensures ViolationAt(inv.requestId, items, i) == FrameViolation(inv, frames, kept[i])
    {
      ViolationsAgree(inv, frames, items, i);
    }
    RejectsWithTheFirstViolation(inv.requestId, inv.provenanceRef, Stream(items, Finished), j, code);
  }

  /** Without a wrong frame and without an answer, the guard reports a missing terminal. */
  lemma UnansweredFrames(inv: Invocation, sizes: Sizes, frames: seq<WireFrame>)
    requires WithinLimits(sizes, frames) && MapAll(inv, sizes, frames).Some?
    requires forall i | 0 <= i < |frames| :: Unnumbered(frames[i])
    requires CleanFrames(inv, frames, |frames|) && !AnswerBefore(frames, |frames|)
    ensures Evaluate(inv.requestId, inv.provenanceRef, Driven(inv, sizes, frames)) ==
              Some(Verdict(BindingError(inv.requestId, inv.provenanceRef, MissingTerminal, true), None))
  {
    var items := MapAll(inv, sizes, frames).value;
    ItemsFollowFrames(inv, sizes, frames);
    CleanAgree(inv, frames, items);
    CleanIffOrdered(inv.requestId, items);
    CleanStreamJudgedByItsEnding(inv.requestId, inv.provenanceRef, Stream(items, Finished));
  }

  /** A frame list over a limit, or with one frame that cannot be sized or raises, loses all its frames: the
      caller sees a plain binding failure and nothing that was mapped before it. */
  lemma OneBadFrameFailsTheCall(inv: Invocation, sizes: Sizes, frames: seq<WireFrame>)
    ensures var verdict := Evaluate(inv.requestId, inv.provenanceRef, Driven(inv, sizes, frames));
            (!WithinLimits(sizes, frames) || None in MappedFrames(inv, sizes, frames))
            <==> verdict == Some(Verdict(BindingError(inv.requestId, inv.provenanceRef, BindingFailure, false), None))
  {
    GathersIffNoneRaises(MappedFrames(inv, sizes, frames), 0);
    var stream := Driven(inv, sizes, frames);
    if stream.ending.Finished? {
      if FindViolation(inv.requestId, stream.items, 0).Some? {
        var k :| FirstViolation(inv.requestId, stream.items, k, FindViolation(inv.requestId, stream.items, 0).value);
      }
    } else {
      assert CleanUpTo(inv.requestId, stream.items, |stream.items|);
    }
  }

  /** An error frame either raises on a value Python cannot hash or becomes a valid error
      event, and every text in that event comes from a fixed vocabulary, whatever the wire said. */
  lemma ErrorTextIsFixed(inv: Invocation, id: string, sequence: nat, data: seq<Field>)
    requires id != "" && MapError(inv, id, sequence, data).Some?
    ensures var event := MapError(inv, id, sequence, data).value;
            && ValidEvent(event) && event.ErrorEvent? && event.requestId == id && event.sequence == sequence
            && (event.code == Cancelled || event.code == Custom("BINDING_ERROR") || event.code == Custom("PROVIDER_FAILED")
                || event.code == Custom("TOOL_FAILED"))
            && (event.presentation == Canceled <==> Get(data, "code") == Some(Str("CANCELLED")))
            && event.detail.Obj?
            && forall f <- event.detail.fields ::
                 f.value.Bool? || (f.value.Str? && f.value.text in FixedTexts())
  {
    assert "BINDING_ERROR" != "" && "PROVIDER_FAILED" != "" && "TOOL_FAILED" != "";
    var event := MapError(inv, id, sequence, data).value;
    var code, reason := SafeCode(Get(data, "code")), SafeReason(Get(data, "reason"));
    assert CodeText(code) in FixedTexts();
    assert OutcomeText(Outcome(Get(data, "provider_outcome"))) in FixedTexts();
    assert reason.Some? ==> reason.value in FixedTexts();
  }

  function FixedTexts(): set<string> {
    {"CANCELLED", "BINDING_ERROR", "PROVIDER_FAILED", "TOOL_FAILED", "provider-failed", "synthetic-tool-failure",
     "succeeded", "failed", "unknown"}
  }
}
