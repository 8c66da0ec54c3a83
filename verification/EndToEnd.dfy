/** One query from the host agent's bytes to the browser's events, through both readers and
    the relay between them. */
module EndToEnd {
  import opened Wrappers
  import opened JsonValues
  import opened JsonText
  import opened QueryContract
  import opened SseText
  import opened BackendSse
  import opened BrowserSchema
  import BrowserSse
  import Delivery
  import Relay
  import SseRoundTrip

  /** `json.dumps` and `JSON.parse`: each writable value has a text without raw line endings, in
      which the browser sees `seen` of the value. */
  ghost predicate Codec(dump: Json -> string, parse: string -> Option<Json>, seen: Json -> Json) {
    forall j: Json | Writable(j) :: OneLine(dump(j)) && parse(dump(j)) == Some(seen(j))
  }

  /** `parse_exact_json_value`: what it returns has unique keys and can be written again. */
  ghost predicate Strict(load: string -> Option<Json>) {
    forall text: string :: load(text).Some? ==> Writable(load(text).value)
  }

  function Same(j: Json): Json { j }

  /** The requirements can be met: by compact JSON text, read back as it was written. */
  lemma CompactTextIsACodec()
    ensures Codec(Dump, Parse, Same) && Strict(Parse) && Faithful(Same)
  {
    forall j: Json | Writable(j)
      ensures OneLine(Dump(j)) && Parse(Dump(j)) == Some(Same(j))
    {
      DumpParses(j);
      TextIsVisible(j, "");
    }
    forall text: string | Parse(text).Some?
      ensures Writable(Parse(text).value)
    {
      ReadIsWritable(text);
    }
    forall j: Json
      ensures SeenAs(j, Same(j), Same)
    {
    }
  }

  function Wire(events: seq<WireEvent>, dump: Json -> string): seq<SseRoundTrip.Frame> {
    seq(|events|, i requires 0 <= i < |events| => SseRoundTrip.Frame(events[i].kind, dump(events[i].data)))
  }

  /** The browser's reading of one event: parse its text, then apply a schema, which gives the
      event for the caller or refuses. */
  function Decoder<E>(parse: string -> Option<Json>, schema: (string, Json) -> Option<E>): (string, string) -> Option<E> {
    (kind, text) =>
      match parse(text)
      case Some(data) => schema(kind, data)
      case None => None
  }

  /** What the backend reads of an upstream text that arrives whole, or up to where it breaks. */
  function Upstream(text: string, broken: bool, load: string -> Option<Json>): (seq<WireEvent>, Ending) {
    if broken then Interrupted(text, load) else Streamed(text, load)
  }

  /** What the relay emits for it, or at once when no host agent is configured. */
  function Emitted(request: Relay.Request, configured: bool, text: string, broken: bool, exception: string,
                   host: Relay.Host, load: string -> Option<Json>): seq<WireEvent> {
    if configured then
      Relay.Relayed(request, Upstream(text, broken, load).0, Upstream(text, broken, load).1, exception, host)
    else [WireEvent("final", Relay.Fallback(request, Relay.UNCONFIGURED))]
  }

  /** The route's body: read the upstream chunks, relay the events, frame what the relay emits. */
  method ServeQuery(request: Relay.Request, configured: bool, chunks: seq<string>, broken: bool, exception: string,
                    host: Relay.Host, load: string -> Option<Json>, dump: Json -> string)
    returns (body: string)
    ensures var frames := Emitted(request, configured, Concat(chunks), broken, exception, host, load);
            && body == SseRoundTrip.Stream(Wire(frames, dump)) && Delivers(frames)
            && (Strict(load) ==> AllWritable(frames))
  {
    var events, ending := StreamQuery(chunks, broken, load);
    var relayed := Relay.EventGenerator(request, configured, events, ending, exception, host);
    UpstreamKinds(Concat(chunks), broken, load);
    if configured {
      RelayDelivers(request, events, ending, exception, host);
    } else {
      UnconfiguredDelivers(request);
    }
    if Strict(load) {
      UpstreamIsWritable(Concat(chunks), broken, load);
      Delivery.RelayedIsWritable(request, events, ending, exception, host);
      Delivery.FallbackIsWritable(request, Relay.UNCONFIGURED);
    }
    body := FrameAll(relayed, dump);
  }

  ghost predicate AllWritable(events: seq<WireEvent>) {
    forall event <- events :: Writable(event.data)
  }

  lemma UpstreamKinds(text: string, broken: bool, load: string -> Option<Json>)
    ensures forall event <- Upstream(text, broken, load).0 :: OneLine(event.kind)
  {
    KindsAreLines(SplitDouble(Norm(text)), load);
    KindsAreLines(Norms(FramesFrom(text, 0).0), load);
  }

  lemma UpstreamIsWritable(text: string, broken: bool, load: string -> Option<Json>)
    requires Strict(load)
    ensures AllWritable(Upstream(text, broken, load).0)
  {
    var ok := j => Writable(j);
    DataIsRead(SplitDouble(Norm(text)), load, ok);
    DataIsRead(Norms(FramesFrom(text, 0).0), load, ok);
    forall event | event in Upstream(text, broken, load).0
      ensures Writable(event.data)
    {
      assert ok(event.data);
    }
  }

  /** `yield _sse_frame(...)` for each event. */
  method FrameAll(events: seq<WireEvent>, dump: Json -> string) returns (body: string)
    ensures body == SseRoundTrip.Stream(Wire(events, dump))
  {
    body := "";
    for i := 0 to |events|
      invariant body == SseRoundTrip.Stream(Wire(events[..i], dump))
    {
      var frame := SseRoundTrip.Frame(events[i].kind, dump(events[i].data));
      assert Wire(events[..i + 1], dump) == Wire(events[..i], dump) + [frame];
      StreamAppend(Wire(events[..i], dump), frame);
      body := body + SseRoundTrip.SseFrame(frame);
    }
    assert events[..|events|] == events;
  }

  lemma {:induction false} StreamAppend(frames: seq<SseRoundTrip.Frame>, frame: SseRoundTrip.Frame)
    ensures SseRoundTrip.Stream(frames + [frame]) == SseRoundTrip.Stream(frames) + SseRoundTrip.SseFrame(frame)
  {
    if frames == [] {
      assert frames + [frame] == [frame];
      assert |[frame][1..]| == 0;
    } else {
      assert (frames + [frame])[1..] == frames[1..] + [frame];
      StreamAppend(frames[1..], frame);
    }
  }

  /** What a reader of these events may rely on: one `final`, last and valid, no `error`, and
      event types that fit on a line. */
  ghost predicate Delivers(frames: seq<WireEvent>) {
    && frames != []
    && (forall i | 0 <= i < |frames| :: frames[i].kind == "final" <==> i == |frames| - 1)
    && (forall i | 0 <= i < |frames| :: frames[i].kind != "error" && OneLine(frames[i].kind))
    && ValidQueryResponse(frames[|frames| - 1].data)
  }

  lemma RelayDelivers(request: Relay.Request, upstream: seq<WireEvent>, ending: Ending, exception: string,
                      host: Relay.Host)
    requires forall event <- upstream :: OneLine(event.kind)
    ensures Delivers(Relay.Relayed(request, upstream, ending, exception, host))
  {
    Relay.ExactlyOneFinal(request, upstream, ending, exception, host);
    OneFinalDelivers(Relay.Relayed(request, upstream, ending, exception, host), upstream);
  }

  lemma OneFinalDelivers(frames: seq<WireEvent>, upstream: seq<WireEvent>)
    requires Relay.OneFinal(frames, upstream) && forall event <- upstream :: OneLine(event.kind)
    ensures Delivers(frames)
  {
    hide ValidQueryResponse;
    forall i | 0 <= i < |frames|
      ensures OneLine(frames[i].kind)
    {
      if i < |frames| - 1 {
        assert upstream[i] in upstream;
      }
    }
  }

  lemma UnconfiguredDelivers(request: Relay.Request)
    ensures Delivers([WireEvent("final", Relay.Fallback(request, Relay.UNCONFIGURED))])
  {
    Relay.FallbackIsValid(request, Relay.UNCONFIGURED);
    FinalAlone(Relay.Fallback(request, Relay.UNCONFIGURED));
  }

  lemma FinalAlone(data: Json)
    requires ValidQueryResponse(data)
    ensures Delivers([WireEvent("final", data)])
  {
    hide ValidQueryResponse;
    assert "final" != "error" by { assert "final"[0] == 'f' && "error"[0] == 'e'; }
    assert OneLine("final");
  }

  lemma WireCons(events: seq<WireEvent>, dump: Json -> string)
    requires events != []
    ensures Wire(events, dump)[0] == SseRoundTrip.Frame(events[0].kind, dump(events[0].data))
    ensures Wire(events, dump)[1..] == Wire(events[1..], dump)
  {
  }

  // ----- What the browser makes of it -----

  /** What the schema says of a frame as the browser sees it. */
  function Judged<E>(frame: WireEvent, seen: Json -> Json, schema: (string, Json) -> Option<E>): Option<E> {
    schema(frame.kind, seen(frame.data))
  }

  /** The events read are those of the frames in order, up to the first that the schema refuses;
      the reader throws if and only if there is one. */
  ghost predicate ReadsUpToRefusal<E(!new)>(frames: seq<WireEvent>, seen: Json -> Json,
                                            schema: (string, Json) -> Option<E>, events: seq<E>, threw: bool) {
    && |events| <= |frames|
    && (forall i | 0 <= i < |events| :: Judged(frames[i], seen, schema) == Some(events[i]))
    && (threw <==> |events| < |frames|)
    && (threw ==> Judged(frames[|events|], seen, schema) == None)
  }

  lemma ReadsCons<E(!new)>(first: WireEvent, frames: seq<WireEvent>, seen: Json -> Json,
                           schema: (string, Json) -> Option<E>, events: seq<E>, threw: bool)
    requires ReadsUpToRefusal(frames, seen, schema, events, threw)
    ensures match Judged(first, seen, schema)
            case Some(event) => ReadsUpToRefusal([first] + frames, seen, schema, [event] + events, threw)
            case None => ReadsUpToRefusal([first] + frames, seen, schema, [], true)
  {
    hide Judged;
    if Judged(first, seen, schema).Some? {
      var all, read := [first] + frames, [Judged(first, seen, schema).value] + events;
      forall i | 0 <= i < |read|
        ensures Judged(all[i], seen, schema) == Some(read[i])
      {
        if i > 0 {
          assert all[i] == frames[i - 1] && read[i] == events[i - 1];
        }
      }
      assert |events| < |frames| ==> all[|read|] == frames[|events|];
    }
  }

  lemma {:induction false} DecodedInOrder<E(!new)>(events: seq<WireEvent>, dump: Json -> string,
                                                   parse: string -> Option<Json>, seen: Json -> Json,
                                                   schema: (string, Json) -> Option<E>)
    requires Codec(dump, parse, seen) && AllWritable(events)
    ensures var (read, threw) := SseRoundTrip.Decoded(Wire(events, dump), Decoder(parse, schema));
            ReadsUpToRefusal(events, seen, schema, read, threw)
  {
    if events != [] {
      assert Writable(events[0].data) && AllWritable(events[1..]);
      DecodedInOrder(events[1..], dump, parse, seen, schema);
      WireCons(events, dump);
      var (read, threw) := SseRoundTrip.Decoded(Wire(events[1..], dump), Decoder(parse, schema));
      ReadsCons(events[0], events[1..], seen, schema, read, threw);
      assert events == [events[0]] + events[1..];
    }
  }

  /** However the network cuts the body, the browser reads the relayed events in order, up to the
      first that its schema refuses. */
  lemma BrowserReadsTheRelay<E(!new)>(frames: seq<WireEvent>, body: string, cuts: seq<string>, dump: Json -> string,
                                      parse: string -> Option<Json>, seen: Json -> Json,
                                      schema: (string, Json) -> Option<E>)
    requires Codec(dump, parse, seen) && Delivers(frames) && AllWritable(frames)
    requires body == SseRoundTrip.Stream(Wire(frames, dump)) && Concat(cuts) == body
    ensures var (events, threw) := BrowserSse.Yielded(BrowserSse.AllFrames(cuts), Decoder(parse, schema));
            ReadsUpToRefusal(frames, seen, schema, events, threw)
  {
    forall frame | frame in Wire(frames, dump)
      ensures SseRoundTrip.Framable(frame)
    {
      var i :| 0 <= i < |frames| && frame == Wire(frames, dump)[i];
      assert frames[i] in frames && Writable(frames[i].data);
    }
    SseRoundTrip.BrowserRoundTrip(Wire(frames, dump), cuts, Decoder(parse, schema));
    DecodedInOrder(frames, dump, parse, seen, schema);
  }

  /** The whole way: one query is served from the upstream chunks and its body cut anywhere. What
      the browser reads depends on neither cutting: it is what the relay emits, up to the first
      event that the schema refuses. */
  method QueryReachesTheBrowser<E(!new)>(request: Relay.Request, configured: bool, chunks: seq<string>, broken: bool,
                                         exception: string, host: Relay.Host, load: string -> Option<Json>,
                                         dump: Json -> string, parse: string -> Option<Json>,
                                         ghost seen: Json -> Json, schema: (string, Json) -> Option<E>,
                                         cut: string -> seq<string>)
    returns (events: seq<E>, threw: bool)
    requires Codec(dump, parse, seen) && Strict(load) && forall body :: Concat(cut(body)) == body
    ensures var frames := Emitted(request, configured, Concat(chunks), broken, exception, host, load);
            ReadsUpToRefusal(frames, seen, schema, events, threw) && Delivers(frames)
  {
    ghost var frames := Emitted(request, configured, Concat(chunks), broken, exception, host, load);
    var body := ServeQuery(request, configured, chunks, broken, exception, host, load, dump);
    BrowserReadsTheRelay(frames, body, cut(body), dump, parse, seen, schema);
    events, threw := BrowserSse.ParseSseStream(cut(body), Decoder(parse, schema));
  }

  // ----- When the browser reads everything -----

  /** The schema gives an event for exactly the kinds and shapes it knows. */
  ghost predicate Knows<E(!new)>(schema: (string, Json) -> Option<E>) {
    forall kind: string, data: Json :: schema(kind, data).Some? <==> Shown(kind, data)
  }

  /** The reader throws if and only if some relayed event is of no known kind and shape, and then
      at the first such event. */
  lemma ThrowsIffRefused<E(!new)>(frames: seq<WireEvent>, seen: Json -> Json, schema: (string, Json) -> Option<E>,
                                  events: seq<E>, threw: bool)
    requires ReadsUpToRefusal(frames, seen, schema, events, threw) && Faithful(seen) && Knows(schema)
    ensures threw <==> exists i :: 0 <= i < |frames| && !Shown(frames[i].kind, frames[i].data)
    ensures !threw ==> |events| == |frames|
    ensures threw ==> |events| < |frames| && !Shown(frames[|events|].kind, frames[|events|].data)
    ensures forall i | 0 <= i < |events| :: Shown(frames[i].kind, frames[i].data)
  {
    hide Shown, Faithful;
    forall i | 0 <= i < |frames|
      ensures Judged(frames[i], seen, schema).Some? <==> Shown(frames[i].kind, frames[i].data)
    {
      ShownIsStable(frames[i].kind, frames[i].data, seen);
    }
  }

  /** What the upstream must be like: known kinds and shapes before the first terminal, and a
      readable answer if that terminal is a `final`. */
  predicate UpstreamReadable(upstream: seq<WireEvent>) {
    && (forall i | 0 <= i < Relay.Lead(upstream) :: Shown(Relay.Kind(upstream[i]), upstream[i].data))
    && (Relay.Lead(upstream) < |upstream| && Relay.Kind(upstream[Relay.Lead(upstream)]) == "final" ==>
          Delivery.FinalReadable(upstream[Relay.Lead(upstream)].data))
  }

  /** The relayed events are all known exactly then. */
  lemma RelayedShownIff(request: Relay.Request, upstream: seq<WireEvent>, ending: Ending, exception: string,
                        host: Relay.Host)
    ensures var frames := Relay.Relayed(request, upstream, ending, exception, host);
            (forall i | 0 <= i < |frames| :: Shown(frames[i].kind, frames[i].data)) <==> UpstreamReadable(upstream)
  {
    Delivery.ConclusionShownIff(request, upstream, ending, exception, host);
    hide Shown, Delivery.FinalReadable, Relay.Conclusion;
    var frames, k := Relay.Relayed(request, upstream, ending, exception, host), Relay.Lead(upstream);
    assert frames[k] == WireEvent("final", Relay.Conclusion(request, upstream, ending, exception, host));
    forall i | 0 <= i < k
      ensures frames[i].kind == Relay.Kind(upstream[i]) && frames[i].data == upstream[i].data
    {
    }
  }

  /** The browser reads the whole relayed stream, its final included, exactly then. */
  lemma WholeStreamReadIff<E(!new)>(request: Relay.Request, upstream: seq<WireEvent>, ending: Ending, exception: string,
                                    host: Relay.Host, seen: Json -> Json, schema: (string, Json) -> Option<E>,
                                    events: seq<E>, threw: bool)
    requires ReadsUpToRefusal(Relay.Relayed(request, upstream, ending, exception, host), seen, schema, events, threw)
    requires Faithful(seen) && Knows(schema)
    ensures !threw <==> UpstreamReadable(upstream)
  {
    hide Shown, UpstreamReadable, Relay.Relayed, ReadsUpToRefusal, Faithful, Knows;
    ThrowsIffRefused(Relay.Relayed(request, upstream, ending, exception, host), seen, schema, events, threw);
    RelayedShownIff(request, upstream, ending, exception, host);
  }

  // ----- Two streams that the browser does not read -----

  /** The relay passes a kind it does not know; the browser throws on it and never reads the final. */
  lemma UnknownKindHidesTheFinal<E(!new)>(request: Relay.Request, data: Json, host: Relay.Host, seen: Json -> Json,
                                          schema: (string, Json) -> Option<E>, events: seq<E>, threw: bool)
    requires Faithful(seen) && Knows(schema)
    requires ReadsUpToRefusal(Relay.Relayed(request, [WireEvent("ping", Obj([])), WireEvent("final", data)], Completed, "", host),
                              seen, schema, events, threw)
    ensures threw && events == []
  {
    var upstream := [WireEvent("ping", Obj([])), WireEvent("final", data)];
    var frames := Relay.Relayed(request, upstream, Completed, "", host);
    KindsApart();
    assert Relay.Lead(upstream) > 0;
    assert frames[0] == upstream[0];
    ThrowsIffRefused(frames, seen, schema, events, threw);
  }

  /** A fallback with one insight that says `null` for its quote. */
  function NullQuoteAnswer(request: Relay.Request): seq<Field> {
    var insight := Obj([Field("theme", Str("t")), Field("quote", Null)]);
    Put(Relay.Unavailable(request.query, Null, Null, "r"), "answer",
        Obj(Put(Relay.UnavailableAnswer("r"), "insights", Arr([insight]))))
  }

  lemma NullQuoteIsRefused(request: Relay.Request)
    ensures ValidFields(NullQuoteAnswer(request)) && !InsightsWithoutNulls(NullQuoteAnswer(request))
  {
    var insight := Obj([Field("theme", Str("t")), Field("quote", Null)]);
    var answer := Put(Relay.UnavailableAnswer("r"), "insights", Arr([insight]));
    var fields := Relay.Unavailable(request.query, Null, Null, "r");
    hide ValidFields, Shown, IsAnswer, IsInsight, Get, Put, Relay.Unavailable, Relay.UnavailableAnswer;
    Relay.UnavailableIsValid(request.query, Null, Null, "r");
    Relay.EnvelopeHead(request.query, Null, Null, "r");
    NullQuoteInsight(insight);
    NullQuoteAnswerIsValid(insight);
    AnswerMayChange(fields, answer);
    GetAfterPut(Relay.UnavailableAnswer("r"), "insights", Arr([insight]), "insights");
    GetAfterPut(fields, "answer", Obj(answer), "answer");
    NullIsRefused(NullQuoteAnswer(request), answer, insight);
  }

  lemma NullIsRefused(fields: seq<Field>, answer: seq<Field>, insight: Json)
    requires Get(fields, "answer") == Some(Obj(answer))
    requires Get(answer, "insights") == Some(Arr([insight])) && !WithoutNulls(insight)
    ensures !InsightsWithoutNulls(fields)
  {
    hide Get, WithoutNulls;
    assert insight in [insight];
  }

  lemma NullQuoteInsight(insight: Json)
    requires insight == Obj([Field("theme", Str("t")), Field("quote", Null)])
    ensures IsInsight(insight) && !WithoutNulls(insight)
  {
    var a, b := Field("theme", Str("t")), Field("quote", Null);
    assert [a, b] == [a] + ([b] + []);
    forall key: string
      ensures Get([a, b], key) == if key == "theme" then Some(a.value) else if key == "quote" then Some(Null) else None
    {
      GetCons(a, [b] + [], key);
      GetCons(b, [], key);
    }
    assert |"theme"| == 5 && "theme"[0] == 't' && "quote"[0] == 'q' && |"date"| == 4;
    assert |"interpretation"| == 14 && |"evidence_refs"| == 13;
  }

  lemma NullQuoteAnswerIsValid(insight: Json)
    requires IsInsight(insight)
    ensures var answer := Put(Relay.UnavailableAnswer("r"), "insights", Arr([insight]));
            IsAnswer(Obj(answer)) && Get(answer, "mode") == Some(Str("UNAVAILABLE"))
  {
    Relay.UnavailableAnswerIsValid("r");
    Relay.AnswerKeys();
    var base, list := Relay.UnavailableAnswer("r"), Arr([insight]);
    GetAfterPut(base, "insights", list, "mode");
    GetAfterPut(base, "insights", list, "reason");
    GetAfterPut(base, "insights", list, "summary");
    GetAfterPut(base, "insights", list, "insights");
    GetAfterPut(base, "insights", list, "gap");
    GetAfterPut(base, "insights", list, "suggestions");
    hide Relay.UnavailableAnswer, Put, Get, IsInsight;
  }

  /** An envelope stays valid under another answer of the same mode. */
  lemma AnswerMayChange(fields: seq<Field>, answer: seq<Field>)
    requires ValidFields(fields) && IsAnswer(Obj(answer)) && Get(answer, "mode") == Get(fields, "mode")
    ensures ValidFields(Put(fields, "answer", Obj(answer)))
  {
    var f := Put(fields, "answer", Obj(answer));
    Relay.EnvelopeKeys();
    GetAfterPut(fields, "answer", Obj(answer), "schema_version");
    GetAfterPut(fields, "answer", Obj(answer), "request_id");
    GetAfterPut(fields, "answer", Obj(answer), "conversation_id");
    GetAfterPut(fields, "answer", Obj(answer), "source");
    GetAfterPut(fields, "answer", Obj(answer), "mode");
    GetAfterPut(fields, "answer", Obj(answer), "reason");
    GetAfterPut(fields, "answer", Obj(answer), "query");
    GetAfterPut(fields, "answer", Obj(answer), "answer");
    GetAfterPut(fields, "answer", Obj(answer), "evidence");
    GetAfterPut(fields, "answer", Obj(answer), "tool_trace");
    hide Put, Get, IsAnswer, IsEvidenceList, IsObjectList;
  }

  /** Valid for the backend, refused by the browser: the one event of the stream throws. */
  lemma NullQuoteHidesTheFinal<E(!new)>(request: Relay.Request, host: Relay.Host, seen: Json -> Json,
                                        schema: (string, Json) -> Option<E>, events: seq<E>, threw: bool)
    requires Faithful(seen) && Knows(schema)
    requires ReadsUpToRefusal(Relay.Relayed(request, [WireEvent("final", Obj(NullQuoteAnswer(request)))], Completed, "", host),
                              seen, schema, events, threw)
    ensures ValidFields(NullQuoteAnswer(request)) && threw && events == []
  {
    hide NullQuoteAnswer, ValidFields, InsightsWithoutNulls, Relay.Conclusion, Faithful, Knows;
    var upstream := [WireEvent("final", Obj(NullQuoteAnswer(request)))];
    NullQuoteIsRefused(request);
    assert Relay.Lead(upstream) == 0;
    WholeStreamReadIff(request, upstream, Completed, "", host, seen, schema, events, threw);
  }
}
