/** `streamChat` of src/lib/pythonApi.ts: one streaming session against the
    chat endpoint, from the `fetch` outcome to the callbacks it makes.

    The response body arrives as already-decoded text chunks. The line buffer
    (module `SseBuffer`) cuts complete lines; each is read by `Kind`: strip one
    `\r`, then skip comments, blanks and non-`data: ` lines, stop at
    `[DONE]`, or hand the trimmed payload to `JSON.parse`. When the chunks run
    out, a final flush reads whatever is left in the buffer. The callbacks
    `onDelta`, `onDone` and `onError` become a list of events. */
module StreamChat {
  import opened Wrappers
  import opened Text
  import opened SsePayload
  import opened SseBuffer
  import Seqs

  const DataPrefix: string := "data: "
  const DoneSentinel: string := "[DONE]"

  /** The line classification shared by the read loop and the final flush. */
  function Classify(line: string): LineKind {
    if StartsWith(line, ":") || Trim(line) == "" then Skip
    else if !StartsWith(line, DataPrefix) then Skip
    else
      var json := Trim(line[|DataPrefix|..]);
      if json == DoneSentinel then Sentinel else Data(json)
  }

  /** The comment and blank tests are subsumed by the `data: ` prefix test:
      a line is skipped exactly when it lacks the prefix; otherwise what
      counts is the rest of the line after six characters, trimmed. */
  lemma ClassifySpec(line: string)
    ensures Classify(line) ==
      if !StartsWith(line, DataPrefix) then Skip
      else if Trim(line[|DataPrefix|..]) == DoneSentinel then Sentinel
      else Data(Trim(line[|DataPrefix|..]))
  {
    if StartsWith(line, DataPrefix) {
      assert line[0] == 'd';
      assert !IsBlank(line);
    }
  }

  /** Stripping one carriage return never changes how a line is classified. */
  lemma ClassifyStripCR(line: string)
    ensures Classify(StripCR(line)) == Classify(line)
  {
    if EndsWith(line, "\r") {
      var m := StripCR(line);
      assert line == m + "\r";
      ClassifySpec(line);
      ClassifySpec(m);
      if |m| >= |DataPrefix| {
        PrefixCR(m);
      } else if |line| >= |DataPrefix| {
        assert line[|DataPrefix| - 1] == '\r';
        assert !StartsWith(line, DataPrefix);
      }
    }
  }

  lemma PrefixCR(m: string)
    requires |m| >= |DataPrefix|
    ensures StartsWith(m + "\r", DataPrefix) <==> StartsWith(m, DataPrefix)
    ensures Trim((m + "\r")[|DataPrefix|..]) == Trim(m[|DataPrefix|..])
  {
    var line := m + "\r";
    assert line[..|DataPrefix|] == m[..|DataPrefix|];
    assert line[|DataPrefix|..] == m[|DataPrefix|..] + "\r";
    TrimAppendBlank(m[|DataPrefix|..], '\r');
  }

  /** How `streamChat` reads one raw line: strip a `\r`, then classify. */
  function Kind(raw: string): LineKind {
    Classify(StripCR(raw))
  }

  /** The source's reading meets what the buffer lemmas assume of a line reading. */
  lemma KindIsRegular()
    ensures IgnoresCR(Kind)
    ensures SkipsBlank(Kind)
  {
    forall raw
      ensures Kind(StripCR(raw)) == Kind(raw)
    {
      ClassifyStripCR(StripCR(raw));
    }
    forall l | IsBlank(l)
      ensures Kind(l) == Skip
    {
      var r := StripCR(l);
      if r != l {
        BlankAppend(r, "\r");
      }
      assert Trim(r) == "";
    }
  }

  /** The lines of the final flush: `if (!raw) continue`, then the same reading. */
  function FlushLines(lines: seq<string>, parse: Parser): (ds: seq<string>)
    ensures forall k :: 0 <= k < |ds| ==> ds[k] != ""
    decreases |lines|
  {
    if |lines| == 0 then []
    else
      var here := if lines[0] == "" then [] else LineDelta(lines[0], Kind, parse);
      here + FlushLines(lines[1..], parse)
  }

  /** The final flush: `if (textBuffer.trim())`, then every `split('\n')` piece. */
  function Flush(buffer: string, parse: Parser): (ds: seq<string>)
    ensures forall k :: 0 <= k < |ds| ==> ds[k] != ""
  {
    if Trim(buffer) == "" then [] else FlushLines(Split(buffer, '\n'), parse)
  }

  lemma {:induction false} FlushLinesAreLinesDeltas(lines: seq<string>, parse: Parser)
    ensures FlushLines(lines, parse) == LinesDeltas(lines, Kind, parse)
    decreases |lines|
  {
    if |lines| > 0 {
      FlushLinesAreLinesDeltas(lines[1..], parse);
      assert Kind("") == Skip;
    }
  }

  /** The `textBuffer.trim()` and `!raw` guards of the final flush change
      nothing: the flush delivers exactly the reference deltas of the buffer. */
  lemma FlushIsAllDeltas(buffer: string, parse: Parser)
    ensures Flush(buffer, parse) == AllDeltas(buffer, Kind, parse)
  {
    KindIsRegular();
    if Trim(buffer) == "" {
      BlankNoDeltas(buffer, Kind, parse);
    } else {
      FlushLinesAreLinesDeltas(Split(buffer, '\n'), parse);
    }
  }

  /** A thrown value and the message `onError` receives for it. */
  datatype Thrown = ThrownError(message: string) | ThrownOther

  /** `error instanceof Error ? error.message : 'Connection failed'`. */
  function ThrownMessage(t: Thrown): string {
    match t
    case ThrownError(m) => m
    case ThrownOther => "Connection failed"
  }

  /** The body of a failed response as `resp.json()` leaves it: unreadable
      (the `.catch` substitutes `{ error: 'Request failed' }`); the JSON
      `null`, whose `.error` throws a `TypeError` carrying the engine's
      message; or any other JSON value, of which only `error` and `detail`
      matter (a falsy or missing property, or a non-object body, reads as
      `Absent`). */
  datatype ErrorBody = Unreadable | NullJson(typeError: string) | ErrorJson(error: Field, detail: Field)

  /** The decoded chunks of a response body, and what the read after the
      last chunk does: report the end (`None`) or throw. */
  datatype Body = Body(chunks: seq<string>, fault: Option<Thrown>)

  /** What `fetch` gives back. */
  datatype Response =
    | FetchFailed(thrown: Thrown)
    | NotOk(status: nat, errorBody: ErrorBody)
    | NoBody
    | Streamed(body: Body)

  /** The callbacks, in the order they fire. */
  datatype Event = Delta(text: string) | Done | Error(message: string)

  /** JavaScript truthiness of a field. */
  predicate Truthy(f: Field) {
    f.Str? && f.s != ""
  }

  /** The message `onError` receives for a failed response:
      `errorData.error || errorData.detail || \`Request failed with status ${status}\``,
      where an unreadable body reads as `{ error: 'Request failed' }`, and a
      `null` body throws and reaches `onError` through the outer `catch`. */
  function NotOkMessage(status: nat, body: ErrorBody): (m: string)
    ensures body.Unreadable? ==> m == "Request failed"
    ensures body.NullJson? ==> m == ThrownMessage(ThrownError(body.typeError))
    ensures body.ErrorJson? && Truthy(body.error) ==> m == body.error.s
    ensures body.ErrorJson? && !Truthy(body.error) && Truthy(body.detail) ==> m == body.detail.s
    ensures body.ErrorJson? && !Truthy(body.error) && !Truthy(body.detail) ==>
      m == "Request failed with status " + NatToString(status)
  {
    if body.NullJson? then ThrownMessage(ThrownError(body.typeError))
    else
      var data := if body.Unreadable? then ErrorJson(Str("Request failed"), Absent) else body;
      if Truthy(data.error) then data.error.s
      else if Truthy(data.detail) then data.detail.s
      else "Request failed with status " + NatToString(status)
  }

  /** With no usable `error` or `detail`, the message ends in the status
      exactly as a template string prints it: its decimal numeral. */
  lemma NotOkStatusText(status: nat, body: ErrorBody, numeral: string)
    requires body.ErrorJson? && !Truthy(body.error) && !Truthy(body.detail)
    requires IsNumeral(numeral) && DecimalValue(numeral) == status
    ensures NotOkMessage(status, body) == "Request failed with status " + numeral
  {
    NumeralIsUnique(numeral, status);
  }

  function DeltaEvents(ds: seq<string>): (es: seq<Event>)
    ensures |es| == |ds|
    ensures forall i :: 0 <= i < |ds| ==> es[i] == Delta(ds[i])
  {
    Seqs.Map(ds, (d: string) => Delta(d))
  }

  /** One streaming session: every callback `streamChat` makes, in order. */
  function Session(resp: Response, parse: Parser): (events: seq<Event>)
    ensures |events| >= 1 && !events[|events| - 1].Delta?
    ensures forall i :: 0 <= i < |events| - 1 ==> events[i].Delta? && events[i].text != ""
    ensures resp.FetchFailed? ==> events == [Error(ThrownMessage(resp.thrown))]
    ensures resp.NotOk? ==> events == [Error(NotOkMessage(resp.status, resp.errorBody))]
    ensures resp.NoBody? ==> events == [Error("No response body")]
    ensures resp.Streamed? && resp.body.fault.None? ==> events[|events| - 1] == Done
  {
    match resp
    case FetchFailed(t) => [Error(ThrownMessage(t))]
    case NotOk(status, body) => [Error(NotOkMessage(status, body))]
    case NoBody => [Error("No response body")]
    case Streamed(Body(chunks, fault)) =>
      var l := ReadLoop(chunks, "", Kind, parse);
      if !l.stopped && fault.Some? then
        DeltaEvents(l.deltas) + [Error(ThrownMessage(fault.value))]
      else
        DeltaEvents(l.deltas + Flush(l.buffer, parse)) + [Done]
  }

  /** How a streamed session ends when the body reads to its end, or when
      `[DONE]` came first: the loop's deltas, the flush's deltas, `onDone`. */
  lemma SessionCompletes(chunks: seq<string>, fault: Option<Thrown>, parse: Parser)
    requires fault.None? || ReadLoop(chunks, "", Kind, parse).stopped
    ensures Session(Streamed(Body(chunks, fault)), parse)
         == DeltaEvents(ReadLoop(chunks, "", Kind, parse).deltas + Flush(ReadLoop(chunks, "", Kind, parse).buffer, parse)) + [Done]
  {
  }

  /** A read that throws before `[DONE]` ends the session with `onError`
      after the deltas the loop had delivered; the flush never runs. */
  lemma SessionFaults(chunks: seq<string>, thrown: Thrown, parse: Parser)
    requires !ReadLoop(chunks, "", Kind, parse).stopped
    ensures Session(Streamed(Body(chunks, Some(thrown))), parse)
         == DeltaEvents(ReadLoop(chunks, "", Kind, parse).deltas) + [Error(ThrownMessage(thrown))]
  {
  }

  /** A fault-free stream in which nothing but blanks follows `[DONE]`
      delivers exactly the deltas of one pass over its whole text, then `onDone`. */
  lemma SessionIsOnePass(chunks: seq<string>, parse: Parser)
    requires QuietAfterDone(Seqs.Concat(chunks), Kind)
    ensures Session(Streamed(Body(chunks, None)), parse)
         == DeltaEvents(AllDeltas(Seqs.Concat(chunks), Kind, parse)) + [Done]
  {
    var l := ReadLoop(chunks, "", Kind, parse);
    assert "" + Seqs.Concat(chunks) == Seqs.Concat(chunks);
    KindIsRegular();
    ReadLoopKeepsText(chunks, "", Kind, parse);
    FlushIsAllDeltas(l.buffer, parse);
    SessionCompletes(chunks, None, parse);
  }

  /** Chunk-split invariance: where the chunk boundaries fall does not matter. */
  lemma ChunkSplitInvariance(chunks1: seq<string>, chunks2: seq<string>, parse: Parser)
    requires Seqs.Concat(chunks1) == Seqs.Concat(chunks2)
    requires QuietAfterDone(Seqs.Concat(chunks1), Kind)
    ensures Session(Streamed(Body(chunks1, None)), parse) == Session(Streamed(Body(chunks2, None)), parse)
  {
    SessionIsOnePass(chunks1, parse);
    SessionIsOnePass(chunks2, parse);
  }

  /** `[DONE]` stops the reading: once seen, neither later chunks nor a
      later network failure make any difference. */
  lemma DoneStopsReading(chunks: seq<string>, more: seq<string>, fault: Option<Thrown>, parse: Parser)
    requires ReadLoop(chunks, "", Kind, parse).stopped
    ensures Session(Streamed(Body(chunks + more, fault)), parse) == Session(Streamed(Body(chunks, None)), parse)
  {
    ReadLoopStops(chunks, more, "", Kind, parse);
    SessionCompletes(chunks + more, fault, parse);
    SessionCompletes(chunks, None, parse);
  }

  /** Once a complete frame fails to parse, the read loop delivers nothing
      more and never honours a later `[DONE]`: every further chunk only
      reaches the final flush. */
  lemma ParseFailureStalls(chunks: seq<string>, more: seq<string>, parse: Parser)
    requires !ReadLoop(chunks, "", Kind, parse).stopped
    requires Blocked(ReadLoop(chunks, "", Kind, parse).buffer, Kind, parse)
    ensures ReadLoop(chunks + more, "", Kind, parse).deltas == ReadLoop(chunks, "", Kind, parse).deltas
    ensures !ReadLoop(chunks + more, "", Kind, parse).stopped
  {
    var l := ReadLoop(chunks, "", Kind, parse);
    KindIsRegular();
    ReadLoopAppend(chunks, more, "", Kind, parse);
    ReadLoopBlocked(more, l.buffer, Kind, parse);
    assert l.deltas + [] == l.deltas;
  }

  /** A frame payload as a server writes it: non-empty, already trimmed,
      on one line, and not the sentinel. */
  predicate IsFramePayload(p: string) {
    p != "" && IsTrimmed(p) && '\n' !in p && p != DoneSentinel
  }

  /** A written frame line reads back as its payload. */
  lemma FrameLine(p: string)
    requires IsFramePayload(p)
    ensures Kind(DataPrefix + p) == Data(p)
  {
    var line := DataPrefix + p;
    assert line[|line| - 1] == p[|p| - 1];
    assert StripCR(line) == line;
    assert line[..|DataPrefix|] == DataPrefix;
    assert line[|DataPrefix|..] == p;
    TrimOfTrimmed(p);
    ClassifySpec(line);
  }

  lemma FramesAreRead(payloads: seq<string>)
    requires forall k :: 0 <= k < |payloads| ==> IsFramePayload(payloads[k])
    ensures ReadsFrames(payloads, Kind)
  {
    forall k | 0 <= k < |payloads|
      ensures Kind(DataPrefix + payloads[k]) == Data(payloads[k])
    {
      FrameLine(payloads[k]);
    }
    KindIsRegular();
    assert IsBlank("");
  }

  /** The complete body a server sends: the frames, then `data: [DONE]\n\n`. */
  function ServerText(payloads: seq<string>): string {
    FramesText(payloads) + DataPrefix + DoneSentinel + "\n\n"
  }

  /** The sentinel line reads as `[DONE]`. */
  lemma DoneLine()
    ensures '\n' !in DataPrefix + DoneSentinel
    ensures Kind(DataPrefix + DoneSentinel) == Sentinel
  {
    var done := DataPrefix + DoneSentinel;
    NotInAppend(DataPrefix, DoneSentinel, '\n');
    assert done[|done| - 1] == ']';
    assert StripCR(done) == done;
    assert done[..|DataPrefix|] == DataPrefix;
    assert done[|DataPrefix|..] == DoneSentinel;
    TrimOfTrimmed(DoneSentinel);
    ClassifySpec(done);
  }

  /** Round trip: however the server's body is cut into chunks, the session
      delivers each non-empty payload text once, in order, then `onDone`. */
  lemma ServerStreamRoundTrip(chunks: seq<string>, payloads: seq<string>, parse: Parser)
    requires forall k :: 0 <= k < |payloads| ==> IsFramePayload(payloads[k])
    requires Seqs.Concat(chunks) == ServerText(payloads)
    ensures Session(Streamed(Body(chunks, None)), parse) == DeltaEvents(PayloadDeltas(payloads, parse)) + [Done]
  {
    var tail := DataPrefix + DoneSentinel + "\n\n";
    AppendAssoc(FramesText(payloads), DataPrefix + DoneSentinel, "\n\n");
    AppendAssoc(FramesText(payloads), DataPrefix, DoneSentinel);
    assert ServerText(payloads) == FramesText(payloads) + tail;
    DoneLine();
    FramesAreRead(payloads);
    SentinelTail(DataPrefix + DoneSentinel, Kind, parse);
    FramesReadBack(payloads, tail, Kind, parse);
    FramesQuiet(payloads, tail, Kind);
    SessionIsOnePass(chunks, parse);
    assert PayloadDeltas(payloads, parse) + [] == PayloadDeltas(payloads, parse);
  }

  /** A last frame cut off before its newline is still delivered by the final flush. */
  lemma TruncatedLastFrame(chunks: seq<string>, payloads: seq<string>, last: string, parse: Parser)
    requires forall k :: 0 <= k < |payloads| ==> IsFramePayload(payloads[k])
    requires IsFramePayload(last)
    requires Seqs.Concat(chunks) == FramesText(payloads) + DataPrefix + last
    ensures Session(Streamed(Body(chunks, None)), parse)
         == DeltaEvents(PayloadDeltas(payloads, parse) + DeltaOf(parse(last))) + [Done]
  {
    var tail := DataPrefix + last;
    FrameLine(last);
    NotInAppend(DataPrefix, last, '\n');
    SingleLine(tail, Kind, parse);
    FramesAreRead(payloads);
    FramesReadBack(payloads, tail, Kind, parse);
    FramesQuiet(payloads, tail, Kind);
    AppendAssoc(FramesText(payloads), DataPrefix, last);
    SessionIsOnePass(chunks, parse);
  }

  /** The two chunks of `SplitHelloFrame` are a server's body with one frame. */
  lemma HelloChunks(chunks: seq<string>)
    requires chunks == ["data: {\"content\":\"Hel", "lo\"}\n\ndata: [DONE]\n\n"]
    ensures Seqs.Concat(chunks) == ServerText(["{\"content\":\"Hello\"}"])
  {
    HelloJoined(chunks);
    HelloServerText();
  }

  lemma HelloJoined(chunks: seq<string>)
    requires chunks == ["data: {\"content\":\"Hel", "lo\"}\n\ndata: [DONE]\n\n"]
    ensures Seqs.Concat(chunks) == "data: {\"content\":\"Hello\"}\n\n" + "data: [DONE]\n\n"
  {
    var rest, done := "lo\"}\n\n", "data: [DONE]\n\n";
    assert Seqs.Concat(chunks[1..]) == chunks[1] + Seqs.Concat(chunks[2..]);
    assert Seqs.Concat(chunks) == chunks[0] + chunks[1];
    assert chunks[1] == rest + done;
    AppendAssoc(chunks[0], rest, done);
  }

  lemma HelloServerText()
    ensures ServerText(["{\"content\":\"Hello\"}"]) == "data: {\"content\":\"Hello\"}\n\n" + "data: [DONE]\n\n"
  {
    var p := "{\"content\":\"Hello\"}";
    var frame := "data: {\"content\":\"Hello\"}\n\n";
    assert DataPrefix + p + "\n\n" == frame;
    assert FramesText([p]) == frame + FramesText([]);
    assert DataPrefix + DoneSentinel + "\n\n" == "data: [DONE]\n\n";
    AppendAssoc(frame, DataPrefix, DoneSentinel);
    AppendAssoc(frame, DataPrefix + DoneSentinel, "\n\n");
  }

  lemma HelloPayload()
    ensures IsFramePayload("{\"content\":\"Hello\"}")
  {
    var p := "{\"content\":\"Hello\"}";
    assert p[0] == '{' && p[|p| - 1] == '}';
    assert forall i :: 0 <= i < |p| ==> p[i] != '\n';
    assert p[0] != DoneSentinel[0];
  }

  /** The frame `{"content":"Hello"}` split inside its JSON across two
      chunks gives one `onDelta("Hello")` and then one `onDone()`. */
  lemma SplitHelloFrame(chunks: seq<string>, parse: Parser)
    requires chunks == ["data: {\"content\":\"Hel", "lo\"}\n\ndata: [DONE]\n\n"]
    requires parse("{\"content\":\"Hello\"}") == Parsed(Absent, Str("Hello"), Absent)
    ensures Session(Streamed(Body(chunks, None)), parse) == [Delta("Hello"), Done]
  {
    var p := "{\"content\":\"Hello\"}";
    HelloChunks(chunks);
    HelloPayload();
    ServerStreamRoundTrip(chunks, [p], parse);
    assert DeltaOf(parse(p)) == ["Hello"];
    assert PayloadDeltas([p], parse) == ["Hello"] + PayloadDeltas([], parse);
    assert DeltaEvents(["Hello"]) == [Delta("Hello")];
  }
}
