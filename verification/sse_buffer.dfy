/** The line buffer of `streamChat` in src/lib/pythonApi.ts.

    Decoded chunks are appended to a text buffer; complete `\n`-terminated
    lines are cut off its front and read one by one. How a single line is
    read (comment, blank, frame, `[DONE]`) is a parameter `kind` here, so that
    the buffer lemmas hold for every line reading that ignores one trailing
    `\r` and skips blank lines; the reading the source uses is
    `StreamChat.Kind`. */
module SseBuffer {
  import opened Text
  import opened SsePayload
  import Seqs

  /** How the read loop treats one line. */
  datatype LineKind = Skip | Sentinel | Data(json: string)

  /** A reading of raw (not yet `\r`-stripped) lines. */
  type LineReader = string -> LineKind

  /** `if (line.endsWith('\r')) line = line.slice(0, -1)`. */
  function StripCR(line: string): (r: string)
    ensures r == line || line == r + "\r"
    ensures '\n' !in line ==> '\n' !in r
  {
    if EndsWith(line, "\r") then line[..|line| - 1] else line
  }

  /** A reading that ignores one trailing `\r`. */
  ghost predicate IgnoresCR(kind: LineReader) {
    forall raw :: kind(StripCR(raw)) == kind(raw)
  }

  /** A reading that skips lines of whitespace only. */
  ghost predicate SkipsBlank(kind: LineReader) {
    forall l :: IsBlank(l) ==> kind(l) == Skip
  }

  /** The delta one line contributes when it is read on its own: `[DONE]`
      and unparsable frames contribute nothing. */
  function LineDelta(raw: string, kind: LineReader, parse: Parser): seq<string> {
    match kind(raw)
    case Data(json) => DeltaOf(parse(json))
    case _ => []
  }

  function LinesDeltas(lines: seq<string>, kind: LineReader, parse: Parser): seq<string>
    decreases |lines|
  {
    if |lines| == 0 then [] else LineDelta(lines[0], kind, parse) + LinesDeltas(lines[1..], kind, parse)
  }

  /** The reference: the deltas of every line of a text read in one pass. */
  function AllDeltas(t: string, kind: LineReader, parse: Parser): seq<string> {
    LinesDeltas(Split(t, '\n'), kind, parse)
  }

  lemma {:induction false} LinesDeltasNonEmpty(lines: seq<string>, kind: LineReader, parse: Parser)
    ensures forall k :: 0 <= k < |LinesDeltas(lines, kind, parse)| ==> LinesDeltas(lines, kind, parse)[k] != ""
    decreases |lines|
  {
    if |lines| > 0 {
      LinesDeltasNonEmpty(lines[1..], kind, parse);
    }
  }

  /** Cutting one complete line off the front of a text. */
  lemma AllDeltasCut(a: string, b: string, kind: LineReader, parse: Parser)
    requires '\n' !in a
    ensures AllDeltas(a + "\n" + b, kind, parse) == LineDelta(a, kind, parse) + AllDeltas(b, kind, parse)
  {
    IndexOfAfter(a, '\n', b);
    var parts := Split(a + "\n" + b, '\n');
    assert parts == [a] + Split(b, '\n');
    assert parts[1..] == Split(b, '\n');
  }

  /** A text of whitespace only contributes nothing. */
  lemma {:induction false} BlankNoDeltas(t: string, kind: LineReader, parse: Parser)
    requires SkipsBlank(kind)
    requires IsBlank(t)
    ensures AllDeltas(t, kind, parse) == []
    decreases |t|
  {
    var i := IndexOf(t, '\n');
    if i < 0 {
      assert Split(t, '\n') == [t];
      assert kind(t) == Skip;
      assert AllDeltas(t, kind, parse) == LineDelta(t, kind, parse) + LinesDeltas([t][1..], kind, parse);
      assert [t][1..] == [];
    } else {
      assert t == t[..i] + "\n" + t[i + 1..];
      BlankAppend(t[..i] + "\n", t[i + 1..]);
      BlankAppend(t[..i], "\n");
      assert kind(t[..i]) == Skip;
      BlankNoDeltas(t[i + 1..], kind, parse);
      AllDeltasCut(t[..i], t[i + 1..], kind, parse);
    }
  }

  /** The buffer's first line is a frame whose payload does not parse. */
  predicate Blocked(buffer: string, kind: LineReader, parse: Parser) {
    var i := IndexOf(buffer, '\n');
    && 0 <= i
    && kind(buffer[..i]).Data?
    && parse(kind(buffer[..i]).json).ParseFail?
  }

  /** What the inner loop leaves behind: the deltas it delivered, the
      buffer, and whether it saw `[DONE]`. */
  datatype Drained = Drained(deltas: seq<string>, buffer: string, stopped: bool)

  /** The inner `while` loop over the buffer after one chunk was appended:
      cut the first line; skip it, stop at `[DONE]`, deliver its delta, or,
      when its payload does not parse, put the `\r`-stripped line back and
      leave the loop. */
  function Drain(buffer: string, kind: LineReader, parse: Parser): (r: Drained)
    ensures forall k :: 0 <= k < |r.deltas| ==> r.deltas[k] != ""
    ensures |r.buffer| <= |buffer|
    decreases |buffer|
  {
    var i := IndexOf(buffer, '\n');
    if i < 0 then Drained([], buffer, false)
    else
      var raw := buffer[..i];
      var rest := buffer[i + 1..];
      match kind(raw)
      case Skip => Drain(rest, kind, parse)
      case Sentinel => Drained([], rest, true)
      case Data(json) =>
        var p := parse(json);
        if p.ParseFail? then Drained([], StripCR(raw) + "\n" + rest, false)
        else
          var d := Drain(rest, kind, parse);
          d.(deltas := DeltaOf(p) + d.deltas)
  }

  /** The inner loop ends in one of three ways: at `[DONE]`, with no
      complete line left, or blocked on an unparsable frame. */
  lemma {:induction false} DrainLeavesNoCompleteLine(t: string, kind: LineReader, parse: Parser)
    requires IgnoresCR(kind)
    ensures !Drain(t, kind, parse).stopped ==>
      '\n' !in Drain(t, kind, parse).buffer || Blocked(Drain(t, kind, parse).buffer, kind, parse)
    decreases |t|
  {
    var i := IndexOf(t, '\n');
    if 0 <= i {
      var raw := t[..i];
      var rest := t[i + 1..];
      match kind(raw)
      case Skip =>
        DrainLeavesNoCompleteLine(rest, kind, parse);
      case Sentinel =>
      case Data(json) =>
        if parse(json).ParseFail? {
          IndexOfAfter(StripCR(raw), '\n', rest);
          assert kind(StripCR(raw)) == kind(raw);
        } else {
          DrainLeavesNoCompleteLine(rest, kind, parse);
        }
    }
  }

  /** The buffer invariant: no delivered or buffered text is lost or
      repeated, whatever text is appended later. Delivered deltas followed by
      the reference reading of the remaining buffer equal the reference
      reading of the original buffer. */
  lemma {:induction false} DrainKeepsText(t: string, x: string, kind: LineReader, parse: Parser)
    requires IgnoresCR(kind)
    ensures Drain(t, kind, parse).deltas + AllDeltas(Drain(t, kind, parse).buffer + x, kind, parse)
         == AllDeltas(t + x, kind, parse)
    decreases |t|, 1
  {
    if 0 <= IndexOf(t, '\n') {
      KeepsTextStep(t, x, kind, parse);
    } else {
      var s := AllDeltas(t + x, kind, parse);
      assert Drain(t, kind, parse) == Drained([], t, false);
      assert [] + s == s;
    }
  }

  /** The inductive step of `DrainKeepsText`, by how the first line reads. */
  lemma {:induction false} KeepsTextStep(t: string, x: string, kind: LineReader, parse: Parser)
    requires IgnoresCR(kind)
    requires 0 <= IndexOf(t, '\n')
    ensures Drain(t, kind, parse).deltas + AllDeltas(Drain(t, kind, parse).buffer + x, kind, parse)
         == AllDeltas(t + x, kind, parse)
    decreases |t|, 0
  {
    var i := IndexOf(t, '\n');
    var k := kind(t[..i]);
    if k.Sentinel? {
      KeepsTextStopped(t, x, kind, parse);
    } else if k.Data? && parse(k.json).ParseFail? {
      KeepsTextPushedBack(t, x, kind, parse);
    } else {
      DrainKeepsText(t[i + 1..], x, kind, parse);
      KeepsTextPassing(t, x, kind, parse);
    }
  }

  /** One turn of the inner loop, by how the first complete line reads. */
  lemma DrainStep(t: string, kind: LineReader, parse: Parser)
    requires 0 <= IndexOf(t, '\n')
    ensures var i := IndexOf(t, '\n');
      && (kind(t[..i]).Skip? ==> Drain(t, kind, parse) == Drain(t[i + 1..], kind, parse))
      && (kind(t[..i]).Sentinel? ==> Drain(t, kind, parse) == Drained([], t[i + 1..], true))
      && (kind(t[..i]).Data? && parse(kind(t[..i]).json).ParseFail? ==>
            Drain(t, kind, parse) == Drained([], StripCR(t[..i]) + "\n" + t[i + 1..], false))
      && (kind(t[..i]).Data? && parse(kind(t[..i]).json).Parsed? ==>
            Drain(t, kind, parse) == Drain(t[i + 1..], kind, parse).(deltas :=
              LineDelta(t[..i], kind, parse) + Drain(t[i + 1..], kind, parse).deltas))
  {
  }

  /** The step of `DrainKeepsText` for a first line that is skipped or delivered. */
  lemma KeepsTextPassing(t: string, x: string, kind: LineReader, parse: Parser)
    requires 0 <= IndexOf(t, '\n')
    requires kind(t[..IndexOf(t, '\n')]).Skip? ||
      (kind(t[..IndexOf(t, '\n')]).Data? && parse(kind(t[..IndexOf(t, '\n')]).json).Parsed?)
    requires Drain(t[IndexOf(t, '\n') + 1..], kind, parse).deltas
           + AllDeltas(Drain(t[IndexOf(t, '\n') + 1..], kind, parse).buffer + x, kind, parse)
          == AllDeltas(t[IndexOf(t, '\n') + 1..] + x, kind, parse)
    ensures Drain(t, kind, parse).deltas + AllDeltas(Drain(t, kind, parse).buffer + x, kind, parse)
         == AllDeltas(t + x, kind, parse)
  {
    var i := IndexOf(t, '\n');
    var d := Drain(t[i + 1..], kind, parse);
    CutAt(t, '\n', x);
    AllDeltasCut(t[..i], t[i + 1..] + x, kind, parse);
    DrainStep(t, kind, parse);
    assert Drain(t, kind, parse) == d.(deltas := LineDelta(t[..i], kind, parse) + d.deltas);
    AppendAssoc(LineDelta(t[..i], kind, parse), d.deltas, AllDeltas(d.buffer + x, kind, parse));
  }

  /** The step of `DrainKeepsText` for a first line that is `[DONE]`. */
  lemma KeepsTextStopped(t: string, x: string, kind: LineReader, parse: Parser)
    requires 0 <= IndexOf(t, '\n')
    requires kind(t[..IndexOf(t, '\n')]).Sentinel?
    ensures Drain(t, kind, parse).deltas + AllDeltas(Drain(t, kind, parse).buffer + x, kind, parse)
         == AllDeltas(t + x, kind, parse)
  {
    var i := IndexOf(t, '\n');
    CutAt(t, '\n', x);
    AllDeltasCut(t[..i], t[i + 1..] + x, kind, parse);
    DrainStep(t, kind, parse);
  }

  /** The inner loop's push-back: a first line that does not parse goes back
      in front of the rest, without its `\r`, and the loop breaks. */
  lemma DrainPushesBack(t: string, kind: LineReader, parse: Parser)
    requires 0 <= IndexOf(t, '\n')
    requires kind(t[..IndexOf(t, '\n')]).Data? && parse(kind(t[..IndexOf(t, '\n')]).json).ParseFail?
    ensures Drain(t, kind, parse)
         == Drained([], StripCR(t[..IndexOf(t, '\n')]) + "\n" + t[IndexOf(t, '\n') + 1..], false)
  {
    DrainStep(t, kind, parse);
  }

  /** Two lines read alike give the same one-pass reading in front of the same text. */
  lemma SameFirstLine(a: string, b: string, rest: string, kind: LineReader, parse: Parser)
    requires '\n' !in a && '\n' !in b && kind(a) == kind(b)
    ensures AllDeltas(a + "\n" + rest, kind, parse) == AllDeltas(b + "\n" + rest, kind, parse)
  {
    AllDeltasCut(a, rest, kind, parse);
    AllDeltasCut(b, rest, kind, parse);
  }

  /** Putting the first line back without its `\r` does not change the one-pass reading. */
  lemma PushedBackText(t: string, x: string, kind: LineReader, parse: Parser)
    requires IgnoresCR(kind)
    requires 0 <= IndexOf(t, '\n')
    ensures AllDeltas(StripCR(t[..IndexOf(t, '\n')]) + "\n" + t[IndexOf(t, '\n') + 1..] + x, kind, parse)
         == AllDeltas(t + x, kind, parse)
  {
    var i := IndexOf(t, '\n');
    var line, rest := StripCR(t[..i]), t[i + 1..] + x;
    AppendAssoc(line + "\n", t[i + 1..], x);
    CutAt(t, '\n', x);
    SameFirstLine(line, t[..i], rest, kind, parse);
  }

  /** The step of `DrainKeepsText` for a first line whose payload does not parse. */
  lemma KeepsTextPushedBack(t: string, x: string, kind: LineReader, parse: Parser)
    requires IgnoresCR(kind)
    requires 0 <= IndexOf(t, '\n')
    requires kind(t[..IndexOf(t, '\n')]).Data? && parse(kind(t[..IndexOf(t, '\n')]).json).ParseFail?
    ensures Drain(t, kind, parse).deltas + AllDeltas(Drain(t, kind, parse).buffer + x, kind, parse)
         == AllDeltas(t + x, kind, parse)
  {
    DrainPushesBack(t, kind, parse);
    PushedBackText(t, x, kind, parse);
  }

  /** Text after the first `[DONE]` line is all whitespace ("nothing follows `[DONE]`"). */
  predicate QuietAfterDone(t: string, kind: LineReader)
    decreases |t|
  {
    var i := IndexOf(t, '\n');
    i < 0 || ((kind(t[..i]).Sentinel? ==> IsBlank(t[i + 1..])) && QuietAfterDone(t[i + 1..], kind))
  }

  lemma QuietCut(a: string, b: string, kind: LineReader)
    requires '\n' !in a
    ensures QuietAfterDone(a + "\n" + b, kind) <==> (kind(a).Sentinel? ==> IsBlank(b)) && QuietAfterDone(b, kind)
  {
    IndexOfAfter(a, '\n', b);
  }

  /** Quietness survives the inner loop; and when the loop stops at
      `[DONE]`, what remains, and all that would follow, is blank. */
  lemma {:induction false} DrainKeepsQuiet(t: string, x: string, kind: LineReader, parse: Parser)
    requires IgnoresCR(kind)
    requires QuietAfterDone(t + x, kind)
    ensures Drain(t, kind, parse).stopped ==> IsBlank(Drain(t, kind, parse).buffer + x)
    ensures !Drain(t, kind, parse).stopped ==> QuietAfterDone(Drain(t, kind, parse).buffer + x, kind)
    decreases |t|, 1
  {
    if 0 <= IndexOf(t, '\n') {
      KeepsQuietStep(t, x, kind, parse);
    } else {
      assert Drain(t, kind, parse) == Drained([], t, false);
    }
  }

  /** The inductive step of `DrainKeepsQuiet`, by how the first line reads. */
  lemma {:induction false} KeepsQuietStep(t: string, x: string, kind: LineReader, parse: Parser)
    requires IgnoresCR(kind)
    requires QuietAfterDone(t + x, kind)
    requires 0 <= IndexOf(t, '\n')
    ensures Drain(t, kind, parse).stopped ==> IsBlank(Drain(t, kind, parse).buffer + x)
    ensures !Drain(t, kind, parse).stopped ==> QuietAfterDone(Drain(t, kind, parse).buffer + x, kind)
    decreases |t|, 0
  {
    var i := IndexOf(t, '\n');
    var k := kind(t[..i]);
    CutAt(t, '\n', x);
    QuietCut(t[..i], t[i + 1..] + x, kind);
    DrainStep(t, kind, parse);
    if k.Data? && parse(k.json).ParseFail? {
      var line := StripCR(t[..i]);
      AppendAssoc(line + "\n", t[i + 1..], x);
      QuietCut(line, t[i + 1..] + x, kind);
      assert kind(line) == k;
    } else if !k.Sentinel? {
      DrainKeepsQuiet(t[i + 1..], x, kind, parse);
    }
  }

  /** Once the buffer starts with an unparsable frame, the inner loop cuts
      that same line, fails on it again, puts it back and leaves: nothing is
      delivered and the buffer stays blocked. */
  lemma BlockedStaysBlocked(b: string, x: string, kind: LineReader, parse: Parser)
    requires IgnoresCR(kind)
    requires Blocked(b, kind, parse)
    ensures Drain(b + x, kind, parse).deltas == []
    ensures !Drain(b + x, kind, parse).stopped
    ensures Blocked(Drain(b + x, kind, parse).buffer, kind, parse)
  {
    var i := IndexOf(b, '\n');
    IndexOfAppend(b, x, '\n');
    assert (b + x)[..i] == b[..i];
    DrainPushesBack(b + x, kind, parse);
    BlockedAgain(b[..i], (b + x)[i + 1..], kind, parse);
  }

  /** A frame that fails to parse, put back in front of any text, blocks the buffer again. */
  lemma BlockedAgain(raw: string, rest: string, kind: LineReader, parse: Parser)
    requires IgnoresCR(kind)
    requires '\n' !in raw && kind(raw).Data? && parse(kind(raw).json).ParseFail?
    ensures Blocked(StripCR(raw) + "\n" + rest, kind, parse)
  {
    var line := StripCR(raw);
    assert kind(line) == kind(raw);
    IndexOfAfter(line, '\n', rest);
  }

  /** The outer `while (!streamDone)` loop: append each chunk and drain. */
  function ReadLoop(chunks: seq<string>, buffer: string, kind: LineReader, parse: Parser): (r: Drained)
    ensures forall k :: 0 <= k < |r.deltas| ==> r.deltas[k] != ""
    decreases |chunks|
  {
    if |chunks| == 0 then Drained([], buffer, false)
    else
      var d := Drain(buffer + chunks[0], kind, parse);
      if d.stopped then d
      else
        var e := ReadLoop(chunks[1..], d.buffer, kind, parse);
        e.(deltas := d.deltas + e.deltas)
  }

  /** A blocked read loop delivers nothing more and never reaches `[DONE]`:
      every later chunk only piles up behind the unparsable line. */
  lemma {:induction false} ReadLoopBlocked(chunks: seq<string>, b: string, kind: LineReader, parse: Parser)
    requires IgnoresCR(kind)
    requires Blocked(b, kind, parse)
    ensures ReadLoop(chunks, b, kind, parse).deltas == []
    ensures !ReadLoop(chunks, b, kind, parse).stopped
    ensures Blocked(ReadLoop(chunks, b, kind, parse).buffer, kind, parse)
    decreases |chunks|
  {
    if |chunks| > 0 {
      BlockedStaysBlocked(b, chunks[0], kind, parse);
      ReadLoopBlocked(chunks[1..], Drain(b + chunks[0], kind, parse).buffer, kind, parse);
    }
  }

  /** The read loop loses no text: what it delivered, followed by the
      reference reading of its final buffer, is the reference reading of
      everything it was given, provided nothing but blanks follows `[DONE]`. */
  lemma {:induction false} ReadLoopKeepsText(chunks: seq<string>, buffer: string, kind: LineReader, parse: Parser)
    requires IgnoresCR(kind) && SkipsBlank(kind)
    requires QuietAfterDone(buffer + Seqs.Concat(chunks), kind)
    ensures ReadLoop(chunks, buffer, kind, parse).deltas + AllDeltas(ReadLoop(chunks, buffer, kind, parse).buffer, kind, parse)
         == AllDeltas(buffer + Seqs.Concat(chunks), kind, parse)
    decreases |chunks|, 1
  {
    if |chunks| == 0 {
      var s := AllDeltas(buffer, kind, parse);
      assert buffer + Seqs.Concat(chunks) == buffer;
      assert ReadLoop(chunks, buffer, kind, parse) == Drained([], buffer, false);
      assert [] + s == s;
    } else {
      ReadLoopStep(chunks, buffer, kind, parse);
    }
  }

  /** The inductive step of `ReadLoopKeepsText`: one chunk appended and drained. */
  lemma {:induction false} ReadLoopStep(chunks: seq<string>, buffer: string, kind: LineReader, parse: Parser)
    requires |chunks| > 0
    requires IgnoresCR(kind) && SkipsBlank(kind)
    requires QuietAfterDone(buffer + Seqs.Concat(chunks), kind)
    ensures ReadLoop(chunks, buffer, kind, parse).deltas + AllDeltas(ReadLoop(chunks, buffer, kind, parse).buffer, kind, parse)
         == AllDeltas(buffer + Seqs.Concat(chunks), kind, parse)
    decreases |chunks|, 0
  {
    var x := Seqs.Concat(chunks[1..]);
    assert Seqs.Concat(chunks) == chunks[0] + x;
    AppendAssoc(buffer, chunks[0], x);
    var d := Drain(buffer + chunks[0], kind, parse);
    DrainKeepsText(buffer + chunks[0], x, kind, parse);
    DrainKeepsQuiet(buffer + chunks[0], x, kind, parse);
    if d.stopped {
      assert ReadLoop(chunks, buffer, kind, parse) == d;
      BlankAppend(d.buffer, x);
      BlankNoDeltas(d.buffer, kind, parse);
      BlankNoDeltas(d.buffer + x, kind, parse);
    } else {
      var e := ReadLoop(chunks[1..], d.buffer, kind, parse);
      ReadLoopKeepsText(chunks[1..], d.buffer, kind, parse);
      assert ReadLoop(chunks, buffer, kind, parse) == e.(deltas := d.deltas + e.deltas);
      AppendAssoc(d.deltas, e.deltas, AllDeltas(e.buffer, kind, parse));
    }
  }

  /** Once the loop has seen `[DONE]`, later chunks are never read. */
  lemma {:induction false} ReadLoopStops(chunks: seq<string>, more: seq<string>, buffer: string, kind: LineReader, parse: Parser)
    requires ReadLoop(chunks, buffer, kind, parse).stopped
    ensures ReadLoop(chunks + more, buffer, kind, parse) == ReadLoop(chunks, buffer, kind, parse)
    decreases |chunks|
  {
    assert (chunks + more)[0] == chunks[0];
    assert (chunks + more)[1..] == chunks[1..] + more;
    var d := Drain(buffer + chunks[0], kind, parse);
    if !d.stopped {
      ReadLoopStops(chunks[1..], more, d.buffer, kind, parse);
    }
  }

  /** Reading more chunks continues from where the loop left off. */
  lemma {:induction false} ReadLoopAppend(chunks: seq<string>, more: seq<string>, buffer: string, kind: LineReader, parse: Parser)
    requires !ReadLoop(chunks, buffer, kind, parse).stopped
    ensures ReadLoop(chunks + more, buffer, kind, parse)
         == ReadLoop(more, ReadLoop(chunks, buffer, kind, parse).buffer, kind, parse).(deltas :=
              ReadLoop(chunks, buffer, kind, parse).deltas
              + ReadLoop(more, ReadLoop(chunks, buffer, kind, parse).buffer, kind, parse).deltas)
    decreases |chunks|
  {
    if |chunks| == 0 {
      assert chunks + more == more;
      assert [] + ReadLoop(more, buffer, kind, parse).deltas == ReadLoop(more, buffer, kind, parse).deltas;
    } else {
      var d := Drain(buffer + chunks[0], kind, parse);
      assert (chunks + more)[0] == chunks[0];
      assert (chunks + more)[1..] == chunks[1..] + more;
      ReadLoopAppend(chunks[1..], more, d.buffer, kind, parse);
      var l := ReadLoop(chunks[1..], d.buffer, kind, parse);
      var m := ReadLoop(more, l.buffer, kind, parse);
      AppendAssoc(d.deltas, l.deltas, m.deltas);
    }
  }

  /** The writer side: `data: <payload>\n\n` for each payload. */
  function FramesText(payloads: seq<string>): string
    decreases |payloads|
  {
    if |payloads| == 0 then "" else "data: " + payloads[0] + "\n\n" + FramesText(payloads[1..])
  }

  /** The deltas the payloads carry, in order. */
  function PayloadDeltas(payloads: seq<string>, parse: Parser): seq<string>
    decreases |payloads|
  {
    if |payloads| == 0 then [] else DeltaOf(parse(payloads[0])) + PayloadDeltas(payloads[1..], parse)
  }

  /** A text without a newline is one line, read on its own. */
  lemma SingleLine(line: string, kind: LineReader, parse: Parser)
    requires '\n' !in line
    ensures AllDeltas(line, kind, parse) == LineDelta(line, kind, parse)
    ensures QuietAfterDone(line, kind)
  {
    assert IndexOf(line, '\n') == -1;
    assert Split(line, '\n') == [line];
    assert [line][1..] == [];
    assert AllDeltas(line, kind, parse) == LineDelta(line, kind, parse) + LinesDeltas([], kind, parse);
  }

  /** A `[DONE]` line followed by an empty line contributes nothing and is quiet. */
  lemma SentinelTail(line: string, kind: LineReader, parse: Parser)
    requires '\n' !in line && kind(line).Sentinel? && kind("") == Skip
    ensures AllDeltas(line + "\n\n", kind, parse) == []
    ensures QuietAfterDone(line + "\n\n", kind)
  {
    AppendAssoc(line, "\n", "\n");
    assert line + "\n\n" == line + "\n" + ("" + "\n" + "");
    SingleLine("", kind, parse);
    AllDeltasCut("", "", kind, parse);
    AllDeltasCut(line, "" + "\n" + "", kind, parse);
    QuietCut("", "", kind);
    assert "" + "\n" + "" == "\n";
    assert IsBlank("\n");
    QuietCut(line, "" + "\n" + "", kind);
  }

  /** The line reading recognises every written frame line and skips the empty line. */
  ghost predicate ReadsFrames(payloads: seq<string>, kind: LineReader) {
    && kind("") == Skip
    && forall k :: 0 <= k < |payloads| ==> '\n' !in payloads[k] && kind("data: " + payloads[k]) == Data(payloads[k])
  }

  /** The text of the first frame, cut into its two lines. */
  lemma FrameCut(payloads: seq<string>, tail: string)
    requires |payloads| > 0 && '\n' !in payloads[0]
    ensures '\n' !in "data: " + payloads[0]
    ensures FramesText(payloads) + tail
         == ("data: " + payloads[0]) + "\n" + ("" + "\n" + (FramesText(payloads[1..]) + tail))
  {
    var line, more := "data: " + payloads[0], FramesText(payloads[1..]);
    NotInAppend("data: ", payloads[0], '\n');
    assert FramesText(payloads) == line + "\n\n" + more;
    Regroup(line, more + tail);
    AppendAssoc(line + "\n\n", more, tail);
  }

  /** `a + "\n\n" + m`, regrouped around its two newlines. */
  lemma Regroup(a: string, m: string)
    ensures a + "\n\n" + m == a + "\n" + ("" + "\n" + m)
  {
    var l, r := a + "\n\n" + m, a + "\n" + ("" + "\n" + m);
    assert |l| == |r|;
    forall k | 0 <= k < |l|
      ensures l[k] == r[k]
    {
      if k < |a| {
      } else if k < |a| + 2 {
      } else {
        assert l[k] == m[k - |a| - 2];
      }
    }
  }

  /** Reading written frames back: each frame line yields its payload's
      delta and each separating empty line nothing. */
  lemma {:induction false} FramesReadBack(payloads: seq<string>, tail: string, kind: LineReader, parse: Parser)
    requires ReadsFrames(payloads, kind)
    ensures AllDeltas(FramesText(payloads) + tail, kind, parse) == PayloadDeltas(payloads, parse) + AllDeltas(tail, kind, parse)
    decreases |payloads|, 1
  {
    if |payloads| == 0 {
      assert FramesText(payloads) + tail == tail;
    } else {
      FramesReadBackStep(payloads, tail, kind, parse);
    }
  }

  lemma {:induction false} FramesReadBackStep(payloads: seq<string>, tail: string, kind: LineReader, parse: Parser)
    requires |payloads| > 0
    requires ReadsFrames(payloads, kind)
    ensures AllDeltas(FramesText(payloads) + tail, kind, parse) == PayloadDeltas(payloads, parse) + AllDeltas(tail, kind, parse)
    decreases |payloads|, 0
  {
    var line, rest := "data: " + payloads[0], FramesText(payloads[1..]) + tail;
    FramesReadBack(payloads[1..], tail, kind, parse);
    FrameCut(payloads, tail);
    AllDeltasCut(line, "" + "\n" + rest, kind, parse);
    AllDeltasCut("", rest, kind, parse);
    AppendAssoc(DeltaOf(parse(payloads[0])), PayloadDeltas(payloads[1..], parse), AllDeltas(tail, kind, parse));
    assert kind(line) == Data(payloads[0]);
    assert LineDelta(line, kind, parse) == DeltaOf(parse(payloads[0]));
    assert LineDelta("", kind, parse) == [];
    assert [] + AllDeltas(rest, kind, parse) == AllDeltas(rest, kind, parse);
    assert PayloadDeltas(payloads, parse) == DeltaOf(parse(payloads[0])) + PayloadDeltas(payloads[1..], parse);
  }

  /** Written frames add nothing after `[DONE]`, so they keep a quiet tail quiet. */
  lemma {:induction false} FramesQuiet(payloads: seq<string>, tail: string, kind: LineReader)
    requires ReadsFrames(payloads, kind)
    requires QuietAfterDone(tail, kind)
    ensures QuietAfterDone(FramesText(payloads) + tail, kind)
    decreases |payloads|, 1
  {
    if |payloads| == 0 {
      assert FramesText(payloads) + tail == tail;
    } else {
      FramesQuietStep(payloads, tail, kind);
    }
  }

  lemma {:induction false} FramesQuietStep(payloads: seq<string>, tail: string, kind: LineReader)
    requires |payloads| > 0
    requires ReadsFrames(payloads, kind)
    requires QuietAfterDone(tail, kind)
    ensures QuietAfterDone(FramesText(payloads) + tail, kind)
    decreases |payloads|, 0
  {
    var line, rest := "data: " + payloads[0], FramesText(payloads[1..]) + tail;
    FramesQuiet(payloads[1..], tail, kind);
    FrameCut(payloads, tail);
    QuietCut(line, "" + "\n" + rest, kind);
    QuietCut("", rest, kind);
  }
}
