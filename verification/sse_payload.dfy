/** The payload side of a `data: ` frame in src/lib/pythonApi.ts: what
    `JSON.parse` yields and which text the frame contributes. */
module SsePayload {
  /** One place the extractor reads: `null`/`undefined`, or a string. */
  datatype Field = Absent | Str(s: string)

  /** What `JSON.parse` and the property reads make of a frame payload:
      either an exception (`ParseFail`), or the values found at
      `choices[0].delta.content`, `content` and `text`. */
  datatype Payload = ParseFail | Parsed(deltaContent: Field, content: Field, text: Field)

  /** `JSON.parse` is deterministic but not modelled: it is a parameter. */
  type Parser = string -> Payload

  /** `a ?? b`. */
  function Coalesce(a: Field, b: Field): Field {
    if a.Absent? then b else a
  }

  /** The ordered-fallback reference: the first present field of a list. */
  function FirstPresent(fields: seq<Field>): Field {
    if |fields| == 0 then Absent
    else if fields[0].Str? then fields[0]
    else FirstPresent(fields[1..])
  }

  /** `parsed.choices?.[0]?.delta?.content ?? parsed.content ?? parsed.text`. */
  function Extract(p: Payload): (r: Field)
    requires p.Parsed?
    ensures r == FirstPresent([p.deltaContent, p.content, p.text])
  {
    assert [p.deltaContent, p.content, p.text][1..] == [p.content, p.text];
    assert [p.content, p.text][1..] == [p.text];
    assert [p.text][1..] == [];
    assert FirstPresent([p.text]) == if p.text.Str? then p.text else Absent;
    assert FirstPresent([p.content, p.text]) == Coalesce(p.content, p.text);
    Coalesce(Coalesce(p.deltaContent, p.content), p.text)
  }

  /** `if (content) onDelta(content)`: the delta one payload contributes. */
  function DeltaOf(p: Payload): (d: seq<string>)
    ensures |d| <= 1
    ensures forall k :: 0 <= k < |d| ==> d[k] != ""
  {
    if p.ParseFail? then []
    else
      match Extract(p)
      case Absent => []
      case Str(s) => if s == "" then [] else [s]
  }

  /** Each dialect on its own yields its text, and an empty
      `choices[0].delta.content` is present, so it blocks the fallback. */
  lemma DeltaDialects(x: string, content: Field, text: Field)
    requires x != ""
    ensures DeltaOf(Parsed(Str(x), content, text)) == [x]
    ensures DeltaOf(Parsed(Absent, Str(x), text)) == [x]
    ensures DeltaOf(Parsed(Absent, Absent, Str(x))) == [x]
    ensures DeltaOf(Parsed(Str(""), Str(x), Str(x))) == []
  {
  }
}
