/**
 * The chat page's reading of the event stream (frontend/app/page.tsx,
 * `handleSubmit`): each network read is split on line feeds by itself, and
 * every line that starts with `data: ` is handed to `JSON.parse` from offset
 * 6. A line that does not parse is logged and skipped; the other lines of the
 * read are still processed. Nothing is carried from one read to the next.
 *
 * `JSON.parse` is a parameter `parse`: `None` is a thrown SyntaxError.
 */
module StreamDecoder {
  import opened Wrappers
  import opened Text
  import opened Json

  /** The prefix that marks a line as an event. */
  const DataPrefix: string := "data: "

  /** The payload of one line, if it is a `data:` line whose rest parses. */
  function DecodeLine(parse: string -> Option<Json>, line: string): (r: Option<Json>)
    ensures r.Some? ==> StartsWith(line, DataPrefix)
    ensures !StartsWith(line, DataPrefix) ==> r == None
  {
    if StartsWith(line, DataPrefix) then parse(line[|DataPrefix|..]) else None
  }

  /** The payloads of a run of lines, in line order, skipping the lines that give none. */
  function DecodeLines(parse: string -> Option<Json>, lines: seq<string>): seq<Json>
    decreases |lines|
  {
    if |lines| == 0 then []
    else
      var init := DecodeLines(parse, lines[..|lines| - 1]);
      match DecodeLine(parse, lines[|lines| - 1])
      case Some(j) => init + [j]
      case None => init
  }

  /** Every payload comes from one of the lines, and there are no more payloads than lines. */
  lemma {:induction false} PayloadsComeFromLines(parse: string -> Option<Json>, lines: seq<string>)
    ensures |DecodeLines(parse, lines)| <= |lines|
    ensures forall j :: j in DecodeLines(parse, lines) ==> exists i :: 0 <= i < |lines| && DecodeLine(parse, lines[i]) == Some(j)
    decreases |lines|
  {
    if |lines| > 0 {
      var init := lines[..|lines| - 1];
      PayloadsComeFromLines(parse, init);
      assert forall i :: 0 <= i < |init| ==> init[i] == lines[i];
    }
  }

  /** The payloads of one read: its own lines, and nothing from any other read. */
  function DecodeRead(parse: string -> Option<Json>, read: string): seq<Json> {
    DecodeLines(parse, Split(read, '\n'))
  }

  /** The payloads of a whole response, read by read. */
  function DecodeReads(parse: string -> Option<Json>, chunks: seq<string>): seq<Json>
    decreases |chunks|
  {
    if |chunks| == 0 then []
    else DecodeReads(parse, chunks[..|chunks| - 1]) + DecodeRead(parse, chunks[|chunks| - 1])
  }

  /** Decoding two runs of lines one after the other is decoding each and concatenating. */
  lemma {:induction false} DecodeLinesAppend(parse: string -> Option<Json>, a: seq<string>, b: seq<string>)
    ensures DecodeLines(parse, a + b) == DecodeLines(parse, a) + DecodeLines(parse, b)
    decreases |b|
  {
    if |b| > 0 {
      assert (a + b)[..|a + b| - 1] == a + b[..|b| - 1];
      DecodeLinesAppend(parse, a, b[..|b| - 1]);
    } else {
      assert a + b == a;
    }
  }

  /** A line whose payload does not parse, or that is not a `data:` line, is skipped and nothing else is lost. */
  lemma SkippedLine(parse: string -> Option<Json>, a: seq<string>, line: string, b: seq<string>)
    requires DecodeLine(parse, line) == None
    ensures DecodeLines(parse, a + [line] + b) == DecodeLines(parse, a) + DecodeLines(parse, b)
  {
    DecodeLinesAppend(parse, a + [line], b);
    DecodeLinesAppend(parse, a, [line]);
    assert ([line])[..0] == [];
  }

  /** Each read decodes by itself: the response is the concatenation of its chunks' payloads. */
  lemma {:induction false} DecodeReadsAppend(parse: string -> Option<Json>, a: seq<string>, b: seq<string>)
    ensures DecodeReads(parse, a + b) == DecodeReads(parse, a) + DecodeReads(parse, b)
    decreases |b|
  {
    if |b| > 0 {
      assert (a + b)[..|a + b| - 1] == a + b[..|b| - 1];
      DecodeReadsAppend(parse, a, b[..|b| - 1]);
    } else {
      assert a + b == a;
    }
  }

  /** A read holding one line feed decodes as its two halves read separately. */
  lemma ReadAtLineFeed(parse: string -> Option<Json>, a: string, b: string)
    ensures DecodeRead(parse, a + "\n" + b) == DecodeRead(parse, a) + DecodeRead(parse, b)
  {
    SplitAppend(a, '\n', b);
    DecodeLinesAppend(parse, Split(a, '\n'), Split(b, '\n'));
  }
}
