/**
 * How the debate service hands a chat to a provider and what it keeps of a
 * scraped web page (backend/app/services/ai_service.py): the OpenAI-style
 * message list flattened into one Gemini prompt, the same list split into
 * Anthropic's system text and message list, and the cleaning of a page's
 * text before it is summarised.
 *
 * The provider calls, the HTTP request and the HTML parser are not modelled:
 * the page's text is an input.
 */
module Prompts {
  import opened Text

  /** One message of an OpenAI-style chat: `{"role": …, "content": …}`. */
  datatype ChatMessage = ChatMessage(role: string, content: string)

  // ---------------------------------------------------------------------------
  // Gemini: one prompt string
  // ---------------------------------------------------------------------------

  /** The label of a message in the prompt: system messages are instructions, `user` is the user, any other role the model. */
  function Label(m: ChatMessage): string {
    if m.role == "system" then "System Instruction"
    else if m.role == "user" then "User"
    else "Model"
  }

  /** What one message adds to the prompt: its labelled line, and a blank line after a system instruction. */
  function GeminiLine(m: ChatMessage): string {
    if m.role == "system" then "System Instruction: " + m.content + "\n\n"
    else (if m.role == "user" then "User" else "Model") + ": " + m.content + "\n"
  }

  /** The prompt for a run of messages: their lines in message order. */
  function GeminiPrompt(ms: seq<ChatMessage>): string
    decreases |ms|
  {
    if |ms| == 0 then "" else GeminiLine(ms[0]) + GeminiPrompt(ms[1..])
  }

  lemma {:induction false} GeminiPromptSnoc(ms: seq<ChatMessage>, m: ChatMessage)
    ensures GeminiPrompt(ms + [m]) == GeminiPrompt(ms) + GeminiLine(m)
    decreases |ms|
  {
    if |ms| == 0 {
      assert [m][1..] == [];
    } else {
      assert (ms + [m])[1..] == ms[1..] + [m];
      GeminiPromptSnoc(ms[1..], m);
    }
  }

  /** The loop that builds the prompt, appending one message's line at a time. */
  method BuildGeminiPrompt(messages: seq<ChatMessage>) returns (prompt: string)
    ensures prompt == GeminiPrompt(messages)
  {
    prompt := "";
    var i := 0;
    while i < |messages|
      invariant 0 <= i <= |messages|
      invariant prompt == GeminiPrompt(messages[..i])
    {
      var msg := messages[i];
      var line := LineOf(msg);
      assert messages[..i + 1] == messages[..i] + [msg];
      GeminiPromptSnoc(messages[..i], msg);
      prompt := prompt + line;
      i := i + 1;
    }
    assert messages[..i] == messages;
  }

  /** The text the loop appends for one message. */
  method LineOf(msg: ChatMessage) returns (line: string)
    ensures line == GeminiLine(msg)
  {
    if msg.role == "system" {
      line := "System Instruction: " + msg.content + "\n\n";
    } else {
      var role := if msg.role == "user" then "User" else "Model";
      line := role + ": " + msg.content + "\n";
    }
  }

  /** The lines the prompt should read as: each message's labelled line, and an empty line after an instruction. */
  function GeminiLines(ms: seq<ChatMessage>): seq<string>
    decreases |ms|
  {
    if |ms| == 0 then []
    else
      [Label(ms[0]) + ": " + ms[0].content] + (if ms[0].role == "system" then [""] else [])
      + GeminiLines(ms[1..])
  }

  /**
   * When no content holds a line feed, the prompt reads back line by line as
   * one labelled line per message, in order, with the blank line after each
   * system instruction: nothing is lost or merged.
   */
  lemma {:induction false} GeminiPromptLines(ms: seq<ChatMessage>)
    requires forall i :: 0 <= i < |ms| ==> '\n' !in ms[i].content
    ensures Split(GeminiPrompt(ms), '\n') == GeminiLines(ms) + [""]
    decreases |ms|
  {
    if |ms| == 0 {
      assert Split("", '\n') == [""];
    } else {
      assert forall i :: 0 <= i < |ms[1..]| ==> ms[1..][i] == ms[i + 1];
      GeminiPromptLines(ms[1..]);
      GeminiLineThen(ms[0], GeminiPrompt(ms[1..]));
    }
  }

  /** One message's text read back by lines: its labelled line, the blank line after an instruction, then what follows. */
  lemma GeminiLineThen(m: ChatMessage, rest: string)
    requires '\n' !in m.content
    ensures Split(GeminiLine(m) + rest, '\n')
         == [Label(m) + ": " + m.content] + (if m.role == "system" then [""] else []) + Split(rest, '\n')
  {
    var line := Label(m) + ": " + m.content;
    assert '\n' !in Label(m) + ": ";
    if m.role == "system" {
      assert GeminiLine(m) + rest == line + "\n" + ("" + "\n" + rest);
      LineThenRest(line, "" + "\n" + rest);
      LineThenRest("", rest);
    } else {
      assert GeminiLine(m) + rest == line + "\n" + rest;
      LineThenRest(line, rest);
    }
  }

  /** A line without a line feed, then a line feed: the line is the first piece. */
  lemma LineThenRest(line: string, rest: string)
    requires '\n' !in line
    ensures Split(line + "\n" + rest, '\n') == [line] + Split(rest, '\n')
  {
    SplitAppend(line, '\n', rest);
    SplitWithoutSeparator(line, '\n');
  }

  // ---------------------------------------------------------------------------
  // Anthropic: a system text and the other messages
  // ---------------------------------------------------------------------------

  /** The system text Anthropic receives: the content of the last system message, or empty when there is none. */
  function LastSystem(ms: seq<ChatMessage>): string
    decreases |ms|
  {
    if |ms| == 0 then ""
    else if ms[|ms| - 1].role == "system" then ms[|ms| - 1].content
    else LastSystem(ms[..|ms| - 1])
  }

  /** The messages Anthropic receives: every non-system message, in order, role and content unchanged. */
  function NonSystem(ms: seq<ChatMessage>): (r: seq<ChatMessage>)
    ensures |r| <= |ms|
    ensures forall m :: m in r <==> m in ms && m.role != "system"
    decreases |ms|
  {
    if |ms| == 0 then []
    else
      var init := ms[..|ms| - 1];
      var last := ms[|ms| - 1];
      assert ms == init + [last];
      NonSystem(init) + (if last.role == "system" then [] else [last])
  }

  /** The conversion loop: later system messages overwrite earlier ones, every other message is appended. */
  method AnthropicSplit(messages: seq<ChatMessage>) returns (system: string, rest: seq<ChatMessage>)
    ensures system == LastSystem(messages)
    ensures rest == NonSystem(messages)
  {
    system := "";
    rest := [];
    var i := 0;
    while i < |messages|
      invariant 0 <= i <= |messages|
      invariant system == LastSystem(messages[..i])
      invariant rest == NonSystem(messages[..i])
    {
      var msg := messages[i];
      if msg.role == "system" {
        system := msg.content;
      } else {
        rest := rest + [ChatMessage(msg.role, msg.content)];
      }
      assert messages[..i + 1][..i] == messages[..i];
      i := i + 1;
    }
    assert messages[..i] == messages;
  }

  /** The system text is that of the last system message, and empty when there is no system message. */
  lemma {:induction false} LastSystemIsLast(ms: seq<ChatMessage>)
    ensures (forall i :: 0 <= i < |ms| ==> ms[i].role != "system") ==> LastSystem(ms) == ""
    ensures forall i :: (0 <= i < |ms| && ms[i].role == "system"
      && (forall j :: i < j < |ms| ==> ms[j].role != "system")) ==> LastSystem(ms) == ms[i].content
    decreases |ms|
  {
    if |ms| > 0 {
      var init := ms[..|ms| - 1];
      LastSystemIsLast(init);
      assert forall i :: 0 <= i < |init| ==> init[i] == ms[i];
    }
  }

  /** Splitting a chat in two splits its messages the same way: order is kept. */
  lemma {:induction false} NonSystemAppend(a: seq<ChatMessage>, b: seq<ChatMessage>)
    ensures NonSystem(a + b) == NonSystem(a) + NonSystem(b)
    decreases |b|
  {
    if |b| == 0 {
      assert a + b == a;
    } else {
      var init := b[..|b| - 1];
      assert (a + b)[..|a + b| - 1] == a + init;
      NonSystemAppend(a, init);
    }
  }

  /** No system message reaches Anthropic's message list, and every other one does. */
  lemma NonSystemCount(ms: seq<ChatMessage>)
    ensures forall k :: 0 <= k < |NonSystem(ms)| ==> NonSystem(ms)[k].role != "system"
    ensures (forall i :: 0 <= i < |ms| ==> ms[i].role != "system") ==> NonSystem(ms) == ms
  {
    assert forall k :: 0 <= k < |NonSystem(ms)| ==> NonSystem(ms)[k] in NonSystem(ms);
    if forall i :: 0 <= i < |ms| ==> ms[i].role != "system" {
      NonSystemKeepsAll(ms);
    }
  }

  lemma {:induction false} NonSystemKeepsAll(ms: seq<ChatMessage>)
    requires forall i :: 0 <= i < |ms| ==> ms[i].role != "system"
    ensures NonSystem(ms) == ms
    decreases |ms|
  {
    if |ms| > 0 {
      var init := ms[..|ms| - 1];
      assert ms == init + [ms[|ms| - 1]];
      NonSystemKeepsAll(init);
    }
  }

  // ---------------------------------------------------------------------------
  // The scraped page
  // ---------------------------------------------------------------------------

  /** The address fetched: `https://` is put in front of one that does not start with `http`. */
  function NormalizeUrl(url: string): (r: string)
    ensures StartsWith(r, "http")
    ensures StartsWith(url, "http") ==> r == url
    ensures !StartsWith(url, "http") ==> r == "https://" + url
  {
    if StartsWith(url, "http") then url else "https://" + url
  }

  /** Normalising an address twice is normalising it once. */
  lemma NormalizeIdempotent(url: string)
    ensures NormalizeUrl(NormalizeUrl(url)) == NormalizeUrl(url)
    ensures StartsWith(url, "http") ==> NormalizeUrl(url) == url
  {
  }

  /** The stripped phrases of one stripped line, cut at every double space. */
  function LinePhrases(line: string): seq<string> {
    var parts := SplitOn(PyStrip(line), "  ");
    seq(|parts|, i requires 0 <= i < |parts| => PyStrip(parts[i]))
  }

  /** The phrases of the page's lines, in order. */
  function Phrases(lines: seq<string>): seq<string>
    decreases |lines|
  {
    if |lines| == 0 then [] else LinePhrases(lines[0]) + Phrases(lines[1..])
  }

  /** The phrases that are not empty, in order. */
  function NonEmpty(xs: seq<string>): (r: seq<string>)
    ensures forall c :: c in r <==> c in xs && c != ""
    decreases |xs|
  {
    if |xs| == 0 then []
    else if xs[0] == "" then NonEmpty(xs[1..])
    else [xs[0]] + NonEmpty(xs[1..])
  }

  /** Filtering keeps the order: the non-empty phrases of two runs are those of each, concatenated. */
  lemma {:induction false} NonEmptyAppend(a: seq<string>, b: seq<string>)
    ensures NonEmpty(a + b) == NonEmpty(a) + NonEmpty(b)
    decreases |a|
  {
    if |a| > 0 {
      assert (a + b)[1..] == a[1..] + b;
      NonEmptyAppend(a[1..], b);
    } else {
      assert a + b == b;
    }
  }

  /** The chunks kept from a page's text. */
  function Chunks(text: string): seq<string> {
    NonEmpty(Phrases(SplitLines(text)))
  }

  /** The limit on the text kept from a page. */
  const PageLimit: nat := 4000

  /** The page's text as the debate sees it: its chunks one per line, cut to 4000 characters. */
  function CleanScrapedText(text: string): (r: string)
    ensures |r| <= PageLimit
    ensures StartsWith(Join(Chunks(text), "\n"), r)
    ensures |Join(Chunks(text), "\n")| <= PageLimit ==> r == Join(Chunks(text), "\n")
    ensures |Join(Chunks(text), "\n")| > PageLimit ==> |r| == PageLimit
  {
    var joined := Join(Chunks(text), "\n");
    if |joined| <= PageLimit then joined else joined[..PageLimit]
  }

  /** A chunk: not empty, one line, no white space at either end, no double space inside. */
  predicate CleanChunk(c: string) {
    && |c| > 0
    && !PySpace(c[0]) && !PySpace(c[|c| - 1])
    && NoBreak(c)
    && NoDoubleSpace(c)
  }

  /** No two spaces in a row. */
  predicate NoDoubleSpace(c: string) {
    forall k :: 0 <= k && k + 1 < |c| ==> !(c[k] == ' ' && c[k + 1] == ' ')
  }

  /** No line break anywhere. */
  predicate NoBreak(c: string) {
    forall k :: 0 <= k < |c| ==> !LineBreak(c[k])
  }

  /** Two spaces in a row are an occurrence of `"  "`. */
  lemma DoubleSpaceFound(c: string)
    ensures !NoDoubleSpace(c) ==> Contains(c, "  ")
  {
    if !NoDoubleSpace(c) {
      var k :| 0 <= k && k + 1 < |c| && c[k] == ' ' && c[k + 1] == ' ';
      assert c[k..][..2] == "  ";
      ContainsAt(c, k, "  ");
    }
  }

  /** A slice of a text without line breaks has none. */
  lemma SliceKeepsNoBreak(s: string, i: nat, j: nat)
    requires i <= j <= |s| && NoBreak(s)
    ensures NoBreak(s[i..j])
  {
    assert forall k :: 0 <= k < |s[i..j]| ==> s[i..j][k] == s[i + k];
  }

  /** A slice of a text without two spaces in a row has none either. */
  lemma SliceKeepsSingleSpaces(s: string, i: nat, j: nat)
    requires i <= j <= |s| && NoDoubleSpace(s)
    ensures NoDoubleSpace(s[i..j])
  {
    var r := s[i..j];
    forall k | 0 <= k && k + 1 < |r| ensures !(r[k] == ' ' && r[k + 1] == ' ') {
      assert r[k] == s[i + k] && r[k + 1] == s[i + k + 1];
    }
  }

  /** Stripping keeps a text free of line breaks. */
  lemma StripKeepsNoBreak(s: string)
    requires NoBreak(s)
    ensures NoBreak(PyStrip(s))
  {
    StripIsMiddle(s, PySpace);
    var i := |s| - |DropLeading(s, PySpace)|;
    SliceKeepsNoBreak(s, i, i + |PyStrip(s)|);
  }

  /** Stripping keeps a text free of double spaces. */
  lemma StripKeepsSingleSpaces(s: string)
    requires NoDoubleSpace(s)
    ensures NoDoubleSpace(PyStrip(s))
  {
    StripIsMiddle(s, PySpace);
    var i := |s| - |DropLeading(s, PySpace)|;
    SliceKeepsSingleSpaces(s, i, i + |PyStrip(s)|);
  }

  /** Every phrase of a line is one line without double spaces and without white space at its ends. */
  lemma LinePhrasesClean(line: string)
    requires NoBreak(line)
    ensures forall c :: c in LinePhrases(line) && c != "" ==> CleanChunk(c)
  {
    var stripped := PyStrip(line);
    StripKeepsNoBreak(line);
    var parts := SplitOn(stripped, "  ");
    SplitOnPiecesFree(stripped, "  ");
    SplitOnKeepsNoBreak(stripped, "  ");
    forall c | c in LinePhrases(line) && c != "" ensures CleanChunk(c) {
      var i :| 0 <= i < |parts| && c == PyStrip(parts[i]);
      assert parts[i] in parts;
      DoubleSpaceFound(parts[i]);
      StripKeepsNoBreak(parts[i]);
      StripKeepsSingleSpaces(parts[i]);
    }
  }

  /** The pieces of a text without line breaks have none. */
  lemma {:induction false} SplitOnKeepsNoBreak(s: string, sep: string)
    requires |sep| > 0
    requires NoBreak(s)
    ensures forall p :: p in SplitOn(s, sep) ==> NoBreak(p)
    decreases |s|
  {
    if |s| > 0 {
      if StartsWith(s, sep) {
        assert forall k :: 0 <= k < |s[|sep|..]| ==> s[|sep|..][k] == s[|sep| + k];
        SplitOnKeepsNoBreak(s[|sep|..], sep);
      } else {
        assert forall k :: 0 <= k < |s[1..]| ==> s[1..][k] == s[k + 1];
        SplitOnKeepsNoBreak(s[1..], sep);
        var rest := SplitOn(s[1..], sep);
        var first := [s[0]] + rest[0];
        assert rest[0] in rest;
        assert forall k :: 0 < k < |first| ==> first[k] == rest[0][k - 1];
        forall p | p in SplitOn(s, sep) ensures NoBreak(p) {
          if p != first {
            assert p in rest;
          }
        }
      }
    }
  }

  /** Every phrase of every line is clean once empty ones are dropped. */
  lemma {:induction false} PhrasesClean(lines: seq<string>)
    requires forall l :: l in lines ==> NoBreak(l)
    ensures forall c :: c in Phrases(lines) && c != "" ==> CleanChunk(c)
    decreases |lines|
  {
    if |lines| > 0 {
      assert lines[0] in lines;
      LinePhrasesClean(lines[0]);
      assert forall l :: l in lines[1..] ==> l in lines;
      PhrasesClean(lines[1..]);
    }
  }

  /**
   * Every chunk kept from a page is one non-empty line with no white space at
   * either end and no double space; when the page fits the limit, its text
   * reads back line by line as exactly those chunks.
   */
  lemma CleanTextChunks(text: string)
    ensures forall c :: c in Chunks(text) ==> CleanChunk(c)
    ensures |Join(Chunks(text), "\n")| <= PageLimit && |Chunks(text)| > 0 ==>
      Split(CleanScrapedText(text), '\n') == Chunks(text)
  {
    PhrasesClean(SplitLines(text));
    var cs := Chunks(text);
    if |Join(cs, "\n")| <= PageLimit && |cs| > 0 {
      forall i | 0 <= i < |cs| ensures '\n' !in cs[i] {
        assert cs[i] in cs;
        assert CleanChunk(cs[i]);
        assert LineBreak('\n');
      }
      JoinSplitRoundTrip(cs, '\n');
    }
  }
}
