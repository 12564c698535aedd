/**
 * The event protocol end to end: what the chat page decodes from the frames
 * the stream endpoint writes. Frames are `data: <json>` lines followed by a
 * blank line, a subset of the Server-Sent Events format of the WHATWG HTML
 * Living Standard (section 9.2, "Server-sent events"); the page reads only
 * the `data: ` lines and does not carry text between reads.
 *
 * Every round trip is stated under the hypothesis `InvertsEncoding(parse)`
 * that the browser's `JSON.parse` reads back what `json.dumps` wrote, for
 * values that survive the trip (`Wire`).
 */
module Protocol {
  import opened Wrappers
  import opened Text
  import opened Json
  import opened StreamDecoder
  import opened ChatApi
  import opened Board

  /** The text of several frames written one after another. */
  function Concat(parts: seq<string>): string
    decreases |parts|
  {
    if |parts| == 0 then "" else parts[0] + Concat(parts[1..])
  }

  /** The frames of a run of events, all encoded the same way. */
  function FramesOf(events: seq<Json>, ascii: bool): (r: seq<string>)
    ensures |r| == |events|
  {
    seq(|events|, k requires 0 <= k < |events| => Frame(events[k], ascii))
  }

  /** A read holding an empty line yields nothing for it. */
  lemma EmptyReadDecodesToNothing(parse: string -> Option<Json>)
    ensures DecodeRead(parse, "") == []
  {
    assert Split("", '\n') == [""];
  }

  /** The `data:` line of a wire-safe event decodes to the event. */
  lemma DataLineDecodes(parse: string -> Option<Json>, event: Json, ascii: bool)
    requires InvertsEncoding(parse) && Wire(event)
    ensures DecodeRead(parse, "data: " + Encode(event, ascii)) == [event]
  {
    var e := Encode(event, ascii);
    var body := "data: " + e;
    EncodeNoLineFeed(event, ascii);
    assert '\n' !in body;
    SplitWithoutSeparator(body, '\n');
    assert body[|DataPrefix|..] == e;
    assert DecodeLine(parse, body) == Some(event);
    var lines: seq<string> := [body];
    assert DecodeRead(parse, body) == DecodeLines(parse, lines);
    assert lines[..0] == [];
  }

  /** A frame followed by more text is its `data:` line, a line feed, an empty line and the text. */
  lemma FrameLines(event: Json, ascii: bool, rest: string)
    ensures Frame(event, ascii) + rest == ("data: " + Encode(event, ascii)) + "\n" + ("" + "\n" + rest)
  {
  }

  /** A frame at the start of a read decodes to its event, and the rest of the read decodes as before. */
  lemma FrameThenRest(parse: string -> Option<Json>, event: Json, ascii: bool, rest: string)
    requires InvertsEncoding(parse) && Wire(event)
    ensures DecodeRead(parse, Frame(event, ascii) + rest) == [event] + DecodeRead(parse, rest)
  {
    var body := "data: " + Encode(event, ascii);
    FrameLines(event, ascii, rest);
    ReadAtLineFeed(parse, body, "" + "\n" + rest);
    ReadAtLineFeed(parse, "", rest);
    EmptyReadDecodesToNothing(parse);
    DataLineDecodes(parse, event, ascii);
  }

  /** Frames that arrive whole in one read decode to exactly their events, in order. */
  lemma {:induction false} FramesRoundTrip(parse: string -> Option<Json>, events: seq<Json>, ascii: bool)
    requires InvertsEncoding(parse)
    requires forall k :: 0 <= k < |events| ==> Wire(events[k])
    ensures DecodeRead(parse, Concat(FramesOf(events, ascii))) == events
    decreases |events|
  {
    if |events| == 0 {
      EmptyReadDecodesToNothing(parse);
    } else {
      assert FramesOf(events, ascii)[1..] == FramesOf(events[1..], ascii);
      FramesRoundTrip(parse, events[1..], ascii);
      FrameThenRest(parse, events[0], ascii, Concat(FramesOf(events[1..], ascii)));
      assert events == [events[0]] + events[1..];
    }
  }

  /** The events of a run of reads that each hold whole frames. */
  function Flatten(groups: seq<seq<Json>>): seq<Json>
    decreases |groups|
  {
    if |groups| == 0 then [] else Flatten(groups[..|groups| - 1]) + groups[|groups| - 1]
  }

  /** The reads of a response in which each read holds the whole frames of one group of events. */
  function Reads(groups: seq<seq<Json>>, ascii: bool): (r: seq<string>)
    ensures |r| == |groups|
    ensures forall g :: 0 <= g < |groups| ==> r[g] == Concat(FramesOf(groups[g], ascii))
  {
    seq(|groups|, g requires 0 <= g < |groups| => Concat(FramesOf(groups[g], ascii)))
  }

  /** All events of a run of groups are wire-safe. */
  predicate AllWire(groups: seq<seq<Json>>) {
    forall g, k :: 0 <= g < |groups| && 0 <= k < |groups[g]| ==> Wire(groups[g][k])
  }

  /**
   * When every read ends on a frame boundary, the page sees every event the
   * server sent, in order, however the frames are grouped into reads.
   */
  lemma {:induction false} AlignedReadsRoundTrip(parse: string -> Option<Json>, groups: seq<seq<Json>>, ascii: bool)
    requires InvertsEncoding(parse) && AllWire(groups)
    ensures DecodeReads(parse, Reads(groups, ascii)) == Flatten(groups)
    decreases |groups|
  {
    if |groups| > 0 {
      var n := |groups| - 1;
      var chunks := Reads(groups, ascii);
      var init := groups[..n];
      assert chunks[..n] == Reads(init, ascii);
      assert AllWire(init) by {
        forall g, k | 0 <= g < |init| && 0 <= k < |init[g]| ensures Wire(init[g][k]) {
          assert init[g] == groups[g];
        }
      }
      AlignedReadsRoundTrip(parse, init, ascii);
      assert forall k :: 0 <= k < |groups[n]| ==> Wire(groups[n][k]);
      FramesRoundTrip(parse, groups[n], ascii);
      assert DecodeReads(parse, chunks) == DecodeReads(parse, chunks[..n]) + DecodeRead(parse, chunks[n]);
    }
  }

  /**
   * Nothing is carried between reads: a frame whose `data:` prefix is split
   * across two reads is lost, whatever it held.
   */
  lemma SplitPrefixLosesFrame(parse: string -> Option<Json>, event: Json, ascii: bool)
    ensures var f := Frame(event, ascii);
      DecodeReads(parse, [f[..2], f[2..]]) == []
  {
    var f := Frame(event, ascii);
    var line := "ta: " + Encode(event, ascii);
    EncodeNoLineFeed(event, ascii);
    assert f[..2] == "da";
    assert f[2..] == line + "\n" + ("" + "\n" + "");
    NotDataLine(parse, "da");
    assert !StartsWith(line, DataPrefix) by { assert line[0] == 't'; }
    NotDataLine(parse, line);
    ReadAtLineFeed(parse, line, "" + "\n" + "");
    ReadAtLineFeed(parse, "", "");
    EmptyReadDecodesToNothing(parse);
    assert [f[..2], f[2..]][..1] == [f[..2]];
    OneRead(parse, f[..2]);
  }

  /** A read of one line that is not a `data:` line decodes to nothing. */
  lemma NotDataLine(parse: string -> Option<Json>, line: string)
    requires '\n' !in line && !StartsWith(line, DataPrefix)
    ensures DecodeRead(parse, line) == []
  {
    SplitWithoutSeparator(line, '\n');
    var lines: seq<string> := [line];
    assert DecodeRead(parse, line) == DecodeLines(parse, lines);
    assert lines[..0] == [];
  }

  /** The error frame's object reaches the page as an error event when the message is not empty. */
  lemma ServerErrorShown(st: State, message: string)
    requires message != ""
    ensures Apply(st, JObj([("error", JStr(message))]))
         == st.(messages := st.messages + [SystemMessage("Error: " + message)], isLoading := false)
  {
  }

  /**
   * An exception whose text is empty produces `{"error": ""}`, which the page
   * ignores (the member is falsy): the page stays loading.
   */
  lemma EmptyServerErrorIgnored(st: State)
    ensures Apply(st, JObj([("error", JStr(""))])) == st
  {
  }

  /** The meta object is wire-safe when its id is. */
  lemma MetaIsWire(id: Json)
    requires Wire(id)
    ensures Wire(Meta(id))
  {
    var fields := Meta(id).fields;
    assert !IndexLikeKey(fields[0].0) by { assert !Digit(fields[0].0[0]); }
    assert !IndexLikeKey(fields[1].0) by { assert !Digit(fields[1].0[0]); }
  }

  /** A response of one read decodes as that read. */
  lemma OneRead(parse: string -> Option<Json>, read: string)
    ensures DecodeReads(parse, [read]) == DecodeRead(parse, read)
  {
    assert [read][..0] == [];
  }

  /** The frames of a debate that raised nothing are the frames of the meta event and its events. */
  lemma AnnouncedFrames(id: Json, events: seq<Json>)
    ensures Frames(id, Debate(events, None)) == FramesOf([Meta(id)] + events, false)
  {
    var all := [Meta(id)] + events;
    var frames := Frames(id, Debate(events, None));
    forall k | 0 <= k < |all|
      ensures frames[k] == FramesOf(all, false)[k]
    {
      if k > 0 {
        assert all[k] == events[k - 1];
      }
    }
  }

  /** The stream of a debate that raised nothing, arriving in one read, decodes to the meta event and then the debate's events. */
  lemma OneReadStream(parse: string -> Option<Json>, id: Json, events: seq<Json>)
    requires InvertsEncoding(parse) && Wire(id)
    requires forall k :: 0 <= k < |events| ==> Wire(events[k])
    ensures DecodeReads(parse, [Concat(Frames(id, Debate(events, None)))]) == [Meta(id)] + events
  {
    var all := [Meta(id)] + events;
    MetaIsWire(id);
    assert forall k :: 0 <= k < |all| ==> Wire(all[k]) by {
      forall k | 0 <= k < |all| ensures Wire(all[k]) {
        if k > 0 {
          assert all[k] == events[k - 1];
        }
      }
    }
    AnnouncedFrames(id, events);
    FramesRoundTrip(parse, all, false);
    OneRead(parse, Concat(FramesOf(all, false)));
  }

  /**
   * A whole stream that arrives in one read and carries no further `meta`
   * event: the page adopts the announced id, and its list is the earlier
   * entries without typing ones, the user message, then the entries of the
   * server's events in order.
   */
  lemma SubmitAdoptsAnnouncedId(parse: string -> Option<Json>, st: State, id: Json, events: seq<Json>)
    requires InvertsEncoding(parse) && Accept(st) && Wire(id)
    requires forall k :: 0 <= k < |events| ==> Wire(events[k]) && KindOf(events[k]) != MetaEvent
    ensures var r := Submit(parse, st, Streamed([Concat(Frames(id, Debate(events, None)))], Done));
      && r.conversationId == Some(id)
      && r.messages == WithoutTyping(st.messages) + [UserMessage(Augment(st.input, st.context))] + Appended(events)
  {
    OneReadStream(parse, id, events);
    AnnouncedStream(parse, st, [Concat(Frames(id, Debate(events, None)))], id, events);
  }

  /** The meta event adds no entry to the list. */
  lemma MetaAddsNothing(id: Json, events: seq<Json>)
    ensures Appended([Meta(id)] + events) == Appended(events)
  {
    AppendedAppend([Meta(id)], events);
    MetaCarriesId(id);
    assert [Meta(id)][1..] == [];
  }

  /** The state a response leaves when it decodes to a `meta` event followed by events that are not. */
  lemma AnnouncedStream(parse: string -> Option<Json>, st: State, chunks: seq<string>, id: Json, events: seq<Json>)
    requires Accept(st) && DecodeReads(parse, chunks) == [Meta(id)] + events
    requires forall k :: 0 <= k < |events| ==> KindOf(events[k]) != MetaEvent
    ensures var r := Submit(parse, st, Streamed(chunks, Done));
      && r.conversationId == Some(id)
      && r.messages == WithoutTyping(st.messages) + [UserMessage(Augment(st.input, st.context))] + Appended(events)
  {
    SubmitWithBody(parse, st, chunks, Done);
    MetaAdopted(parse, st, chunks, id, events);
    MetaAddsNothing(id, events);
  }

  /** A submission with a body that closes normally applies the decoded events to the submitted state without typing entries. */
  lemma SubmitApplies(parse: string -> Option<Json>, st: State, chunks: seq<string>)
    requires Accept(st)
    ensures Submit(parse, st, Streamed(chunks, Done))
         == ApplyAll(Submitted(st).(messages := WithoutTyping(Submitted(st).messages)), DecodeReads(parse, chunks))
  {
  }

  /** The meta event is a `meta` event carrying the id. */
  lemma MetaCarriesId(id: Json)
    ensures KindOf(Meta(id)) == MetaEvent
    ensures Prop(Meta(id), "conversation_id") == Some(id)
  {
    var fields := Meta(id).fields;
    assert fields[..1] == [("type", JStr("meta"))];
    assert fields[1].0 != "type" by { assert |fields[1].0| != |"type"|; }
    assert Lookup(fields[..1], "type") == Some(JStr("meta"));
    assert Prop(Meta(id), "type") == Some(JStr("meta"));
    assert "meta" != "message" by { assert |"meta"| != |"message"|; }
  }

  /** The id of a leading `meta` event survives the events after it when none of them is a `meta` event. */
  lemma MetaAdopted(parse: string -> Option<Json>, st: State, chunks: seq<string>, id: Json, events: seq<Json>)
    requires Accept(st) && DecodeReads(parse, chunks) == [Meta(id)] + events
    requires forall k :: 0 <= k < |events| ==> KindOf(events[k]) != MetaEvent
    ensures Submit(parse, st, Streamed(chunks, Done)).conversationId == Some(id)
  {
    var all := [Meta(id)] + events;
    SubmitApplies(parse, st, chunks);
    MetaCarriesId(id);
    forall k | 0 < k < |all| ensures KindOf(all[k]) != MetaEvent {
      assert all[k] == events[k - 1];
    }
    MetaLastWriterWins(Submitted(st).(messages := WithoutTyping(Submitted(st).messages)), all, 0);
  }
}
