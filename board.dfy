/**
 * The chat page's session (frontend/app/page.tsx): the message list, the
 * vote list, the conversation id, the phase label and the loading flag, and
 * how `handleSubmit` and the history effect change them.
 *
 * The pure part is `Apply` (one event), `ApplyAll` (a run of events), `Submit`
 * (one whole submission with its response) and `Reconcile` (the history
 * effect). The `Session` class holds the same state in fields and changes it
 * step by step, with its read loop proved against those functions.
 *
 * React's queued state updates are applied in the order they are issued, as
 * one sequential state.
 */
module Board {
  import opened Wrappers
  import opened Text
  import opened Json
  import opened StreamDecoder

  const WelcomeText: string := "Pocket Board'a Hoş Geldiniz. Konuyu belirleyin, yönetim kurulunun tartışmasını izleyin."
  const NewDebateText: string := "Yeni Tartışma Başlatıldı."
  const ReadyPhase: string := "Hazır"

  /**
   * An entry of the message list: one the page builds itself, with the
   * properties it sets (`undefined` ones included), or one taken as the
   * server sent it in fetched history.
   */
  datatype Message =
    | Entry(role: Value, content: Value, agentName: Value, isTyping: bool, confidence: Value)
    | Stored(item: Json)

  /** `m.isTyping` is truthy. */
  predicate Typing(m: Message) {
    match m
    case Entry(_, _, _, isTyping, _) => isTyping
    case Stored(item) => Truthy(Prop(item, "isTyping"))
  }

  function SystemMessage(text: string): Message {
    Entry(Some(JStr("system")), Some(JStr(text)), None, false, None)
  }

  function UserMessage(text: string): Message {
    Entry(Some(JStr("user")), Some(JStr(text)), None, false, None)
  }

  /** The optimistic "typing" entry shown until the response body arrives. */
  const Placeholder: Message := Entry(Some(JStr("assistant")), Some(JStr("")), Some(JStr("Sistem")), true, None)

  /** The three optional fields of the context panel. */
  datatype ContextDetails = ContextDetails(budget: string, timeline: string, constraints: string)

  const EmptyContext: ContextDetails := ContextDetails("", "", "")

  /** The page state that the stream and the history effect touch. */
  datatype State = State(
    messages: seq<Message>,
    votes: Value,
    conversationId: Value,
    phase: Value,
    isLoading: bool,
    input: string,
    context: ContextDetails)

  /** The state on first render: the welcome message, no votes, no id, phase `Hazır`. */
  const Initial: State :=
    State([SystemMessage(WelcomeText)], Some(JNull), Some(JNull), Some(JStr(ReadyPhase)), false, "", EmptyContext)

  // ---------------------------------------------------------------------------
  // One event
  // ---------------------------------------------------------------------------

  /** Which branch of the handler's first-match chain a payload takes. */
  datatype Kind = MessageEvent | MetaEvent | TypingEvent | VotesEvent | PhaseEvent | ErrorEvent | EndEvent | Unhandled

  /**
   * The branches are tried in the handler's order: the `type` values
   * `message`, `meta`, `typing`, `vote_results` and `phase`, then a truthy
   * `error` member, then the type `end`. A payload that is not an object has
   * no members (for `null` the property read throws, and the same `catch`
   * skips the line).
   */
  function KindOf(data: Json): Kind {
    var t := Prop(data, "type");
    if IsStr(t, "message") then MessageEvent
    else if IsStr(t, "meta") then MetaEvent
    else if IsStr(t, "typing") then TypingEvent
    else if IsStr(t, "vote_results") then VotesEvent
    else if IsStr(t, "phase") then PhaseEvent
    else if Truthy(Prop(data, "error")) then ErrorEvent
    else if IsStr(t, "end") then EndEvent
    else Unhandled
  }

  /** The entry a `message` event appends: the speaker's name only for the assistant role. */
  function MessageOf(data: Json): (m: Message)
    ensures m.Entry? && !Typing(m)
    ensures m.role == Prop(data, "role") && m.content == Prop(data, "content")
    ensures m.confidence == Prop(data, "confidence")
    ensures m.agentName == if IsStr(Prop(data, "role"), "assistant") then Prop(data, "agentName") else Prop(data, "role")
  {
    var role := Prop(data, "role");
    Entry(role, Prop(data, "content"), if role == Some(JStr("assistant")) then Prop(data, "agentName") else role,
          false, Prop(data, "confidence"))
  }

  /** The system entry an error payload appends. */
  function ErrorMessage(data: Json): Message {
    SystemMessage("Error: " + JsString(Prop(data, "error")))
  }

  /** The state after the handler has processed one payload. */
  function Apply(st: State, data: Json): (r: State)
    ensures |st.messages| <= |r.messages| <= |st.messages| + 1
    ensures r.messages[..|st.messages|] == st.messages
    ensures r.input == st.input && r.context == st.context
    ensures r.isLoading ==> st.isLoading
  {
    match KindOf(data)
    case MessageEvent => st.(messages := st.messages + [MessageOf(data)])
    case MetaEvent => st.(conversationId := Prop(data, "conversation_id"))
    case TypingEvent => st
    case VotesEvent => st.(votes := Prop(data, "votes"))
    case PhaseEvent => st.(phase := Prop(data, "phase"))
    case ErrorEvent => st.(messages := st.messages + [ErrorMessage(data)], isLoading := false)
    case EndEvent => st.(isLoading := false)
    case Unhandled => st
  }

  /**
   * What one payload does to the votes and the phase label: `vote_results`
   * replaces the votes wholesale, `phase` overwrites the label, anything else
   * keeps both; a `typing` payload changes nothing at all.
   */
  lemma ApplyVotesAndPhase(st: State, data: Json)
    ensures KindOf(data) == TypingEvent ==> Apply(st, data) == st
    ensures Apply(st, data).votes == if KindOf(data) == VotesEvent then Prop(data, "votes") else st.votes
    ensures Apply(st, data).phase == if KindOf(data) == PhaseEvent then Prop(data, "phase") else st.phase
  {
  }

  /** The state after a run of payloads, applied in order. */
  function ApplyAll(st: State, events: seq<Json>): State
    decreases |events|
  {
    if |events| == 0 then st
    else Apply(ApplyAll(st, events[..|events| - 1]), events[|events| - 1])
  }

  lemma {:induction false} ApplyAllAppend(st: State, a: seq<Json>, b: seq<Json>)
    ensures ApplyAll(st, a + b) == ApplyAll(ApplyAll(st, a), b)
    decreases |b|
  {
    if |b| > 0 {
      assert (a + b)[..|a + b| - 1] == a + b[..|b| - 1];
      ApplyAllAppend(st, a, b[..|b| - 1]);
    } else {
      assert a + b == a;
    }
  }

  // ---------------------------------------------------------------------------
  // What a run of events does
  // ---------------------------------------------------------------------------

  /** The entries one payload contributes to the message list. */
  function Contribution(data: Json): seq<Message> {
    match KindOf(data)
    case MessageEvent => [MessageOf(data)]
    case ErrorEvent => [ErrorMessage(data)]
    case _ => []
  }

  /** The entries a run of payloads contributes, in payload order. */
  function Appended(events: seq<Json>): seq<Message>
    decreases |events|
  {
    if |events| == 0 then [] else Contribution(events[0]) + Appended(events[1..])
  }

  lemma {:induction false} AppendedAppend(a: seq<Json>, b: seq<Json>)
    ensures Appended(a + b) == Appended(a) + Appended(b)
    decreases |a|
  {
    if |a| > 0 {
      assert (a + b)[1..] == a[1..] + b;
      AppendedAppend(a[1..], b);
    } else {
      assert a + b == b;
    }
  }

  /**
   * Earlier entries are never changed or removed by events: the list after a
   * run of events is the list before it followed by exactly the `message` and
   * error entries of the run, in order.
   */
  lemma {:induction false} TranscriptIsAppended(st: State, events: seq<Json>)
    ensures ApplyAll(st, events).messages == st.messages + Appended(events)
    ensures ApplyAll(st, events).input == st.input && ApplyAll(st, events).context == st.context
    decreases |events|
  {
    if |events| > 0 {
      var init := events[..|events| - 1];
      var last := events[|events| - 1];
      assert init + [last] == events;
      TranscriptIsAppended(st, init);
      AppendedAppend(init, [last]);
      assert Appended([last]) == Contribution(last) by {
        assert [last][1..] == [];
      }
      var mid := ApplyAll(st, init);
      ApplyContributes(mid, last);
      assert ApplyAll(st, events) == Apply(mid, last);
      assert st.messages + Appended(init) + Contribution(last) == st.messages + (Appended(init) + Contribution(last));
    }
  }

  /** One payload appends exactly its contribution. */
  lemma ApplyContributes(st: State, data: Json)
    ensures Apply(st, data).messages == st.messages + Contribution(data)
  {
    match KindOf(data)
    case MessageEvent =>
    case ErrorEvent =>
    case _ =>
  }

  /** The payloads that clear the loading flag: an error payload and `end`. */
  predicate Clears(data: Json) {
    KindOf(data) == ErrorEvent || KindOf(data) == EndEvent
  }

  /**
   * The loading flag is never set by an event, and a run of events leaves it
   * set exactly when it was set before and no payload of the run is an error
   * or `end`. A stream that closes without either leaves the page loading.
   */
  lemma {:induction false} LoadingClearedIff(st: State, events: seq<Json>)
    ensures ApplyAll(st, events).isLoading <==> st.isLoading && forall i :: 0 <= i < |events| ==> !Clears(events[i])
    decreases |events|
  {
    if |events| > 0 {
      var init := events[..|events| - 1];
      LoadingClearedIff(st, init);
      var last := events[|events| - 1];
      LoadingStep(ApplyAll(st, init), last);
      assert events == init + [last];
      if forall i :: 0 <= i < |events| ==> !Clears(events[i]) {
        forall i | 0 <= i < |init| ensures !Clears(init[i]) {
          assert init[i] == events[i];
        }
      }
      if (forall i :: 0 <= i < |init| ==> !Clears(init[i])) && !Clears(last) {
        forall i | 0 <= i < |events| ensures !Clears(events[i]) {
          if i < |init| {
            assert events[i] == init[i];
          }
        }
      }
    }
  }

  /** One payload clears the flag exactly when it is an error or `end`, and never sets it. */
  lemma LoadingStep(st: State, data: Json)
    ensures Apply(st, data).isLoading <==> st.isLoading && !Clears(data)
  {
  }

  /** Whether the flag was set changes nothing else an event does. */
  lemma ApplyIgnoresLoading(st: State, data: Json)
    ensures Apply(st.(isLoading := false), data) == Apply(st, data).(isLoading := false)
  {
  }

  lemma {:induction false} ApplyAllIgnoresLoading(st: State, events: seq<Json>)
    ensures ApplyAll(st.(isLoading := false), events) == ApplyAll(st, events).(isLoading := false)
    decreases |events|
  {
    if |events| > 0 {
      ApplyAllIgnoresLoading(st, events[..|events| - 1]);
      ApplyIgnoresLoading(ApplyAll(st, events[..|events| - 1]), events[|events| - 1]);
    }
  }

  /**
   * `end` does not stop the loop: the events after it are applied exactly as
   * if it had not been sent, and its only trace is the cleared flag.
   */
  lemma EventsAfterEndStillApplied(st: State, before: seq<Json>, end: Json, after: seq<Json>)
    requires KindOf(end) == EndEvent
    ensures ApplyAll(st, before + [end] + after) == ApplyAll(st, before + after).(isLoading := false)
  {
    ApplyAllAppend(st, before + [end], after);
    ApplyAllAppend(st, before, [end]);
    ApplyAllAppend(st, before, after);
    assert ([end])[..0] == [];
    ApplyAllIgnoresLoading(ApplyAll(st, before), after);
  }

  /** A run without a `meta` payload keeps the conversation id. */
  lemma {:induction false} NoMetaKeepsId(st: State, events: seq<Json>)
    requires forall i :: 0 <= i < |events| ==> KindOf(events[i]) != MetaEvent
    ensures ApplyAll(st, events).conversationId == st.conversationId
    decreases |events|
  {
    if |events| > 0 {
      NoMetaKeepsId(st, events[..|events| - 1]);
    }
  }

  /**
   * The conversation id is overwritten by every `meta` payload, whatever it
   * carries (`null` and a missing member included): the last one wins.
   */
  lemma MetaLastWriterWins(st: State, events: seq<Json>, i: nat)
    requires i < |events| && KindOf(events[i]) == MetaEvent
    requires forall k :: i < k < |events| ==> KindOf(events[k]) != MetaEvent
    ensures ApplyAll(st, events).conversationId == Prop(events[i], "conversation_id")
  {
    var upto, rest := events[..i + 1], events[i + 1..];
    assert events == upto + rest;
    ApplyAllAppend(st, upto, rest);
    assert upto[..i] == events[..i];
    NoMetaKeepsId(ApplyAll(st, upto), rest);
  }

  /** A run without a `vote_results` payload keeps the votes. */
  lemma {:induction false} NoVotesKeepsVotes(st: State, events: seq<Json>)
    requires forall i :: 0 <= i < |events| ==> KindOf(events[i]) != VotesEvent
    ensures ApplyAll(st, events).votes == st.votes
    decreases |events|
  {
    if |events| > 0 {
      NoVotesKeepsVotes(st, events[..|events| - 1]);
    }
  }

  /**
   * The votes are replaced wholesale by every `vote_results` payload, with
   * whatever its `votes` member holds: the last one wins.
   */
  lemma VotesLastWriterWins(st: State, events: seq<Json>, i: nat)
    requires i < |events| && KindOf(events[i]) == VotesEvent
    requires forall k :: i < k < |events| ==> KindOf(events[k]) != VotesEvent
    ensures ApplyAll(st, events).votes == Prop(events[i], "votes")
  {
    var upto, rest := events[..i + 1], events[i + 1..];
    assert events == upto + rest;
    ApplyAllAppend(st, upto, rest);
    assert upto[..i] == events[..i];
    NoVotesKeepsVotes(ApplyAll(st, upto), rest);
  }

  /** A run without a `phase` payload keeps the phase label. */
  lemma {:induction false} NoPhaseKeepsPhase(st: State, events: seq<Json>)
    requires forall i :: 0 <= i < |events| ==> KindOf(events[i]) != PhaseEvent
    ensures ApplyAll(st, events).phase == st.phase
    decreases |events|
  {
    if |events| > 0 {
      NoPhaseKeepsPhase(st, events[..|events| - 1]);
    }
  }

  /** The phase label is overwritten by every `phase` payload: the last one wins. */
  lemma PhaseLastWriterWins(st: State, events: seq<Json>, i: nat)
    requires i < |events| && KindOf(events[i]) == PhaseEvent
    requires forall k :: i < k < |events| ==> KindOf(events[k]) != PhaseEvent
    ensures ApplyAll(st, events).phase == Prop(events[i], "phase")
  {
    var upto, rest := events[..i + 1], events[i + 1..];
    assert events == upto + rest;
    ApplyAllAppend(st, upto, rest);
    assert upto[..i] == events[..i];
    NoPhaseKeepsPhase(ApplyAll(st, upto), rest);
  }

  /** `typing` payloads change nothing: dropping them from a run leaves the same state. */
  lemma {:induction false} TypingIgnored(st: State, before: seq<Json>, typing: Json, after: seq<Json>)
    requires KindOf(typing) == TypingEvent
    ensures ApplyAll(st, before + [typing] + after) == ApplyAll(st, before + after)
  {
    ApplyAllAppend(st, before + [typing], after);
    ApplyAllAppend(st, before, [typing]);
    ApplyAllAppend(st, before, after);
    assert ([typing])[..0] == [];
  }

  // ---------------------------------------------------------------------------
  // Submitting
  // ---------------------------------------------------------------------------

  /** The context annotations, in panel order, each only when its field is non-empty. */
  function ContextParts(c: ContextDetails): (r: seq<string>)
    ensures |r| <= 3
    ensures r == [] <==> c == EmptyContext
    ensures forall p :: p in r ==> StartsWith(p, "Bütçe: ") || StartsWith(p, "Süre: ") || StartsWith(p, "Kısıtlar: ")
  {
    (if c.budget != "" then ["Bütçe: " + c.budget] else [])
    + (if c.timeline != "" then ["Süre: " + c.timeline] else [])
    + (if c.constraints != "" then ["Kısıtlar: " + c.constraints] else [])
  }

  /** The user message: the input, followed by an `[EK BAĞLAM: …]` annotation when any context field is set. */
  function Augment(input: string, c: ContextDetails): string {
    var parts := ContextParts(c);
    if |parts| == 0 then input else input + "\n\n[EK BAĞLAM: " + Join(parts, " | ") + "]"
  }

  /**
   * The message starts with the input unchanged; it is exactly the input when
   * no context field is set, and otherwise ends with the bracketed annotation.
   */
  lemma AugmentKeepsInput(input: string, c: ContextDetails)
    ensures StartsWith(Augment(input, c), input)
    ensures Augment(input, c) == input <==> c == EmptyContext
    ensures c != EmptyContext ==> Augment(input, c)[|input|..] == "\n\n[EK BAĞLAM: " + Join(ContextParts(c), " | ") + "]"
  {
    var a := Augment(input, c);
    assert a[..|input|] == input;
    if c != EmptyContext {
      assert |a| > |input|;
    }
  }

  /** The budget part comes first, when set. */
  lemma BudgetPartFirst(input: string, c: ContextDetails)
    requires c.budget != ""
    ensures StartsWith(Augment(input, c)[|input|..], "\n\n[EK BAĞLAM: Bütçe: " + c.budget)
  {
    var parts := ContextParts(c);
    assert parts[0] == "Bütçe: " + c.budget;
    var a := Augment(input, c);
    var j := Join(parts, " | ");
    assert StartsWith(j, parts[0]) by {
      if |parts| > 1 {
        assert j == parts[0] + " | " + Join(parts[1..], " | ");
      }
    }
    assert a[|input|..] == "\n\n[EK BAĞLAM: " + j + "]";
  }

  /** A submit is accepted only when the input is not blank once trimmed. */
  predicate Accept(st: State) {
    JsTrim(st.input) != ""
  }

  /** The entries that survive `filter(m => !m.isTyping)`, in order. */
  function WithoutTyping(ms: seq<Message>): (r: seq<Message>)
    ensures |r| <= |ms|
    ensures forall m :: m in r <==> m in ms && !Typing(m)
    decreases |ms|
  {
    if |ms| == 0 then []
    else
      var rest := WithoutTyping(ms[1..]);
      assert forall m :: m in ms <==> m == ms[0] || m in ms[1..];
      if Typing(ms[0]) then rest else [ms[0]] + rest
  }

  lemma {:induction false} WithoutTypingAppend(a: seq<Message>, b: seq<Message>)
    ensures WithoutTyping(a + b) == WithoutTyping(a) + WithoutTyping(b)
    decreases |a|
  {
    if |a| > 0 {
      assert (a + b)[1..] == a[1..] + b;
      WithoutTypingAppend(a[1..], b);
      var head := if Typing(a[0]) then [] else [a[0]];
      assert WithoutTyping(a + b) == head + WithoutTyping(a[1..] + b);
      assert WithoutTyping(a) == head + WithoutTyping(a[1..]);
    } else {
      assert a + b == b;
    }
  }

  /**
   * The synchronous part of an accepted submit: the user message and then the
   * placeholder are appended, votes become `null`, the input and the context
   * fields are cleared and the page is loading.
   */
  function Submitted(st: State): State {
    st.(messages := st.messages + [UserMessage(Augment(st.input, st.context)), Placeholder],
        input := "", isLoading := true, votes := Some(JNull), context := EmptyContext)
  }

  /** How a read ended: `done`, or a read that threw. */
  datatype Closing = Done | Broken

  /** What the network gave one submission. */
  datatype Response =
    | NoToken                                         // no session token: alert and return
    | Rejected                                        // the fetch itself threw
    | NoBody                                          // a response without a body: return
    | Streamed(chunks: seq<string>, closing: Closing) // the reads, in order

  /** The request body's message and conversation id, as sent. */
  datatype Request = Request(message: string, conversationId: Value)

  /** The state after one submission and the processing of its response. */
  function Submit(parse: string -> Option<Json>, st: State, resp: Response): State {
    if !Accept(st) then st
    else
      Receive(parse, Submitted(st), resp)
  }

  /** What the response does to the submitted state. */
  function Receive(parse: string -> Option<Json>, s: State, resp: Response): State {
    match resp
    case NoToken => s
    case Rejected => s.(isLoading := false)
    case NoBody => s
    case Streamed(chunks, closing) =>
      var r := ApplyAll(s.(messages := WithoutTyping(s.messages)), DecodeReads(parse, chunks));
      if closing == Broken then r.(isLoading := false) else r
  }

  /** A blank input changes nothing. */
  lemma BlankInputIsNoOp(parse: string -> Option<Json>, st: State, resp: Response)
    requires forall k :: 0 <= k < |st.input| ==> JsSpace(st.input[k])
    ensures Submit(parse, st, resp) == st
  {
    StripEmptyIffAllSpace(st.input, JsSpace);
  }

  /**
   * With a response body, every typing entry is gone before the first event
   * and none comes back: the list is the earlier entries without typing ones,
   * the user message, and what the events append. The input and the context
   * are cleared.
   */
  lemma SubmitWithBody(parse: string -> Option<Json>, st: State, chunks: seq<string>, closing: Closing)
    requires Accept(st)
    ensures var r := Submit(parse, st, Streamed(chunks, closing));
      && r.messages == WithoutTyping(st.messages) + [UserMessage(Augment(st.input, st.context))]
                       + Appended(DecodeReads(parse, chunks))
      && (forall k :: 0 <= k < |r.messages| ==> !Typing(r.messages[k]))
      && r.input == "" && r.context == EmptyContext
  {
    var user := UserMessage(Augment(st.input, st.context));
    var s := Submitted(st);
    assert s.messages == st.messages + [user, Placeholder];
    PlaceholderDropped(st.messages, user);
    ReceiveWithBody(parse, s, chunks, closing);
  }

  /** The list a body leaves: the submitted list without typing entries, then what the events append. */
  lemma ReceiveWithBody(parse: string -> Option<Json>, s: State, chunks: seq<string>, closing: Closing)
    ensures var r := Receive(parse, s, Streamed(chunks, closing));
      && r.messages == WithoutTyping(s.messages) + Appended(DecodeReads(parse, chunks))
      && (forall k :: 0 <= k < |r.messages| ==> !Typing(r.messages[k]))
      && r.input == s.input && r.context == s.context
  {
    var start := s.(messages := WithoutTyping(s.messages));
    var events := DecodeReads(parse, chunks);
    var r0 := ApplyAll(start, events);
    assert Receive(parse, s, Streamed(chunks, closing)) == if closing == Broken then r0.(isLoading := false) else r0;
    TranscriptIsAppended(start, events);
    NoTypingAppended(events);
    NoTypingIn(WithoutTyping(s.messages), [], Appended(events));
    assert WithoutTyping(s.messages) + [] == WithoutTyping(s.messages);
  }

  /** Filtering the submitted list keeps the user message and drops the placeholder. */
  lemma PlaceholderDropped(ms: seq<Message>, user: Message)
    requires !Typing(user)
    ensures WithoutTyping(ms + [user, Placeholder]) == WithoutTyping(ms) + [user]
  {
    WithoutTypingAppend(ms, [user, Placeholder]);
    assert [user, Placeholder][1..] == [Placeholder];
    assert WithoutTyping([Placeholder]) == [] by {
      assert [Placeholder][1..] == [];
    }
  }

  lemma NoTypingIn(a: seq<Message>, b: seq<Message>, c: seq<Message>)
    requires forall m :: m in a ==> !Typing(m)
    requires forall k :: 0 <= k < |b| ==> !Typing(b[k])
    requires forall k :: 0 <= k < |c| ==> !Typing(c[k])
    ensures forall k :: 0 <= k < |a + b + c| ==> !Typing((a + b + c)[k])
  {
    forall k | 0 <= k < |a + b + c| ensures !Typing((a + b + c)[k]) {
      if k < |a| {
        assert (a + b + c)[k] in a;
      } else if k < |a| + |b| {
        assert (a + b + c)[k] == b[k - |a|];
      } else {
        assert (a + b + c)[k] == c[k - |a| - |b|];
      }
    }
  }

  /** Events never append a typing entry. */
  lemma {:induction false} NoTypingAppended(events: seq<Json>)
    ensures forall k :: 0 <= k < |Appended(events)| ==> !Typing(Appended(events)[k])
    decreases |events|
  {
    if |events| > 0 {
      NoTypingAppended(events[1..]);
    }
  }

  /**
   * Without a token or without a body the submit returns early: the
   * placeholder stays last and the page stays loading. When the fetch throws
   * the placeholder stays too, but loading is cleared.
   */
  lemma SubmitWithoutBody(parse: string -> Option<Json>, st: State, resp: Response)
    requires Accept(st) && !resp.Streamed?
    ensures var r := Submit(parse, st, resp);
      && r.messages == st.messages + [UserMessage(Augment(st.input, st.context)), Placeholder]
      && Typing(r.messages[|r.messages| - 1])
      && r.isLoading == !resp.Rejected?
      && r.votes == Some(JNull) && r.conversationId == st.conversationId
  {
  }

  /** A stream that closes with `done` and carries no error and no `end` leaves the page loading. */
  lemma StuckWithoutEnd(parse: string -> Option<Json>, st: State, chunks: seq<string>)
    requires Accept(st)
    requires forall i :: 0 <= i < |DecodeReads(parse, chunks)| ==> !Clears(DecodeReads(parse, chunks)[i])
    ensures Submit(parse, st, Streamed(chunks, Done)).isLoading
  {
    var s := Submitted(st);
    LoadingClearedIff(s.(messages := WithoutTyping(s.messages)), DecodeReads(parse, chunks));
  }

  // ---------------------------------------------------------------------------
  // The history effect
  // ---------------------------------------------------------------------------

  /** What the history effect got: nothing (no token, a thrown fetch or body read), or a parsed body. */
  datatype HistoryFetch = Unavailable | Fetched(data: Json)

  /** How `messages.find(m => m.type === 'vote_results')` ended. */
  datatype FindResult = Found(item: Json) | NotFound | Threw

  /** Item `i` is a `vote_results` entry, and every item before it is a non-`null` item of another type. */
  predicate FirstVoteResults(items: seq<Json>, i: int) {
    && 0 <= i < |items|
    && IsStr(Prop(items[i], "type"), "vote_results")
    && forall k :: 0 <= k < i ==> items[k] != JNull && !IsStr(Prop(items[k], "type"), "vote_results")
  }

  /** The search reads `type` of each item in turn; a `null` item throws. */
  function FindVoteResults(items: seq<Json>): (r: FindResult)
    ensures r.Found? <==> exists i :: FirstVoteResults(items, i)
    ensures r.Found? ==> exists i :: FirstVoteResults(items, i) && r.item == items[i]
    ensures r.NotFound? <==> forall i :: 0 <= i < |items| ==> items[i] != JNull && !IsStr(Prop(items[i], "type"), "vote_results")
    decreases |items|
  {
    if |items| == 0 then NotFound
    else if items[0] == JNull then Threw
    else if IsStr(Prop(items[0], "type"), "vote_results") then
      assert FirstVoteResults(items, 0);
      Found(items[0])
    else
      var r := FindVoteResults(items[1..]);
      assert forall i :: 1 <= i < |items| ==> items[1..][i - 1] == items[i];
      assert forall i :: FirstVoteResults(items[1..], i) ==> FirstVoteResults(items, i + 1);
      assert forall i :: FirstVoteResults(items, i) ==> i > 0 && FirstVoteResults(items[1..], i - 1);
      r
  }

  /** There is at most one first `vote_results` entry. */
  lemma FirstVoteResultsUnique(items: seq<Json>, i: int, j: int)
    requires FirstVoteResults(items, i) && FirstVoteResults(items, j)
    ensures i == j
  {
  }

  /** `conversationIdParam` is truthy: present and not empty. */
  predicate HasParam(idParam: Option<string>) {
    idParam.Some? && idParam.value != ""
  }

  /** The fetched entries, as the list takes them. */
  function StoredAll(items: seq<Json>): (r: seq<Message>)
    ensures |r| == |items| && forall k :: 0 <= k < |items| ==> r[k] == Stored(items[k])
  {
    seq(|items|, k requires 0 <= k < |items| => Stored(items[k]))
  }

  /**
   * The history effect: a new chat resets to the welcome message; a non-empty
   * history replaces the list wholesale and adopts the returned id, and votes
   * come from the first `vote_results` entry when it has truthy votes; an empty
   * history with an id parameter starts that conversation afresh; anything
   * else leaves the state as it was.
   */
  function Reconcile(st: State, isNewChat: bool, idParam: Option<string>, fetch: HistoryFetch): (r: State)
    ensures r.isLoading == st.isLoading && r.input == st.input && r.context == st.context && r.phase == st.phase
    ensures isNewChat ==> r.messages == [SystemMessage(WelcomeText)] && r.conversationId == Some(JNull) && r.votes == Some(JNull)
    ensures !isNewChat && fetch.Unavailable? ==> r == st
    ensures !isNewChat && fetch.Fetched? && Prop(fetch.data, "messages") == Some(JArr([])) && !HasParam(idParam) ==> r == st
    ensures !isNewChat && fetch.Fetched? && !(Prop(fetch.data, "messages").Some? && Prop(fetch.data, "messages").value.JArr?) ==> r == st
    ensures !isNewChat && r.messages != st.messages ==> fetch.Fetched? && Prop(fetch.data, "messages").Some? && Prop(fetch.data, "messages").value.JArr?
  {
    if isNewChat then
      st.(messages := [SystemMessage(WelcomeText)], conversationId := Some(JNull), votes := Some(JNull))
    else
      match fetch
      case Unavailable => st
      case Fetched(data) =>
        match Prop(data, "messages")
        case Some(JArr(items)) =>
          if |items| > 0 then
            var s := st.(messages := StoredAll(items), conversationId := Prop(data, "conversation_id"));
            match FindVoteResults(items)
            case Found(v) => if Truthy(Prop(v, "votes")) then s.(votes := Prop(v, "votes")) else s
            case _ => s
          else if HasParam(idParam) then
            st.(messages := [SystemMessage(NewDebateText)], conversationId := Some(JStr(idParam.value)))
          else st
        case _ => st
  }

  /** A non-empty history replaces the whole list, in the server's order, and adopts its id. */
  lemma HistoryReplacesWholesale(st: State, idParam: Option<string>, data: Json, items: seq<Json>)
    requires Prop(data, "messages") == Some(JArr(items)) && |items| > 0
    ensures var r := Reconcile(st, false, idParam, Fetched(data));
      && |r.messages| == |items|
      && (forall k :: 0 <= k < |items| ==> r.messages[k] == Stored(items[k]))
      && r.conversationId == Prop(data, "conversation_id")
      && (forall i :: FirstVoteResults(items, i) ==>
            r.votes == (if Truthy(Prop(items[i], "votes")) then Prop(items[i], "votes") else st.votes))
      && ((forall i :: !FirstVoteResults(items, i)) ==> r.votes == st.votes)
  {
    var r := Reconcile(st, false, idParam, Fetched(data));
    match FindVoteResults(items)
    case Found(v) =>
      var j :| FirstVoteResults(items, j) && v == items[j];
      forall i | FirstVoteResults(items, i)
        ensures r.votes == (if Truthy(Prop(items[i], "votes")) then Prop(items[i], "votes") else st.votes)
      {
        FirstVoteResultsUnique(items, i, j);
      }
    case _ =>
  }

  /** An empty history with an id parameter: one `Yeni Tartışma Başlatıldı.` entry and that id; votes untouched. */
  lemma EmptyHistoryAdoptsParam(st: State, idParam: Option<string>, data: Json)
    requires Prop(data, "messages") == Some(JArr([])) && HasParam(idParam)
    ensures Reconcile(st, false, idParam, Fetched(data))
         == st.(messages := [SystemMessage(NewDebateText)], conversationId := Some(JStr(idParam.value)))
  {
  }

  // ---------------------------------------------------------------------------
  // The page's state, updated in place
  // ---------------------------------------------------------------------------

  class Session {
    var messages: seq<Message>
    var votes: Value
    var conversationId: Value
    var phase: Value
    var isLoading: bool
    var input: string
    var context: ContextDetails

    /** The fields as one state value. */
    function View(): State
      reads this
    {
      State(messages, votes, conversationId, phase, isLoading, input, context)
    }

    constructor ()
      ensures View() == Initial
    {
      messages := [SystemMessage(WelcomeText)];
      votes := Some(JNull);
      conversationId := Some(JNull);
      phase := Some(JStr(ReadyPhase));
      isLoading := false;
      input := "";
      context := EmptyContext;
    }

    /** The input box's `onChange`. */
    method SetInput(text: string)
      modifies this
      ensures View() == old(View()).(input := text)
    {
      input := text;
    }

    /** The context panel's fields. */
    method SetContext(c: ContextDetails)
      modifies this
      ensures View() == old(View()).(context := c)
    {
      context := c;
    }

    /** The handler body for one parsed payload. */
    method Dispatch(data: Json)
      modifies this
      ensures View() == Apply(old(View()), data)
    {
      var t := Prop(data, "type");
      if t == Some(JStr("message")) {
        messages := messages + [MessageOf(data)];
      } else if t == Some(JStr("meta")) {
        conversationId := Prop(data, "conversation_id");
      } else if t == Some(JStr("typing")) {
      } else if t == Some(JStr("vote_results")) {
        votes := Prop(data, "votes");
      } else if t == Some(JStr("phase")) {
        phase := Prop(data, "phase");
      } else if Truthy(Prop(data, "error")) {
        messages := messages + [ErrorMessage(data)];
        isLoading := false;
      } else if t == Some(JStr("end")) {
        isLoading := false;
      }
    }

    /**
     * `handleSubmit`: reject a blank input; otherwise append the user message
     * and the placeholder, send the request, drop the typing entries once a
     * body exists and run the read loop, each read split into lines by itself.
     * Returns the request that was sent, if any.
     */
    method HandleSubmit(parse: string -> Option<Json>, resp: Response) returns (sent: Option<Request>)
      modifies this
      ensures View() == Submit(parse, old(View()), resp)
      ensures sent == if Accept(old(View())) && !resp.NoToken?
                      then Some(Request(Augment(old(input), old(context)), old(conversationId)))
                      else None
    {
      if JsTrim(input) == "" {
        return None;
      }
      var enhanced := Begin();

      if resp.NoToken? {
        return None;
      }
      sent := Some(Request(enhanced, conversationId));
      if resp.Rejected? {
        isLoading := false;
        return;
      }
      if resp.NoBody? {
        return;
      }
      Consume(parse, resp);
    }

    /** A response with a body: the typing entries go, then the read loop runs. */
    method Consume(parse: string -> Option<Json>, resp: Response)
      requires resp.Streamed?
      modifies this
      ensures View() == Receive(parse, old(View()), resp)
    {
      messages := WithoutTyping(messages);
      ReadAll(parse, resp.chunks);
      if resp.closing == Broken {
        isLoading := false;
      }
    }

    /**
     * The synchronous part of an accepted submit; returns the message to send.
     */
    method Begin() returns (enhanced: string)
      modifies this
      ensures View() == Submitted(old(View()))
      ensures enhanced == Augment(old(input), old(context))
    {
      enhanced := Augment(input, context);
      messages := messages + [UserMessage(enhanced)];
      input := "";
      isLoading := true;
      votes := Some(JNull);
      context := EmptyContext;
      messages := messages + [Placeholder];
      assert messages == old(messages) + [UserMessage(enhanced), Placeholder];
    }

    /** The read loop: every read in turn, until `done`. */
    method ReadAll(parse: string -> Option<Json>, chunks: seq<string>)
      modifies this
      ensures View() == ApplyAll(old(View()), DecodeReads(parse, chunks))
    {
      ghost var base := View();
      var i := 0;
      while i < |chunks|
        invariant 0 <= i <= |chunks|
        invariant View() == ApplyAll(base, DecodeReads(parse, chunks[..i]))
      {
        ghost var mid := View();
        ReadChunk(parse, chunks[i]);
        ApplyAllAppend(base, DecodeReads(parse, chunks[..i]), DecodeRead(parse, chunks[i]));
        assert chunks[..i + 1][..i] == chunks[..i];
        i := i + 1;
      }
      assert chunks[..|chunks|] == chunks;
    }

    /** One read: split on line feeds, and each `data:` line whose payload parses is dispatched. */
    method ReadChunk(parse: string -> Option<Json>, chunk: string)
      modifies this
      ensures View() == ApplyAll(old(View()), DecodeRead(parse, chunk))
    {
      ghost var mid := View();
      var lines := Split(chunk, '\n');
      var k := 0;
      while k < |lines|
        invariant 0 <= k <= |lines|
        invariant View() == ApplyAll(mid, DecodeLines(parse, lines[..k]))
      {
        var line := lines[k];
        assert lines[..k + 1] == lines[..k] + [line];
        DecodeLinesAppend(parse, lines[..k], [line]);
        if StartsWith(line, DataPrefix) {
          var payload := parse(line[|DataPrefix|..]);
          if payload.Some? {
            ApplyAllAppend(mid, DecodeLines(parse, lines[..k]), [payload.value]);
            Dispatch(payload.value);
          }
        }
        k := k + 1;
      }
      assert lines[..|lines|] == lines;
    }

    /** The history effect, run when the `id` or `new` search parameter changes. */
    method LoadHistory(isNewChat: bool, idParam: Option<string>, fetch: HistoryFetch)
      modifies this
      ensures View() == Reconcile(old(View()), isNewChat, idParam, fetch)
    {
      ghost var before := View();
      if isNewChat {
        messages := [SystemMessage(WelcomeText)];
        conversationId := Some(JNull);
        votes := Some(JNull);
        return;
      }
      if fetch.Unavailable? {
        return;
      }
      var data := fetch.data;
      var listed := Prop(data, "messages");
      if listed.Some? && listed.value.JArr? {
        var items := listed.value.items;
        if |items| > 0 {
          messages := StoredAll(items);
          conversationId := Prop(data, "conversation_id");
          assert View() == before.(messages := StoredAll(items), conversationId := Prop(data, "conversation_id"));
          match FindVoteResults(items)
          case Found(v) =>
            if Truthy(Prop(v, "votes")) {
              votes := Prop(v, "votes");
            }
          case _ =>
        } else if HasParam(idParam) {
          messages := [SystemMessage(NewDebateText)];
          conversationId := Some(JStr(idParam.value));
        }
      }
    }
  }
}
