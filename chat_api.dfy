/**
 * The chat API (backend/app/api/chat.py): the history endpoint's
 * transformation of stored rows into client messages, the stream endpoint's
 * choice of conversation id and title, and the framing of every event as
 * `data: <json>` followed by a blank line.
 *
 * The database is not modelled: what its queries return (or that they
 * threw) is an input. `json.loads` is a parameter `loads`, `None` being a
 * raised error.
 */
module ChatApi {
  import opened Wrappers
  import opened Text
  import opened Json

  // ---------------------------------------------------------------------------
  // History
  // ---------------------------------------------------------------------------

  /** A stored message row: its role, its content and its metadata column. */
  datatype Row = Row(role: string, content: string, metadata: Json)

  /**
   * The client message for one row, or `None` when the transformation raises:
   * a `vote_results` row whose content does not parse, or metadata that is
   * truthy but not a dict. Null or empty metadata counts as an empty dict.
   */
  function FormatRow(row: Row, loads: string -> Option<Json>): (r: Option<Json>)
    ensures row.role == "vote_results" ==>
      (r.Some? <==> loads(row.content).Some?)
      && (r.Some? ==> r.value == JObj([("type", JStr("vote_results")), ("votes", loads(row.content).value)]))
    ensures row.role != "vote_results" && r.Some? ==>
      && r.value.JObj? && |r.value.fields| == 4
      && r.value.fields[0] == ("role", JStr(row.role))
      && r.value.fields[1] == ("content", JStr(row.content))
      && r.value.fields[2].0 == "agentName"
      && r.value.fields[3] == ("type", JStr("message"))
  {
    if row.role == "vote_results" then
      match loads(row.content)
      case None => None
      case Some(votes) => Some(JObj([("type", JStr("vote_results")), ("votes", votes)]))
    else
      var metadata := if PyTruthy(row.metadata) then row.metadata else JObj([]);
      match metadata
      case JObj(fields) =>
        var agentName := Lookup(fields, "agent_name").GetOr(JStr(row.role));
        Some(JObj([("role", JStr(row.role)), ("content", JStr(row.content)),
                   ("agentName", agentName), ("type", JStr("message"))]))
      case _ => None
  }

  /** The speaker shown for a row: the metadata's `agent_name` when present (even `null`), otherwise the role. */
  lemma AgentNameRule(row: Row, loads: string -> Option<Json>)
    requires row.role != "vote_results"
    ensures var r := FormatRow(row, loads);
      && (row.metadata == JNull || row.metadata == JObj([]) ==> r.Some? && r.value.fields[2].1 == JStr(row.role))
      && (row.metadata.JObj? ==> r.Some? && r.value.fields[2].1 == Lookup(row.metadata.fields, "agent_name").GetOr(JStr(row.role)))
  {
  }

  /**
   * The row loop: one message per row, in row order, or `None` as soon as a
   * row raises (the endpoint then answers with no messages at all).
   */
  method FormatRows(rows: seq<Row>, loads: string -> Option<Json>) returns (r: Option<seq<Json>>)
    ensures r.None? <==> exists k :: 0 <= k < |rows| && FormatRow(rows[k], loads).None?
    ensures r.Some? ==> |r.value| == |rows| && forall k :: 0 <= k < |rows| ==> Some(r.value[k]) == FormatRow(rows[k], loads)
  {
    var formatted: seq<Json> := [];
    var i := 0;
    while i < |rows|
      invariant 0 <= i <= |rows|
      invariant |formatted| == i
      invariant forall k :: 0 <= k < i ==> Some(formatted[k]) == FormatRow(rows[k], loads)
    {
      var m := FormatRow(rows[i], loads);
      if m.None? {
        return None;
      }
      formatted := formatted + [m.value];
      i := i + 1;
    }
    return Some(formatted);
  }

  /** What the store gave the history endpoint. */
  datatype Store = Store(
    hasProfile: bool,                    // the profile lookup found the user's organisation
    latestConversation: Option<string>,  // the organisation's newest conversation, if any
    rows: seq<Row>,                      // the conversation's rows, oldest first
    raises: bool)                        // a query raised

  /** A Python string is falsy when absent or empty. */
  predicate Given(id: Option<string>) {
    id.Some? && id.value != ""
  }

  /** The conversation the endpoint reads: the requested one, or else the organisation's newest. */
  function TargetConversation(requested: Option<string>, store: Store): Option<string> {
    if Given(requested) then requested
    else if store.raises || !store.hasProfile then None
    else store.latestConversation
  }

  /** The endpoint's whole answer. */
  method GetHistory(requested: Option<string>, store: Store, loads: string -> Option<Json>) returns (answer: Json)
    ensures var target := TargetConversation(requested, store);
      if target.None? || store.raises || exists k :: 0 <= k < |store.rows| && FormatRow(store.rows[k], loads).None?
      then answer == JObj([("messages", JArr([]))])
      else (answer.JObj? && |answer.fields| == 2
        && answer.fields[1] == ("conversation_id", JStr(target.value))
        && answer.fields[0].0 == "messages" && answer.fields[0].1.JArr?
        && |answer.fields[0].1.items| == |store.rows|
        && forall k :: 0 <= k < |store.rows| ==> Some(answer.fields[0].1.items[k]) == FormatRow(store.rows[k], loads))
  {
    var empty := JObj([("messages", JArr([]))]);
    var target := TargetConversation(requested, store);
    if target.None? || store.raises {
      return empty;
    }
    var formatted := FormatRows(store.rows, loads);
    if formatted.None? {
      return empty;
    }
    return JObj([("messages", JArr(formatted.value)), ("conversation_id", JStr(target.value))]);
  }

  // ---------------------------------------------------------------------------
  // The stream endpoint
  // ---------------------------------------------------------------------------

  /** The title of a new conversation: the first 50 characters of the message, or `New Debate` for an empty one. */
  function Title(message: string): (t: string)
    ensures message == "" ==> t == "New Debate"
    ensures message != "" ==> 0 < |t| <= 50 && StartsWith(message, t) && (|t| < 50 ==> t == message)
  {
    if |message| == 0 then "New Debate"
    else if |message| <= 50 then message
    else message[..50]
  }

  /** How creating the conversation went. */
  datatype Creation =
    | Created(id: Json)  // the insert returned a row with this id
    | NoRow              // the insert returned no data
    | Failed             // provisioning or the insert raised

  /**
   * The conversation id the stream announces: a supplied id as is (nothing is
   * created); otherwise the new row's id, the request's own value when the
   * insert returned nothing, or `None` when creation raised.
   */
  function ResolveConversation(requested: Option<string>, creation: Creation): (id: Json)
    ensures Given(requested) ==> id == JStr(requested.value)
    ensures !Given(requested) && creation.Failed? ==> id == JNull
  {
    if Given(requested) then JStr(requested.value)
    else
      match creation
      case Created(id) => id
      case NoRow => if requested.Some? then JStr(requested.value) else JNull
      case Failed => JNull
  }

  /** One frame of the stream. */
  function Frame(event: Json, ascii: bool): (f: string)
    ensures StartsWith(f, "data: ")
    ensures f[|f| - 2..] == "\n\n"
    ensures '\n' !in f[..|f| - 2]
  {
    var body := "data: " + Encode(event, ascii);
    EncodeNoLineFeed(event, ascii);
    assert '\n' !in body;
    assert (body + "\n\n")[..|body|] == body;
    body + "\n\n"
  }

  /** The meta event announcing the conversation id. */
  function Meta(id: Json): Json {
    JObj([("type", JStr("meta")), ("conversation_id", id)])
  }

  /** The frame for an exception `e` raised inside the stream: an object with only `error`, `json.dumps` defaults. */
  function ErrorFrame(message: string): string {
    Frame(JObj([("error", JStr(message))]), true)
  }

  /**
   * What the debate generator did: the events it yielded, and the message of
   * the exception that ended it, if one did.
   */
  datatype Debate = Debate(events: seq<Json>, raised: Option<string>)

  /** The frames of the whole stream, in order. */
  function Frames(id: Json, debate: Debate): (frames: seq<string>)
    ensures |frames| == 1 + |debate.events| + (if debate.raised.Some? then 1 else 0)
    ensures frames[0] == Frame(Meta(id), false)
    ensures forall k :: 0 <= k < |debate.events| ==> frames[k + 1] == Frame(debate.events[k], false)
    ensures debate.raised.Some? ==> frames[|frames| - 1] == ErrorFrame(debate.raised.value)
  {
    [Frame(Meta(id), false)]
    + seq(|debate.events|, k requires 0 <= k < |debate.events| => Frame(debate.events[k], false))
    + (if debate.raised.Some? then [ErrorFrame(debate.raised.value)] else [])
  }

  /** `generate`: the meta frame, then one frame per event, then the error frame if the debate raised. */
  method Generate(id: Json, debate: Debate) returns (frames: seq<string>)
    ensures frames == Frames(id, debate)
  {
    var meta := Frame(Meta(id), false);
    var events := debate.events;
    var body: seq<string> := [];
    var i := 0;
    while i < |events|
      invariant 0 <= i <= |events|
      invariant |body| == i
      invariant forall k :: 0 <= k < i ==> body[k] == Frame(events[k], false)
    {
      var f := Frame(events[i], false);
      body := body + [f];
      i := i + 1;
    }
    assert body == seq(|events|, k requires 0 <= k < |events| => Frame(events[k], false));
    frames := [meta] + body;
    if debate.raised.Some? {
      frames := frames + [ErrorFrame(debate.raised.value)];
    }
  }
}
