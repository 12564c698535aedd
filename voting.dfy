/**
 * The end of a debate (`simulate_debate_streaming` after the turn loop): the
 * voting options, one vote per debater, the tally and final decision, and the
 * fixed events that close the stream. Model replies are inputs, `json.loads`
 * is the abstract `loads` (`None` where it raises), and the fuzzy matching of
 * a decision to an option is the abstract `fuzzy` (the option it picks, if
 * any scored above the threshold).
 */
module Voting {
  import opened Wrappers
  import opened Text
  import opened Json
  import opened Tally
  import ChatApi

  /** The result of a step that may raise: its value, or the message of the exception. */
  datatype Outcome<T> = Ok(value: T) | Raise(message: string)

  const Accept: string := "KABUL"
  const Reject: string := "RED"

  /** The decision of a debater that gave none. */
  const Abstain: string := "ÇEKİMSER"

  /** How many times a debater is asked for a vote that parses. */
  const MaxRetries: nat := 2

  /** The Python type of a parsed JSON value, as exception messages name it. */
  function TypeName(j: Json): string {
    match j
    case JNull => "NoneType"
    case JBool(_) => "bool"
    case JNum(_) => "int"
    case JStr(_) => "str"
    case JArr(_) => "list"
    case JObj(_) => "dict"
  }

  /** A reply with its ```` ```json ```` and ```` ``` ```` fences removed, stripped: the text handed to `json.loads`. */
  function Unfence(reply: string): string {
    PyStrip(ReplaceAll(ReplaceAll(reply, "```json", ""), "```", ""))
  }

  /** What a model reply parses to: `json.loads` of the reply without its fences. */
  function ReadJson(loads: string -> Option<Json>): string -> Option<Json> {
    reply => loads(Unfence(reply))
  }

  // ---------------------------------------------------------------------------
  // Voting options
  // ---------------------------------------------------------------------------

  /** The moderator's reply parsed to a list of at least two items. */
  predicate UsableList(parsed: Option<Json>) {
    parsed.Some? && parsed.value.JArr? && |parsed.value.items| >= 2
  }

  /** The options: the parsed list when it has two items or more, else `KABUL` and `RED`. */
  function VotingOptions(reply: string, parse: string -> Option<Json>): (options: seq<Json>)
    ensures |options| >= 2
    ensures UsableList(parse(reply)) ==> options == parse(reply).value.items
    ensures !UsableList(parse(reply)) ==> options == [JStr(Accept), JStr(Reject)]
  {
    var parsed := parse(reply);
    if UsableList(parsed) then parsed.value.items else [JStr(Accept), JStr(Reject)]
  }

  /** The `TypeError` of `", ".join(...)` at the first item that is not a string. */
  function NotText(i: nat, item: Json): string {
    "sequence item " + NatToString(i) + ": expected str instance, " + TypeName(item) + " found"
  }

  /**
   * The options from index `from` on as strings, which `", ".join` needs;
   * the join raises at the first item that is not a string.
   */
  function OptionTexts(options: seq<Json>, from: nat): (r: Outcome<seq<string>>)
    requires from <= |options|
    ensures r.Ok? <==> forall i :: from <= i < |options| ==> options[i].JStr?
    ensures r.Ok? ==>
      && |r.value| == |options| - from
      && forall i :: 0 <= i < |r.value| ==> options[from + i] == JStr(r.value[i])
    ensures r.Raise? ==>
      exists i :: from <= i < |options| && !options[i].JStr?
        && (forall j :: from <= j < i ==> options[j].JStr?)
        && r.message == NotText(i, options[i])
    decreases |options| - from
  {
    if from == |options| then Ok([])
    else if !options[from].JStr? then Raise(NotText(from, options[from]))
    else
      match OptionTexts(options, from + 1)
      case Ok(rest) => Ok([options[from].s] + rest)
      case Raise(m) => Raise(m)
  }

  // ---------------------------------------------------------------------------
  // One vote per debater
  // ---------------------------------------------------------------------------

  /** A debater as the vote needs it. */
  datatype Debater = Debater(name: string, persona: string)

  /** A vote as recorded; `reason` is whatever JSON value the reply gave. */
  datatype Vote = Vote(agent: string, persona: string, decision: string, reason: Json)

  /** The vote data used when no reply parses. */
  const DefaultVote: Json := JObj([("decision", JStr(Abstain)), ("reason", JStr("Oylama hatası."))])

  /** The reply to attempt `k` of debater `d`, parsed. */
  function Parsed(ask: (nat, nat) -> string, parse: string -> Option<Json>, d: nat, k: nat): Option<Json> {
    parse(ask(d, k))
  }

  /**
   * The vote data of debater `d` from attempt `attempt` on: the first reply that
   * parses, or the default once the attempts are used up. `ask(d, k)` is the
   * reply to attempt `k`.
   */
  function VoteData(ask: (nat, nat) -> string, parse: string -> Option<Json>, d: nat, attempt: nat): Json
    requires attempt <= MaxRetries
    decreases MaxRetries - attempt
  {
    if attempt == MaxRetries then DefaultVote
    else
      match Parsed(ask, parse, d, attempt)
      case Some(j) => j
      case None => VoteData(ask, parse, d, attempt + 1)
  }

  /** The vote data is the first reply that parses, and the default when none does. */
  lemma {:induction false} VoteDataIsFirstParsed(ask: (nat, nat) -> string, parse: string -> Option<Json>, d: nat, attempt: nat)
    requires attempt <= MaxRetries
    ensures (forall k :: attempt <= k < MaxRetries ==> Parsed(ask, parse, d, k).None?) ==>
      VoteData(ask, parse, d, attempt) == DefaultVote
    ensures forall k :: attempt <= k < MaxRetries ==>
      ((forall j :: attempt <= j < k ==> Parsed(ask, parse, d, j).None?) && Parsed(ask, parse, d, k).Some?)
        ==> VoteData(ask, parse, d, attempt) == Parsed(ask, parse, d, k).value
    decreases MaxRetries - attempt
  {
    if attempt < MaxRetries {
      VoteDataIsFirstParsed(ask, parse, d, attempt + 1);
    }
  }

  /** The retry loop: ask until a reply parses, at most twice. */
  method ReadVote(ask: (nat, nat) -> string, parse: string -> Option<Json>, d: nat) returns (data: Json)
    ensures data == VoteData(ask, parse, d, 0)
  {
    data := DefaultVote;
    var attempt := 0;
    while attempt < MaxRetries
      invariant 0 <= attempt <= MaxRetries
      invariant data == DefaultVote
      invariant VoteData(ask, parse, d, 0) == VoteData(ask, parse, d, attempt)
    {
      var parsed := Parsed(ask, parse, d, attempt);
      if parsed.Some? {
        data := parsed.value;
        break;
      }
      attempt := attempt + 1;
    }
  }

  /** An upper-cased string is its own upper case. */
  lemma UpperIdempotent(s: string)
    ensures Upper(Upper(s)) == Upper(s)
  {
  }

  /**
   * The decision, upper-cased: `ÇEKİMSER` when the data has none; raises when
   * the data is not an object (`.get`) or the decision not a string (`.upper`).
   */
  function Decision(data: Json): Outcome<string> {
    match data
    case JObj(fields) =>
      (match Lookup(fields, "decision")
       case None => Ok(Upper(Abstain))
       case Some(j) =>
         if j.JStr? then Ok(Upper(j.s))
         else Raise("'" + TypeName(j) + "' object has no attribute 'upper'"))
    case _ => Raise("'" + TypeName(data) + "' object has no attribute 'get'")
  }

  /**
   * A decision is read exactly from an object whose decision is missing or a
   * string; it is upper case, and `ÇEKİMSER` when the data has none.
   */
  lemma DecisionShape(data: Json)
    ensures var r := Decision(data);
      && (r.Ok? <==> data.JObj? && (Lookup(data.fields, "decision").None? || Lookup(data.fields, "decision").value.JStr?))
      && (r.Ok? ==> Upper(r.value) == r.value)
      && (data.JObj? && Lookup(data.fields, "decision").None? ==> r == Ok(Abstain))
      && (data.JObj? && Lookup(data.fields, "decision") == Some(JStr(Abstain)) ==> r == Ok(Abstain))
      && (data.JObj? && Lookup(data.fields, "decision").Some? && Lookup(data.fields, "decision").value.JStr? ==>
            r == Ok(Upper(Lookup(data.fields, "decision").value.s)))
      && (!data.JObj? ==> r == Raise("'" + TypeName(data) + "' object has no attribute 'get'"))
  {
    assert Upper(Abstain) == Abstain;
    if data.JObj? && Lookup(data.fields, "decision").Some? && Lookup(data.fields, "decision").value.JStr? {
      UpperIdempotent(Lookup(data.fields, "decision").value.s);
    }
  }

  /** The persona's title: the text before its first `:`. */
  function PersonaTitle(persona: string): (r: string)
    ensures StartsWith(persona, r) && ':' !in r
    ensures ':' !in persona ==> r == persona
    ensures ':' in persona ==> |r| < |persona| && persona[|r|] == ':'
  {
    SplitPiecesFree(persona, ':');
    assert Split(persona, ':')[0] in Split(persona, ':');
    if ':' !in persona then
      SplitWithoutSeparator(persona, ':');
      Split(persona, ':')[0]
    else
      SplitFirstEndsAtSeparator(persona, ':');
      Split(persona, ':')[0]
  }

  /**
   * The option the decision is taken to mean when the fuzzy match picks one,
   * else the decision as it stands.
   */
  function Normalize(decision: string, options: seq<string>, fuzzy: (string, seq<string>) -> Option<nat>): (r: string)
    ensures r == decision || r in options
    ensures fuzzy(decision, options).None? ==> r == decision
  {
    match fuzzy(decision, options)
    case Some(i) => if i < |options| then options[i] else decision
    case None => decision
  }

  /** The vote of debater `d`, or the exception reading it raised. */
  function VoteOf(debaters: seq<Debater>, d: nat, ask: (nat, nat) -> string, parse: string -> Option<Json>,
                  options: seq<string>, fuzzy: (string, seq<string>) -> Option<nat>): Outcome<Vote>
    requires d < |debaters|
  {
    var data := VoteData(ask, parse, d, 0);
    match Decision(data)
    case Raise(m) => Raise(m)
    case Ok(decision) =>
      Ok(Vote(debaters[d].name, PersonaTitle(debaters[d].persona), Normalize(decision, options, fuzzy),
              Lookup(data.fields, "reason").GetOr(JStr("..."))))
  }

  /**
   * A vote names its debater and the debater's persona title, and its decision
   * is one of the options or an upper-cased reply; reading it raises exactly
   * when the decision does.
   */
  lemma VoteOfShape(debaters: seq<Debater>, d: nat, ask: (nat, nat) -> string, parse: string -> Option<Json>,
                    options: seq<string>, fuzzy: (string, seq<string>) -> Option<nat>)
    requires d < |debaters|
    ensures var r := VoteOf(debaters, d, ask, parse, options, fuzzy);
      && (r.Ok? <==> Decision(VoteData(ask, parse, d, 0)).Ok?)
      && (r.Ok? ==> r.value.agent == debaters[d].name && r.value.persona == PersonaTitle(debaters[d].persona))
      && (r.Ok? ==> r.value.decision in options || Upper(r.value.decision) == r.value.decision)
      && (r.Ok? ==>
            && Decision(VoteData(ask, parse, d, 0)).Ok?
            && r.value.decision == Normalize(Decision(VoteData(ask, parse, d, 0)).value, options, fuzzy)
            && r.value.reason == Lookup(VoteData(ask, parse, d, 0).fields, "reason").GetOr(JStr("...")))
      && (r.Raise? ==> Decision(VoteData(ask, parse, d, 0)) == Raise(r.message))
  {
    DecisionShape(VoteData(ask, parse, d, 0));
  }

  /** The votes of the first `n` debaters, in order; the first exception stops the round. */
  function Votes(debaters: seq<Debater>, n: nat, ask: (nat, nat) -> string, parse: string -> Option<Json>,
                 options: seq<string>, fuzzy: (string, seq<string>) -> Option<nat>): Outcome<seq<Vote>>
    requires n <= |debaters|
  {
    if n == 0 then Ok([])
    else
      match Votes(debaters, n - 1, ask, parse, options, fuzzy)
      case Raise(m) => Raise(m)
      case Ok(votes) =>
        match VoteOf(debaters, n - 1, ask, parse, options, fuzzy)
        case Raise(m) => Raise(m)
        case Ok(v) => Ok(votes + [v])
  }

  /**
   * Exactly one vote per debater, in debater order, when no vote raises; the
   * exception of a vote that raised otherwise.
   */
  lemma {:induction false} VotesOnePerDebater(debaters: seq<Debater>, n: nat, ask: (nat, nat) -> string,
                                              parse: string -> Option<Json>, options: seq<string>,
                                              fuzzy: (string, seq<string>) -> Option<nat>)
    requires n <= |debaters|
    ensures var r := Votes(debaters, n, ask, parse, options, fuzzy);
      && (r.Ok? <==> forall i :: 0 <= i < n ==> VoteOf(debaters, i, ask, parse, options, fuzzy).Ok?)
      && (r.Ok? ==>
            && |r.value| == n
            && forall i :: 0 <= i < n ==> VoteOf(debaters, i, ask, parse, options, fuzzy) == Ok(r.value[i]))
      && (r.Raise? ==> exists i :: 0 <= i < n && VoteOf(debaters, i, ask, parse, options, fuzzy) == Raise(r.message))
  {
    if n > 0 {
      VotesOnePerDebater(debaters, n - 1, ask, parse, options, fuzzy);
      var before := Votes(debaters, n - 1, ask, parse, options, fuzzy);
      var last := VoteOf(debaters, n - 1, ask, parse, options, fuzzy);
      if before.Raise? {
        assert Votes(debaters, n, ask, parse, options, fuzzy) == before;
        var i :| 0 <= i < n - 1 && VoteOf(debaters, i, ask, parse, options, fuzzy) == Raise(before.message);
        assert VoteOf(debaters, i, ask, parse, options, fuzzy).Raise?;
      } else {
        VotesNext(debaters, n - 1, ask, parse, options, fuzzy, before.value);
        if last.Raise? {
          assert VoteOf(debaters, n - 1, ask, parse, options, fuzzy).Raise?;
        } else {
          var votes := before.value + [last.value];
          forall i | 0 <= i < n
            ensures VoteOf(debaters, i, ask, parse, options, fuzzy) == Ok(votes[i])
          {
            if i < n - 1 {
              assert votes[i] == before.value[i];
            }
          }
        }
      }
    }
  }

  /** The round yields votes exactly when every debater's data holds a readable decision. */
  lemma VotesIffDecided(debaters: seq<Debater>, ask: (nat, nat) -> string, parse: string -> Option<Json>,
                        options: seq<string>, fuzzy: (string, seq<string>) -> Option<nat>)
    ensures Votes(debaters, |debaters|, ask, parse, options, fuzzy).Ok? <==>
      forall d :: 0 <= d < |debaters| ==> Decision(VoteData(ask, parse, d, 0)).Ok?
  {
    VotesOnePerDebater(debaters, |debaters|, ask, parse, options, fuzzy);
    forall d | 0 <= d < |debaters|
      ensures VoteOf(debaters, d, ask, parse, options, fuzzy).Ok? <==> Decision(VoteData(ask, parse, d, 0)).Ok?
    {
      VoteOfShape(debaters, d, ask, parse, options, fuzzy);
    }
    if forall d :: 0 <= d < |debaters| ==> Decision(VoteData(ask, parse, d, 0)).Ok? {
      assert forall d :: 0 <= d < |debaters| ==> VoteOf(debaters, d, ask, parse, options, fuzzy).Ok?;
    }
    if Votes(debaters, |debaters|, ask, parse, options, fuzzy).Ok? {
      forall d | 0 <= d < |debaters| ensures Decision(VoteData(ask, parse, d, 0)).Ok? {
        assert VoteOf(debaters, d, ask, parse, options, fuzzy).Ok?;
      }
    } else {
      var r := Votes(debaters, |debaters|, ask, parse, options, fuzzy);
      var d :| 0 <= d < |debaters| && VoteOf(debaters, d, ask, parse, options, fuzzy) == Raise(r.message);
      assert !Decision(VoteData(ask, parse, d, 0)).Ok?;
    }
  }

  /** One debater's vote: read the data with retries, then the decision, normalized. */
  method ReadBallot(debaters: seq<Debater>, d: nat, ask: (nat, nat) -> string, parse: string -> Option<Json>,
                    options: seq<string>, fuzzy: (string, seq<string>) -> Option<nat>) returns (r: Outcome<Vote>)
    requires d < |debaters|
    ensures r == VoteOf(debaters, d, ask, parse, options, fuzzy)
  {
    var data := ReadVote(ask, parse, d);
    var decision := Decision(data);
    if decision.Raise? {
      return Raise(decision.message);
    }
    r := Ok(Vote(debaters[d].name, PersonaTitle(debaters[d].persona), Normalize(decision.value, options, fuzzy),
                 Lookup(data.fields, "reason").GetOr(JStr("..."))));
  }

  /** The voting round: each debater in turn reads its vote; an exception ends the round. */
  method CollectVotes(debaters: seq<Debater>, ask: (nat, nat) -> string, parse: string -> Option<Json>,
                      options: seq<string>, fuzzy: (string, seq<string>) -> Option<nat>) returns (r: Outcome<seq<Vote>>)
    ensures r == Votes(debaters, |debaters|, ask, parse, options, fuzzy)
  {
    var votes: seq<Vote> := [];
    var i := 0;
    while i < |debaters|
      invariant 0 <= i <= |debaters|
      invariant Votes(debaters, i, ask, parse, options, fuzzy) == Ok(votes)
    {
      var ballot := ReadBallot(debaters, i, ask, parse, options, fuzzy);
      if ballot.Raise? {
        RaiseEnds(debaters, i, ask, parse, options, fuzzy, votes);
        return Raise(ballot.message);
      }
      VotesNext(debaters, i, ask, parse, options, fuzzy, votes);
      votes := votes + [ballot.value];
      i := i + 1;
    }
    return Ok(votes);
  }

  /** One more debater: the round goes on with that debater's vote, or stops with its exception. */
  lemma VotesNext(debaters: seq<Debater>, n: nat, ask: (nat, nat) -> string, parse: string -> Option<Json>,
                  options: seq<string>, fuzzy: (string, seq<string>) -> Option<nat>, votes: seq<Vote>)
    requires n < |debaters| && Votes(debaters, n, ask, parse, options, fuzzy) == Ok(votes)
    ensures var v := VoteOf(debaters, n, ask, parse, options, fuzzy);
      && (v.Ok? ==> Votes(debaters, n + 1, ask, parse, options, fuzzy) == Ok(votes + [v.value]))
      && (v.Raise? ==> Votes(debaters, n + 1, ask, parse, options, fuzzy) == Raise(v.message))
  {
  }

  /** A vote that raises is the outcome of the whole round. */
  lemma RaiseEnds(debaters: seq<Debater>, n: nat, ask: (nat, nat) -> string, parse: string -> Option<Json>,
                  options: seq<string>, fuzzy: (string, seq<string>) -> Option<nat>, votes: seq<Vote>)
    requires n < |debaters| && Votes(debaters, n, ask, parse, options, fuzzy) == Ok(votes)
    requires VoteOf(debaters, n, ask, parse, options, fuzzy).Raise?
    ensures Votes(debaters, |debaters|, ask, parse, options, fuzzy) == Raise(VoteOf(debaters, n, ask, parse, options, fuzzy).message)
  {
    VotesNext(debaters, n, ask, parse, options, fuzzy, votes);
    RaiseStops(debaters, n + 1, |debaters|, ask, parse, options, fuzzy);
  }

  /** Once a vote raised, the round's outcome is that exception. */
  lemma {:induction false} RaiseStops(debaters: seq<Debater>, k: nat, n: nat, ask: (nat, nat) -> string,
                                      parse: string -> Option<Json>, options: seq<string>,
                                      fuzzy: (string, seq<string>) -> Option<nat>)
    requires k <= n <= |debaters|
    requires Votes(debaters, k, ask, parse, options, fuzzy).Raise?
    ensures Votes(debaters, n, ask, parse, options, fuzzy) == Votes(debaters, k, ask, parse, options, fuzzy)
    decreases n - k
  {
    if n > k {
      RaiseStops(debaters, k, n - 1, ask, parse, options, fuzzy);
    }
  }

  /** The vote as the `vote_results` event carries it. */
  function VoteJson(v: Vote): Json {
    JObj([("agent", JStr(v.agent)), ("persona", JStr(v.persona)), ("decision", JStr(v.decision)), ("reason", v.reason)])
  }

  function Decisions(votes: seq<Vote>): (r: seq<string>)
    ensures |r| == |votes| && forall i :: 0 <= i < |votes| ==> r[i] == votes[i].decision
  {
    seq(|votes|, i requires 0 <= i < |votes| => votes[i].decision)
  }

  // ---------------------------------------------------------------------------
  // Tally and final decision
  // ---------------------------------------------------------------------------

  /**
   * `vote_counts`: one entry per distinct decision, in order of first
   * appearance, holding how many votes chose it.
   */
  method CountVotes(decisions: seq<string>) returns (keys: seq<string>, counts: map<string, nat>)
    ensures keys == Distinct(decisions)
    ensures counts.Keys == set d | d in decisions
    ensures forall d :: d in counts ==> counts[d] == Count(decisions, d)
  {
    keys := [];
    counts := map[];
    var i := 0;
    while i < |decisions|
      invariant 0 <= i <= |decisions|
      invariant keys == Distinct(decisions[..i])
      invariant counts.Keys == set d | d in decisions[..i]
      invariant forall d :: d in counts ==> counts[d] == Count(decisions[..i], d)
    {
      var d := decisions[i];
      assert decisions[..i + 1] == decisions[..i] + [d];
      assert decisions[..i + 1][..i] == decisions[..i];
      if d !in counts {
        keys := keys + [d];
        counts := counts[d := 1];
      } else {
        counts := counts[d := counts[d] + 1];
      }
      i := i + 1;
    }
    assert decisions[..i] == decisions;
  }

  /** `max(keys, key=counts.get)`: the first key holding the largest count. */
  function MaxKey(keys: seq<string>, counts: map<string, nat>): (r: string)
    requires |keys| > 0 && NoDuplicates(keys) && forall k :: k in keys ==> k in counts
    ensures r in keys
    ensures forall k :: k in keys ==> counts[k] <= counts[r]
    ensures forall j :: 0 <= j < |keys| && keys[j] == r ==> forall i :: 0 <= i < j ==> counts[keys[i]] < counts[r]
    decreases |keys|
  {
    if |keys| == 1 then keys[0]
    else
      var init := keys[..|keys| - 1];
      var last := keys[|keys| - 1];
      assert keys == init + [last];
      assert NoDuplicates(init);
      var best := MaxKey(init, counts);
      assert last != best by {
        assert best in init;
        assert forall i :: 0 <= i < |init| ==> keys[i] != last;
      }
      if counts[last] > counts[best] then last else best
  }

  /** The board's decision: the most chosen one, the earliest on a tie; `ÇEKİMSER` without votes. */
  function FinalDecision(keys: seq<string>, counts: map<string, nat>): string
    requires NoDuplicates(keys) && forall k :: k in keys ==> k in counts
  {
    if |keys| == 0 then Abstain else MaxKey(keys, counts)
  }

  /** The final decision was chosen by at least as many votes as any other decision. */
  lemma FinalHasMostVotes(decisions: seq<string>, keys: seq<string>, counts: map<string, nat>)
    requires keys == Distinct(decisions)
    requires counts.Keys == set d | d in decisions
    requires forall d :: d in counts ==> counts[d] == Count(decisions, d)
    ensures |decisions| == 0 ==> FinalDecision(keys, counts) == Abstain
    ensures |decisions| > 0 ==>
      && FinalDecision(keys, counts) in decisions
      && forall d :: d in decisions ==> Count(decisions, d) <= Count(decisions, FinalDecision(keys, counts))
  {
    if |decisions| > 0 {
      assert decisions[0] in keys;
    }
  }

  // ---------------------------------------------------------------------------
  // The end of the stream
  // ---------------------------------------------------------------------------

  function Typing(): Json {
    JObj([("type", JStr("typing")), ("agent", JStr("Sistem"))])
  }

  function SystemMessage(content: string): Json {
    JObj([("type", JStr("message")), ("role", JStr("Sistem")), ("content", JStr(content)), ("is_agent", JBool(false))])
  }

  const DebateOver: string := "\U{1F3C1} Tartışma Sona Erdi. Seçenekler Belirleniyor..."
  const OptionsHeading: string := "\U{1F3AF} **Oylama Seçenekleri:** "
  const ReportComing: string := "\U{1F4CB} **Nihai Karar Raporu Hazırlanıyor...**"

  function VoteResults(votes: seq<Vote>): Json {
    JObj([("type", JStr("vote_results")), ("votes", JArr(seq(|votes|, i requires 0 <= i < |votes| => VoteJson(votes[i]))))])
  }

  /** The last event of a debate that did not raise. */
  const EndEvent: Json := JObj([("type", JStr("end")), ("reason", JStr("max_turns"))])

  /**
   * What the generator yields after the turn loop, and the exception that
   * stops it if one does: the voting options' join, or reading a vote.
   * `report` is the moderator's decision report.
   */
  function Tail(optionsReply: string, loads: string -> Option<Json>, debaters: seq<Debater>, ask: (nat, nat) -> string,
                fuzzy: (string, seq<string>) -> Option<nat>, report: string): ChatApi.Debate
  {
    var opening := [Typing(), SystemMessage(DebateOver)];
    match OptionTexts(VotingOptions(optionsReply, ReadJson(loads)), 0)
    case Raise(m) => ChatApi.Debate(opening, Some(m))
    case Ok(options) =>
      var announced := opening + [SystemMessage(OptionsHeading + Join(options, ", "))];
      match Votes(debaters, |debaters|, ask, ReadJson(loads), options, fuzzy)
      case Raise(m) => ChatApi.Debate(announced, Some(m))
      case Ok(votes) =>
        ChatApi.Debate(announced + [VoteResults(votes), Typing(), SystemMessage(ReportComing), SystemMessage(report), EndEvent], None)
  }

  /**
   * The tail raises exactly when an option is not a string or a vote cannot
   * be read; otherwise the votes come before the report and `end` is last.
   */
  lemma TailShape(optionsReply: string, loads: string -> Option<Json>, debaters: seq<Debater>, ask: (nat, nat) -> string,
                  fuzzy: (string, seq<string>) -> Option<nat>, report: string)
    ensures var tail := Tail(optionsReply, loads, debaters, ask, fuzzy, report);
      var options := VotingOptions(optionsReply, ReadJson(loads));
      && (tail.raised.None? <==>
            && (forall i :: 0 <= i < |options| ==> options[i].JStr?)
            && forall d :: 0 <= d < |debaters| ==> Decision(VoteData(ask, ReadJson(loads), d, 0)).Ok?)
      && (tail.raised.None? ==>
            && |tail.events| == 8
            && tail.events[3].JObj? && Lookup(tail.events[3].fields, "type") == Some(JStr("vote_results"))
            && tail.events[6] == SystemMessage(report)
            && tail.events[7] == EndEvent)
  {
    var options := VotingOptions(optionsReply, ReadJson(loads));
    var texts := OptionTexts(options, 0);
    if texts.Ok? {
      VotesIffDecided(debaters, ask, ReadJson(loads), texts.value, fuzzy);
    }
  }

  /** On the wire, a debate that did not raise ends with the `end` frame, and one that did with the error frame. */
  lemma LastFrame(id: Json, optionsReply: string, loads: string -> Option<Json>, debaters: seq<Debater>,
                  ask: (nat, nat) -> string, fuzzy: (string, seq<string>) -> Option<nat>, report: string)
    ensures var tail := Tail(optionsReply, loads, debaters, ask, fuzzy, report);
      var frames := ChatApi.Frames(id, tail);
      && (tail.raised.None? ==> frames[|frames| - 1] == ChatApi.Frame(EndEvent, false))
      && (tail.raised.Some? ==> frames[|frames| - 1] == ChatApi.ErrorFrame(tail.raised.value))
  {
    TailShape(optionsReply, loads, debaters, ask, fuzzy, report);
  }
}
