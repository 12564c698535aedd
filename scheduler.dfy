/**
 * The turn loop of the debate (`simulate_debate_streaming`): who speaks on
 * each of at most five turns, how many times each debater has spoken, when
 * the moderator steps in, and how the next speaker is chosen. Model replies
 * are inputs: `reply(turn, speaker)` is what the speaker's model returned on
 * that turn and `moderator(turn)` what the moderator's model returned when it
 * was asked to intervene.
 */
module Scheduler {
  import opened Wrappers
  import opened Text
  import opened Tags

  /** `MAX_SPEAKS_PER_AGENT`: no debater speaks more than twice. */
  const MaxSpeaks: nat := 2

  /** `max_turns`: the loop runs at most five turns. */
  const MaxTurns: nat := 5

  /** Every debater's name has a speak count. */
  predicate Known(names: seq<string>, counts: map<string, nat>) {
    forall k :: 0 <= k < |names| ==> names[k] in counts
  }

  /** Debater `k` has used up its turns. */
  predicate AtLimit(names: seq<string>, counts: map<string, nat>, k: int)
    requires Known(names, counts) && 0 <= k < |names|
  {
    counts[names[k]] >= MaxSpeaks
  }

  /**
   * The `i`-th index tried by the cyclic search that starts after `current`:
   * `(current + i + 1) % n`, written as one wrap-around (`CandidateIsModulo`).
   */
  function Candidate(current: nat, i: nat, n: nat): (c: nat)
    requires current < n && i < n
    ensures c < n
  {
    if current + i + 1 < n then current + i + 1 else current + i + 1 - n
  }

  /** The wrap-around is the source's modulo. */
  lemma CandidateIsModulo(current: nat, i: nat, n: nat)
    requires current < n && i < n
    ensures Candidate(current, i, n) == (current + i + 1) % n
  {
    var c := Candidate(current, i, n);
    if current + i + 1 >= n {
      assert current + i + 1 == c + n;
      ModAfterWrap(c, n);
    }
  }

  /** The cyclic search tries every index within `n` steps. */
  lemma CandidateCovers(current: nat, k: nat, n: nat)
    requires current < n && k < n
    ensures exists i :: 0 <= i < n && Candidate(current, i, n) == k
  {
    if k > current {
      assert Candidate(current, k - current - 1, n) == k;
    } else {
      assert Candidate(current, k + n - current - 1, n) == k;
    }
  }

  lemma ModAfterWrap(k: nat, n: nat)
    requires k < n
    ensures (k + n) % n == k
  {
  }

  /**
   * The first index under the limit among the cyclic search's candidates
   * from the `i`-th on; none when every remaining candidate is at the limit.
   */
  function FirstUnder(names: seq<string>, counts: map<string, nat>, current: nat, i: nat): (r: Option<nat>)
    requires Known(names, counts) && current < |names|
    ensures r.Some? ==> r.value < |names| && !AtLimit(names, counts, r.value)
    decreases |names| - i
  {
    if i >= |names| then None
    else if !AtLimit(names, counts, Candidate(current, i, |names|)) then Some(Candidate(current, i, |names|))
    else FirstUnder(names, counts, current, i + 1)
  }

  /**
   * Who speaks on a turn for which `proposed` was named: `proposed` itself
   * when under the limit, else the first debater under the limit in cyclic
   * order after it; none when everyone is at the limit.
   */
  function Chosen(names: seq<string>, counts: map<string, nat>, proposed: nat): (r: Option<nat>)
    requires Known(names, counts) && proposed < |names|
    ensures r.Some? ==> r.value < |names| && !AtLimit(names, counts, r.value)
  {
    if !AtLimit(names, counts, proposed) then Some(proposed) else FirstUnder(names, counts, proposed, 0)
  }

  /**
   * The search for a replacement when the current debater is at the limit:
   * the first index under the limit, trying `current + 1`, `current + 2`, ...
   * modulo the number of debaters; none when every debater is at the limit.
   */
  method FindAvailable(names: seq<string>, counts: map<string, nat>, current: nat) returns (r: Option<nat>)
    requires current < |names| && Known(names, counts)
    ensures r.Some? ==> r.value < |names| && !AtLimit(names, counts, r.value)
    ensures r.Some? ==>
      exists i :: 0 <= i < |names| && Candidate(current, i, |names|) == r.value
        && forall j :: 0 <= j < i ==> AtLimit(names, counts, Candidate(current, j, |names|))
    ensures r.None? <==> forall k :: 0 <= k < |names| ==> AtLimit(names, counts, k)
    ensures r == FirstUnder(names, counts, current, 0)
  {
    var n := |names|;
    var i := 0;
    while i < n
      invariant 0 <= i <= n
      invariant forall j :: 0 <= j < i ==> AtLimit(names, counts, Candidate(current, j, n))
      invariant FirstUnder(names, counts, current, i) == FirstUnder(names, counts, current, 0)
    {
      var c := Candidate(current, i, n);
      if counts[names[c]] < MaxSpeaks {
        return Some(c);
      }
      i := i + 1;
    }
    forall k | 0 <= k < n
      ensures AtLimit(names, counts, k)
    {
      CandidateCovers(current, k, n);
    }
    return None;
  }

  /** Debater `j` is someone other than the speaker whose name the reply contains. */
  predicate Mentioned(names: seq<string>, current: nat, response: string, j: int)
    requires 0 <= j < |names|
  {
    j != current && Contains(response, names[j])
  }

  /**
   * Smart turn taking: the first other debater, in list order, whose name
   * occurs in the reply; otherwise any other debater (`random.choice`).
   * With a single debater there is nobody to choose and `random.choice` of
   * the empty list raises: that is `None`.
   */
  method NextSpeaker(names: seq<string>, current: nat, response: string) returns (next: Option<nat>)
    requires current < |names|
    ensures next.None? <==> |names| < 2
    ensures next.Some? ==> next.value < |names| && next.value != current
    ensures (exists j :: 0 <= j < |names| && Mentioned(names, current, response, j)) ==>
      && next.Some?
      && Mentioned(names, current, response, next.value)
      && forall j :: 0 <= j < next.value ==> !Mentioned(names, current, response, j)
  {
    var i := 0;
    while i < |names|
      invariant 0 <= i <= |names|
      invariant forall j :: 0 <= j < i ==> !Mentioned(names, current, response, j)
    {
      if i != current && Contains(response, names[i]) {
        return Some(i);
      }
      i := i + 1;
    }
    if |names| < 2 {
      return None;
    }
    var someone := if current == 0 then 1 else 0;
    assert 0 <= someone < |names| && someone != current;
    var other :| 0 <= other < |names| && other != current;
    return Some(other);
  }

  /** The moderator is asked to intervene after every third turn, except on the last one. */
  function ModeratorTurn(turn: nat): (r: bool)
    ensures turn < MaxTurns ==> (r <==> turn == 2)
  {
    (turn + 1) % 3 == 0 && turn < MaxTurns - 1
  }

  /** A reply that `generate_response` produced from a caught exception. */
  predicate Failed(response: string) {
    StartsWith(response, "Error")
  }

  /** What the page shows when a debater's model failed. */
  function Notice(name: string, response: string): string {
    "\U{26A0}\U{FE0F} " + name + " Devre D\U{131}\U{15F}\U{131}: " + response
  }

  /** The moderator's message as shown. */
  function Moderation(response: string): string {
    "\U{2696}\U{FE0F} " + response
  }

  /**
   * One turn: who spoke, the model's reply, whether it counted, the message
   * shown and its confidence, what the moderator said (if asked and it did
   * not fail), and the index proposed to speak next.
   */
  datatype Turn = Turn(
    speaker: nat,
    reply: string,
    ok: bool,
    shown: string,
    confidence: nat,
    moderatorAsked: bool,
    moderation: Option<string>,
    next: nat)

  /** Why the loop stopped. */
  datatype End =
    | RanOut      // all five turns were played
    | Exhausted   // every debater reached the limit
    | NoOpponent  // `random.choice` of an empty candidate list raised

  /** How many counted (non-failed) replies the debater called `name` gave. */
  function Speaks(names: seq<string>, turns: seq<Turn>, name: string): (c: nat)
    ensures c <= |turns|
  {
    if |turns| == 0 then 0
    else
      var last := turns[|turns| - 1];
      Speaks(names, turns[..|turns| - 1], name)
        + (if last.ok && last.speaker < |names| && names[last.speaker] == name then 1 else 0)
  }

  /** The rules of turn `i`, given the models' replies. */
  predicate Played(names: seq<string>, reply: (nat, nat) -> string, moderator: nat -> string, i: nat, turn: Turn) {
    && turn.speaker < |names|
    && turn.reply == reply(i, turn.speaker)
    && (turn.ok <==> !Failed(turn.reply))
    && (!turn.ok ==>
        && turn.shown == Notice(names[turn.speaker], turn.reply)
        && !turn.moderatorAsked && turn.moderation == None
        && turn.next == (turn.speaker + 1) % |names|)
    && (turn.ok ==>
        && Confident(turn.confidence, turn.shown) == ExtractConfidence(turn.reply)
        && (turn.moderatorAsked <==> ModeratorTurn(i))
        && turn.moderation == (if turn.moderatorAsked && !Failed(moderator(i)) then Some(Moderation(moderator(i))) else None)
        && turn.next < |names|
        && (|names| > 1 ==> turn.next != turn.speaker)
        && (forall j :: 0 <= j < |names| && Mentioned(names, turn.speaker, turn.reply, j) ==>
              Mentioned(names, turn.speaker, turn.reply, turn.next) && turn.next <= j))
  }

  lemma SpeaksSnoc(names: seq<string>, turns: seq<Turn>, t: Turn, name: string)
    ensures Speaks(names, turns + [t], name)
         == Speaks(names, turns, name) + (if t.ok && t.speaker < |names| && names[t.speaker] == name then 1 else 0)
  {
    assert (turns + [t])[..|turns|] == turns;
  }

  /** `counts` holds, for every debater, how many counted replies it gave, within the limit. */
  predicate Tallied(names: seq<string>, turns: seq<Turn>, counts: map<string, nat>) {
    && Known(names, counts)
    && forall k :: 0 <= k < |names| ==>
         counts[names[k]] == Speaks(names, turns, names[k]) && counts[names[k]] <= MaxSpeaks
  }

  /** Incrementing the speaker's count after a counted reply keeps the tally. */
  lemma CountsFollow(names: seq<string>, turns: seq<Turn>, turn: Turn, before: map<string, nat>, after: map<string, nat>)
    requires Tallied(names, turns, before)
    requires turn.speaker < |names| && before[names[turn.speaker]] < MaxSpeaks
    requires turn.ok ==> after == before[names[turn.speaker] := before[names[turn.speaker]] + 1]
    requires !turn.ok ==> after == before
    ensures Tallied(names, turns + [turn], after)
  {
    forall k | 0 <= k < |names|
      ensures after[names[k]] == Speaks(names, turns + [turn], names[k])
    {
      SpeaksSnoc(names, turns, turn, names[k]);
    }
  }

  /** The loop's record so far: every turn followed the rules and the counts match the turns. */
  predicate Consistent(names: seq<string>, reply: (nat, nat) -> string, moderator: nat -> string,
                       turns: seq<Turn>, counts: map<string, nat>) {
    && counts.Keys == (set name | name in names)
    && Tallied(names, turns, counts)
    && AllPlayed(names, reply, moderator, turns)
  }

  /** Recording one more turn, and counting it when it counts, keeps the record consistent. */
  lemma Advance(names: seq<string>, reply: (nat, nat) -> string, moderator: nat -> string,
                turns: seq<Turn>, before: map<string, nat>, turn: Turn, after: map<string, nat>)
    requires Consistent(names, reply, moderator, turns, before)
    requires Played(names, reply, moderator, |turns|, turn)
    requires before[names[turn.speaker]] < MaxSpeaks
    requires turn.ok ==> after == before[names[turn.speaker] := before[names[turn.speaker]] + 1]
    requires !turn.ok ==> after == before
    ensures Consistent(names, reply, moderator, turns + [turn], after)
  {
    CountsFollow(names, turns, turn, before, after);
    PlayedExtends(names, reply, moderator, turns, turn);
  }

  /** Every recorded turn followed the rules, turn `i` being the `i`-th of the list. */
  predicate AllPlayed(names: seq<string>, reply: (nat, nat) -> string, moderator: nat -> string, turns: seq<Turn>)
    decreases |turns|
  {
    |turns| == 0 ||
    (AllPlayed(names, reply, moderator, turns[..|turns| - 1])
     && Played(names, reply, moderator, |turns| - 1, turns[|turns| - 1]))
  }

  lemma PlayedExtends(names: seq<string>, reply: (nat, nat) -> string, moderator: nat -> string, turns: seq<Turn>, turn: Turn)
    requires AllPlayed(names, reply, moderator, turns)
    requires Played(names, reply, moderator, |turns|, turn)
    ensures AllPlayed(names, reply, moderator, turns + [turn])
  {
    assert (turns + [turn])[..|turns|] == turns;
  }

  /** Reading the record turn by turn. */
  lemma {:induction false} AllPlayedEach(names: seq<string>, reply: (nat, nat) -> string, moderator: nat -> string, turns: seq<Turn>)
    requires AllPlayed(names, reply, moderator, turns)
    ensures forall i :: 0 <= i < |turns| ==> Played(names, reply, moderator, i, turns[i])
    decreases |turns|
  {
    if |turns| > 0 {
      var init := turns[..|turns| - 1];
      AllPlayedEach(names, reply, moderator, init);
      assert forall i :: 0 <= i < |init| ==> init[i] == turns[i];
    }
  }

  /**
   * The body of one turn for the debater at `idx`: call its model; show a
   * failure as a notice and pass to the next index; otherwise read the
   * confidence tag, ask the moderator on its turn, and choose who speaks
   * next. `stop` is the raise of `random.choice` when nobody else is left.
   */
  method PlayTurn(names: seq<string>, reply: (nat, nat) -> string, moderator: nat -> string, t: nat, idx: nat)
    returns (turn: Turn, stop: bool)
    requires idx < |names|
    ensures Played(names, reply, moderator, t, turn) && turn.speaker == idx && turn.next < |names|
    ensures stop <==> turn.ok && |names| < 2
  {
    var n := |names|;
    var response := reply(t, idx);
    if Failed(response) {
      return Turn(idx, response, false, Notice(names[idx], response), 0, false, None, (idx + 1) % n), false;
    }
    var parsed := ExtractConfidence(response);
    var asked := ModeratorTurn(t);
    var moderation := if asked && !Failed(moderator(t)) then Some(Moderation(moderator(t))) else None;
    var next := NextSpeaker(names, idx, response);
    if next.None? {
      return Turn(idx, response, true, parsed.text, parsed.confidence, asked, moderation, idx), true;
    }
    turn := Turn(idx, response, true, parsed.text, parsed.confidence, asked, moderation, next.value);
    stop := false;
  }

  /** Every debater's count of counted replies over `turns`. */
  function CountsOf(names: seq<string>, turns: seq<Turn>): (c: map<string, nat>)
    ensures Known(names, c)
  {
    map name | name in names :: Speaks(names, turns, name)
  }

  /** A consistent record's counts are the counts of its turns. */
  lemma CountsAreCountsOf(names: seq<string>, reply: (nat, nat) -> string, moderator: nat -> string,
                          turns: seq<Turn>, counts: map<string, nat>)
    requires Consistent(names, reply, moderator, turns, counts)
    ensures counts == CountsOf(names, turns)
  {
    forall name | name in counts
      ensures counts[name] == Speaks(names, turns, name)
    {
      var k :| 0 <= k < |names| && names[k] == name;
    }
  }

  /**
   * Every turn after the first went to the debater `Chosen` for the index the
   * turn before it proposed, under the counts of the turns before it.
   */
  predicate Sequenced(names: seq<string>, turns: seq<Turn>) {
    forall i :: 0 < i < |turns| ==> Follows(names, turns[..i], turns[i])
  }

  /** `turn` went to the debater `Chosen` for the index the last turn of `before` proposed. */
  predicate Follows(names: seq<string>, before: seq<Turn>, turn: Turn) {
    && |before| > 0
    && before[|before| - 1].next < |names|
    && Chosen(names, CountsOf(names, before), before[|before| - 1].next) == Some(turn.speaker)
  }

  /**
   * `Sequenced` as the loop builds it, one turn at a time: the last turn
   * `Follows` the turns before it, and so do those (`InSequenceEach`).
   */
  predicate InSequence(names: seq<string>, turns: seq<Turn>)
    decreases |turns|
  {
    |turns| <= 1 ||
    (InSequence(names, turns[..|turns| - 1]) && Follows(names, turns[..|turns| - 1], turns[|turns| - 1]))
  }

  lemma SequencedExtends(names: seq<string>, turns: seq<Turn>, turn: Turn)
    requires InSequence(names, turns)
    requires |turns| > 0 ==> Follows(names, turns, turn)
    ensures InSequence(names, turns + [turn])
  {
    assert (turns + [turn])[..|turns|] == turns;
  }

  /** Reading the loop's record at turn `i`. */
  lemma {:induction false} InSequenceAt(names: seq<string>, turns: seq<Turn>, i: nat)
    requires InSequence(names, turns) && 0 < i < |turns|
    ensures Follows(names, turns[..i], turns[i])
    decreases |turns|
  {
    var init := turns[..|turns| - 1];
    if i < |init| {
      InSequenceAt(names, init, i);
      assert init[..i] == turns[..i];
    }
  }

  /** Reading the loop's record turn by turn. */
  lemma InSequenceEach(names: seq<string>, turns: seq<Turn>)
    requires InSequence(names, turns)
    ensures Sequenced(names, turns)
  {
    forall i | 0 < i < |turns|
      ensures Follows(names, turns[..i], turns[i])
    {
      InSequenceAt(names, turns, i);
    }
  }

  /** One turn of the loop keeps the record consistent and in sequence. */
  lemma Record(names: seq<string>, reply: (nat, nat) -> string, moderator: nat -> string,
               turns: seq<Turn>, before: map<string, nat>, proposed: nat, turn: Turn, after: map<string, nat>)
    requires Consistent(names, reply, moderator, turns, before) && InSequence(names, turns)
    requires proposed < |names| && (|turns| > 0 ==> turns[|turns| - 1].next == proposed)
    requires Chosen(names, before, proposed) == Some(turn.speaker)
    requires Played(names, reply, moderator, |turns|, turn)
    requires turn.ok ==> after == before[names[turn.speaker] := before[names[turn.speaker]] + 1]
    requires !turn.ok ==> after == before
    ensures Consistent(names, reply, moderator, turns + [turn], after) && InSequence(names, turns + [turn])
  {
    Advance(names, reply, moderator, turns, before, turn, after);
    CountsAreCountsOf(names, reply, moderator, turns, before);
    SequencedExtends(names, turns, turn);
  }

  /** The loop's record: consistent with the rules and the counts, and in sequence. */
  predicate Recorded(names: seq<string>, reply: (nat, nat) -> string, moderator: nat -> string,
                     turns: seq<Turn>, counts: map<string, nat>) {
    Consistent(names, reply, moderator, turns, counts) && InSequence(names, turns)
  }

  /** Why the loop stopped, as each way out leaves the record. */
  predicate Stopped(names: seq<string>, turns: seq<Turn>, counts: map<string, nat>, end: End) {
    && (end == RanOut ==> |turns| == MaxTurns)
    && (end == Exhausted ==> forall k :: 0 <= k < |names| ==> names[k] in counts && counts[names[k]] == MaxSpeaks)
    && (end == NoOpponent ==> |names| == 1 && |turns| > 0 && turns[|turns| - 1].ok)
  }

  /**
   * The start of a turn: the proposed debater if under the limit, else the
   * cyclic search's pick; `None` (the loop ends) when everyone is at the limit.
   */
  method ChooseSpeaker(names: seq<string>, counts: map<string, nat>, idx: nat) returns (r: Option<nat>)
    requires idx < |names| && Known(names, counts)
    requires forall k :: 0 <= k < |names| ==> counts[names[k]] <= MaxSpeaks
    ensures r.Some? ==> r.value < |names| && counts[names[r.value]] < MaxSpeaks
    ensures counts[names[idx]] < MaxSpeaks ==> r == Some(idx)
    ensures counts[names[idx]] >= MaxSpeaks && r.Some? ==>
      exists i :: 0 <= i < |names| && Candidate(idx, i, |names|) == r.value
        && forall j :: 0 <= j < i ==> AtLimit(names, counts, Candidate(idx, j, |names|))
    ensures r.None? <==> forall k :: 0 <= k < |names| ==> counts[names[k]] == MaxSpeaks
    ensures r == Chosen(names, counts, idx)
  {
    r := Some(idx);
    if counts[names[idx]] >= MaxSpeaks {
      r := FindAvailable(names, counts, idx);
    }
    if r.None? {
      forall k | 0 <= k < |names|
        ensures counts[names[k]] == MaxSpeaks
      {
        assert AtLimit(names, counts, k);
      }
    }
  }

  /**
   * The body of the loop for the debater proposed at `idx`, given the turns
   * so far and their counts: choose the speaker (none when everyone is at the
   * limit), play its turn and count the reply when it counted.
   */
  method Step(names: seq<string>, reply: (nat, nat) -> string, moderator: nat -> string,
              turns: seq<Turn>, counts: map<string, nat>, idx: nat)
    returns (speaker: Option<nat>, turn: Turn, stop: bool, after: map<string, nat>)
    requires idx < |names| && Recorded(names, reply, moderator, turns, counts)
    requires |turns| > 0 ==> turns[|turns| - 1].next == idx
    ensures speaker.None? ==> forall k :: 0 <= k < |names| ==> counts[names[k]] == MaxSpeaks
    ensures counts[names[idx]] < MaxSpeaks ==> speaker == Some(idx)
    ensures speaker.Some? ==>
      && turn.speaker == speaker.value && turn.next < |names|
      && (stop <==> turn.ok && |names| < 2)
      && Recorded(names, reply, moderator, turns + [turn], after)
  {
    speaker := ChooseSpeaker(names, counts, idx);
    if speaker.None? {
      return speaker, Turn(idx, [], false, [], 0, false, None, idx), false, counts;
    }
    turn, stop := PlayTurn(names, reply, moderator, |turns|, speaker.value);
    after := counts;
    if turn.ok {
      after := counts[names[turn.speaker] := counts[names[turn.speaker]] + 1];
    }
    Record(names, reply, moderator, turns, counts, idx, turn, after);
  }

  /** The counts before the first turn: every debater has spoken zero times. */
  method NoneSpoken(names: seq<string>, reply: (nat, nat) -> string, moderator: nat -> string)
    returns (counts: map<string, nat>)
    ensures Recorded(names, reply, moderator, [], counts)
  {
    counts := map name | name in names :: 0;
  }

  /**
   * The debate loop. The first turn goes to debater 0. A debater at the limit
   * is replaced by the cyclic search, and when nobody is under the limit the
   * loop stops. A failed reply is shown as a notice, is not counted and passes
   * the turn to the next index; a counted reply has its confidence tag read
   * and removed, may be followed by the moderator, and names the next speaker.
   */
  method RunDebate(names: seq<string>, reply: (nat, nat) -> string, moderator: nat -> string)
    returns (turns: seq<Turn>, counts: map<string, nat>, end: End)
    requires |names| > 0
    ensures |turns| <= MaxTurns
    ensures |turns| > 0 ==> turns[0].speaker == 0
    ensures Recorded(names, reply, moderator, turns, counts)
    ensures Stopped(names, turns, counts, end)
  {
    var n := |names|;
    counts := NoneSpoken(names, reply, moderator);
    turns := [];
    end := RanOut;
    var idx: nat := 0;
    var t := 0;
    while t < MaxTurns
      invariant 0 <= t <= MaxTurns && |turns| == t
      invariant idx < n
      invariant t == 0 ==> idx == 0
      invariant end == RanOut
      invariant t > 0 ==> turns[0].speaker == 0
      invariant t > 0 ==> idx == turns[t - 1].next
      invariant Recorded(names, reply, moderator, turns, counts)
    {
      var speaker, turn, stop, after := Step(names, reply, moderator, turns, counts, idx);
      if speaker.None? {
        end := Exhausted;
        break;
      }
      counts := after;
      turns := turns + [turn];
      t := t + 1;
      if stop {
        end := NoOpponent;
        break;
      }
      idx := turn.next;
    }
  }

  // ---------------------------------------------------------------------------
  // What the loop guarantees
  // ---------------------------------------------------------------------------

  /** The moderator is asked once at most: after the third turn, and only if that reply counted. */
  lemma ModeratorOnlyAfterThirdTurn(names: seq<string>, reply: (nat, nat) -> string, moderator: nat -> string, turns: seq<Turn>)
    requires AllPlayed(names, reply, moderator, turns) && |turns| <= MaxTurns
    ensures forall i :: 0 <= i < |turns| ==> (turns[i].moderatorAsked <==> turns[i].ok && i == 2)
    ensures forall i :: 0 <= i < |turns| && turns[i].moderation.Some? ==> i == 2
  {
    AllPlayedEach(names, reply, moderator, turns);
  }

  /** Three different debaters together gave no more counted replies than there were turns. */
  lemma {:induction false} SpeaksOfThree(names: seq<string>, turns: seq<Turn>, a: string, b: string, c: string)
    requires a != b && b != c && a != c
    ensures Speaks(names, turns, a) + Speaks(names, turns, b) + Speaks(names, turns, c) <= |turns|
    decreases |turns|
  {
    if |turns| > 0 {
      SpeaksOfThree(names, turns[..|turns| - 1], a, b, c);
    }
  }

  /**
   * With at least three debaters, the first three of different names (the
   * board seats five), three debaters can never all have used up both turns
   * within five, and someone else is always there to speak next: the loop
   * always plays all five turns.
   */
  lemma ThreeDebatersPlayAllTurns(names: seq<string>, turns: seq<Turn>, counts: map<string, nat>, end: End)
    requires |names| >= 3 && names[0] != names[1] && names[1] != names[2] && names[0] != names[2]
    requires |turns| <= MaxTurns
    requires Tallied(names, turns, counts) && Stopped(names, turns, counts, end)
    ensures end == RanOut && |turns| == MaxTurns
  {
    SpeaksOfThree(names, turns, names[0], names[1], names[2]);
    assert counts[names[0]] + counts[names[1]] + counts[names[2]] <= |turns|;
  }
}
