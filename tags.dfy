/**
 * The tags the debate service reads out of a model's reply
 * (backend/app/services/ai_service.py): a clarification request
 * `[CLARIFICATION: …]`, a confidence tag `[GÜVEN: 85%]` or
 * `[CONFIDENCE: 85%]`, and `<think>…</think>` reasoning blocks.
 *
 * Each regular expression is written out as the matcher Python's `re` runs
 * for it: the position where a match starts, where it ends, and what its
 * group captured, with the backtracking order of greedy and lazy repeats
 * stated declaratively. `re.search` is the first position with a match and
 * `re.sub(…, '')` removes every match found scanning left to right.
 */
module Tags {
  import opened Wrappers
  import opened Text

  // ---------------------------------------------------------------------------
  // Character classes
  // ---------------------------------------------------------------------------

  /**
   * A character matched by an upper-case pattern letter under `re.IGNORECASE`:
   * the letter, the characters whose simple lower case equals its lower case,
   * and for `I` the dotless `ı` that Python adds to that class.
   */
  predicate CaseEq(c: char, p: char) {
    if p == 'I' then c == 'I' || c == 'i' || c == '\U{130}' || c == '\U{131}'
    else if 'A' <= p <= 'Z' then c == p || c as int == p as int + 32
    else if p == 'Ü' then c == 'Ü' || c == 'ü'
    else c == p
  }

  /** `lit` matches at `p` ignoring case. */
  predicate HeadAt(s: string, p: nat, lit: string) {
    p + |lit| <= |s| && forall k :: 0 <= k < |lit| ==> CaseEq(s[p + k], lit[k])
  }

  /** The length of the longest run of `\s` characters starting at `q`. */
  function SpaceRun(s: string, q: nat): (w: nat)
    requires q <= |s|
    ensures q + w <= |s|
    ensures forall k :: q <= k < q + w ==> PySpace(s[k])
    ensures q + w == |s| || !PySpace(s[q + w])
    decreases |s| - q
  {
    if q < |s| && PySpace(s[q]) then 1 + SpaceRun(s, q + 1) else 0
  }

  /** The length of the longest run of ASCII digits starting at `q`. */
  function DigitRun(s: string, q: nat): (w: nat)
    requires q <= |s|
    ensures q + w <= |s|
    ensures forall k :: q <= k < q + w ==> Digit(s[k])
    ensures q + w == |s| || !Digit(s[q + w])
    decreases |s| - q
  {
    if q < |s| && Digit(s[q]) then 1 + DigitRun(s, q + 1) else 0
  }

  // ---------------------------------------------------------------------------
  // `\[CLARIFICATION:\s*(.+?)\]`, ignoring case
  // ---------------------------------------------------------------------------

  const ClarHead: string := "[CLARIFICATION:"

  /** `.+?` can stop before the `]` at `e`: it consumed `s[g..e]`, at least one character, none a line feed. */
  predicate ValidClose(s: string, g: int, e: int) {
    0 <= g < e < |s| && s[e] == ']' && forall k :: g <= k < e ==> s[k] != '\n'
  }

  /** After the head ends at `q`, `\s*` takes `s[q..g]` and the group is `s[g..e]`. */
  predicate GroupOk(s: string, q: int, g: int, e: int) {
    ValidClose(s, g, e) && 0 <= q <= g && forall k :: q <= k < g ==> PySpace(s[k])
  }

  /** Where the text after the `[CLARIFICATION:` head at `p` begins. */
  function BodyStart(p: nat): nat {
    p + |ClarHead|
  }

  /** The lazy `.+?` from `g`: the first `]` it can stop before, scanning from `e`. */
  function CloseFrom(s: string, g: nat, e: nat): (r: Option<nat>)
    requires g < e <= |s|
    requires forall k :: g <= k < e ==> s[k] != '\n'
    requires forall c :: c < e ==> !ValidClose(s, g, c)
    ensures r.Some? ==> ValidClose(s, g, r.value) && forall c :: c < r.value ==> !ValidClose(s, g, c)
    ensures r.None? ==> forall c :: !ValidClose(s, g, c)
    decreases |s| - e
  {
    if e == |s| then None
    else if s[e] == ']' then Some(e)
    else if s[e] == '\n' then None
    else CloseFrom(s, g, e + 1)
  }

  /**
   * The greedy `\s*` gives back one character at a time: the group starts at
   * the latest `g` from which `.+?` succeeds.
   */
  function TryGroup(s: string, q: nat, g: nat): (r: Option<(nat, nat)>)
    requires q <= g <= |s|
    requires forall k :: q <= k < g ==> PySpace(s[k])
    requires forall g', e' :: g < g' ==> !GroupOk(s, q, g', e')
    ensures r.Some? ==>
      && GroupOk(s, q, r.value.0, r.value.1)
      && (forall g', e' :: r.value.0 < g' ==> !GroupOk(s, q, g', e'))
      && (forall e' :: e' < r.value.1 ==> !GroupOk(s, q, r.value.0, e'))
    ensures r.None? ==> forall g', e' :: !GroupOk(s, q, g', e')
    decreases g - q
  {
    var c := if g < |s| && s[g] != '\n' then CloseFrom(s, g, g + 1) else None;
    assert c.None? ==> forall e' :: !GroupOk(s, q, g, e');
    if c.Some? then Some((g, c.value))
    else if g == q then None
    else TryGroup(s, q, g - 1)
  }

  /**
   * A clarification tag starting at `p`: the group's start and the position
   * of its closing `]`. The group starts as late and ends as early as the
   * pattern allows.
   */
  function ClarAt(s: string, p: nat): (r: Option<(nat, nat)>)
    ensures r.Some? ==>
      && HeadAt(s, p, ClarHead)
      && GroupOk(s, BodyStart(p), r.value.0, r.value.1)
      && (forall g', e' :: r.value.0 < g' ==> !GroupOk(s, BodyStart(p), g', e'))
      && (forall e' :: e' < r.value.1 ==> !GroupOk(s, BodyStart(p), r.value.0, e'))
    ensures r.None? ==> !HeadAt(s, p, ClarHead) || forall g', e' :: !GroupOk(s, BodyStart(p), g', e')
  {
    if !HeadAt(s, p, ClarHead) then None
    else
      var q := BodyStart(p);
      var g := q + SpaceRun(s, q);
      assert g < |s| ==> !PySpace(s[g]);
      assert forall g', e' :: g < g' ==> !GroupOk(s, q, g', e');
      TryGroup(s, q, g)
  }


  // ---------------------------------------------------------------------------
  // `\[(GÜVEN|CONFIDENCE):?\s*(\d+)%\]`, ignoring case
  // ---------------------------------------------------------------------------

  /** The end of the `GÜVEN` or `CONFIDENCE` word after a `[` at `p`, if one is there. */
  function ConfHeadEnd(s: string, p: nat): (h: Option<nat>)
    ensures h.Some? ==> (p < |s| && s[p] == '[' && h.value <= |s|
      && ((h.value == p + 6 && HeadAt(s, p + 1, "GÜVEN")) || (h.value == p + 11 && HeadAt(s, p + 1, "CONFIDENCE"))))
  {
    if !(p < |s| && s[p] == '[') then None
    else if HeadAt(s, p + 1, "GÜVEN") then Some(p + 6)
    else if HeadAt(s, p + 1, "CONFIDENCE") then Some(p + 11)
    else None
  }

  /** The text between the word ending at `h` and the digits starting at `d`: an optional `:`, then white space. */
  predicate ColonSpaces(s: string, h: int, d: int) {
    0 <= h <= d <= |s|
    && ((forall k :: h <= k < d ==> PySpace(s[k]))
        || (h < d && s[h] == ':' && forall k :: h + 1 <= k < d ==> PySpace(s[k])))
  }

  /** The whole tag at `p`, its word ending at `h` and its digits at `s[d..f]`. */
  predicate ConfShape(s: string, p: int, h: int, d: int, f: int) {
    && 0 <= p < |s| && s[p] == '['
    && ((h == p + 6 && HeadAt(s, p + 1, "GÜVEN")) || (h == p + 11 && HeadAt(s, p + 1, "CONFIDENCE")))
    && ColonSpaces(s, h, d)
    && d < f && f + 2 <= |s|
    && (forall k :: d <= k < f ==> Digit(s[k]))
    && s[f] == '%' && s[f + 1] == ']'
  }

  /** Where the digits after a word ending at `h` start and end: past an optional `:` and every space, then every digit. */
  function ConfDigits(s: string, h: nat): (r: (nat, nat))
    requires h <= |s|
    ensures h <= r.0 <= r.1 <= |s|
  {
    var b := if h < |s| && s[h] == ':' then h + 1 else h;
    var d := b + SpaceRun(s, b);
    (d, d + DigitRun(s, d))
  }

  /** A confidence tag at `p`: where its digits start and end. */
  function ConfAt(s: string, p: nat): (r: Option<(nat, nat)>)
    ensures r.Some? ==> ConfHeadEnd(s, p).Some? && ConfShape(s, p, ConfHeadEnd(s, p).value, r.value.0, r.value.1)
  {
    match ConfHeadEnd(s, p)
    case None => None
    case Some(h) =>
      var (d, f) := ConfDigits(s, h);
      if d < f && f + 2 <= |s| && s[f] == '%' && s[f + 1] == ']' then Some((d, f)) else None
  }

  /** `GÜVEN` and `CONFIDENCE` cannot both match at the same place: their first letters differ. */
  lemma ConfHeadsDisjoint(s: string, p: nat)
    ensures !(HeadAt(s, p + 1, "GÜVEN") && HeadAt(s, p + 1, "CONFIDENCE"))
  {
    if HeadAt(s, p + 1, "GÜVEN") {
      assert CaseEq(s[p + 1 + 0], "GÜVEN"[0]);
      assert !CaseEq(s[p + 1 + 0], "CONFIDENCE"[0]);
    }
  }

  /** A run of spaces from `b` to `x` lies inside the longest one. */
  lemma {:induction false} SpaceRunCovers(s: string, b: nat, x: nat)
    requires b <= x <= |s| && forall k :: b <= k < x ==> PySpace(s[k])
    ensures x <= b + SpaceRun(s, b)
    decreases x - b
  {
    if b < x {
      SpaceRunCovers(s, b + 1, x);
    }
  }

  /** A run of digits from `b` to `x` lies inside the longest one. */
  lemma {:induction false} DigitRunCovers(s: string, b: nat, x: nat)
    requires b <= x <= |s| && forall k :: b <= k < x ==> Digit(s[k])
    ensures x <= b + DigitRun(s, b)
    decreases x - b
  {
    if b < x {
      DigitRunCovers(s, b + 1, x);
    }
  }

  /** Once the word is fixed, any match has its digits where `ConfDigits` puts them: no repeat can give anything back. */
  lemma ConfDigitsFixed(s: string, h: nat, d: nat, f: nat)
    requires h <= |s| && ColonSpaces(s, h, d) && d < f < |s|
    requires (forall k :: d <= k < f ==> Digit(s[k])) && !Digit(s[f])
    ensures ConfDigits(s, h) == (d, f)
  {
    var b := if h < |s| && s[h] == ':' then h + 1 else h;
    assert Digit(s[d]);
    assert !PySpace(s[d]);
    assert b <= d && forall k :: b <= k < d ==> PySpace(s[k]);
    SpaceRunCovers(s, b, d);
    DigitRunCovers(s, d, f);
  }

  /** Every confidence tag is found, with the digits it was written with. */
  lemma ConfAtComplete(s: string, p: nat, h: nat, d: nat, f: nat)
    requires ConfShape(s, p, h, d, f)
    ensures ConfHeadEnd(s, p) == Some(h) && ConfAt(s, p) == Some((d, f))
  {
    ConfHeadsDisjoint(s, p);
    assert ConfHeadEnd(s, p) == Some(h);
    assert !Digit(s[f]);
    ConfDigitsFixed(s, h, d, f);
  }

  /** A confidence tag can be read in only one way: the value taken from it is well defined. */
  lemma ConfShapeUnique(s: string, p: nat, h: nat, d: nat, f: nat, h': nat, d': nat, f': nat)
    requires ConfShape(s, p, h, d, f) && ConfShape(s, p, h', d', f')
    ensures h == h' && d == d' && f == f'
  {
    ConfAtComplete(s, p, h, d, f);
    ConfAtComplete(s, p, h', d', f');
  }

  // ---------------------------------------------------------------------------
  // `<think>.*?</think>` with DOTALL
  // ---------------------------------------------------------------------------

  /** `<think>` starts at `p`. */
  predicate OpenAt(s: string, p: int) {
    0 <= p && p + 7 <= |s| && s[p..p + 7] == "<think>"
  }

  /** `</think>` starts at `c`. */
  predicate CloseAt(s: string, c: int) {
    0 <= c && c + 8 <= |s| && s[c..c + 8] == "</think>"
  }

  /** The first `</think>` at or after `k`. */
  function CloseThink(s: string, k: nat): (r: Option<nat>)
    requires k <= |s|
    ensures r.Some? ==> k <= r.value && CloseAt(s, r.value) && forall c :: k <= c < r.value ==> !CloseAt(s, c)
    ensures r.None? ==> forall c :: k <= c ==> !CloseAt(s, c)
    decreases |s| - k
  {
    if CloseAt(s, k) then Some(k)
    else if k == |s| then None
    else CloseThink(s, k + 1)
  }

  /** A think block at `p`: it ends just after the first `</think>` that follows the opening tag. */
  function ThinkAt(s: string, p: nat): (r: Option<nat>)
    ensures r.Some? ==> (OpenAt(s, p) && p + 15 <= r.value <= |s| && CloseAt(s, r.value - 8)
      && forall c :: p + 7 <= c < r.value - 8 ==> !CloseAt(s, c))
    ensures r.None? ==> !OpenAt(s, p) || forall c :: p + 7 <= c ==> !CloseAt(s, c)
  {
    if OpenAt(s, p) then
      match CloseThink(s, p + 7)
      case Some(c) => Some(c + 8)
      case None => None
    else None
  }

  // ---------------------------------------------------------------------------
  // Search and substitution
  // ---------------------------------------------------------------------------

  /** The patterns the service searches for or removes. */
  datatype Pattern =
    | Clarification       // `\[CLARIFICATION:\s*.+?\]`
    | Confidence          // `\[(GÜVEN|CONFIDENCE):?\s*(\d+)%\]`
    | ConfidenceTrailing  // the same, then `\s*`: the form `re.sub` removes
    | Think               // `<think>.*?</think>`

  /** Where a match of `pat` starting at `p` ends, if there is one. No match is empty. */
  function MatchEnd(pat: Pattern, s: string, p: nat): (r: Option<nat>)
    ensures r.Some? ==> p < r.value <= |s|
  {
    match pat
    case Clarification =>
      (match ClarAt(s, p) case Some(m) => Some(m.1 + 1) case None => None)
    case Confidence =>
      (match ConfAt(s, p) case Some(m) => Some(m.1 + 2) case None => None)
    case ConfidenceTrailing =>
      (match ConfAt(s, p) case Some(m) => Some(m.1 + 2 + SpaceRun(s, m.1 + 2)) case None => None)
    case Think => ThinkAt(s, p)
  }

  /** For each position of `s` and its end, where a match starting there ends, if one does. */
  predicate IsTable(s: string, ends: seq<Option<nat>>) {
    |ends| == |s| + 1 && forall p :: 0 <= p < |ends| && ends[p].Some? ==> p < ends[p].value <= |s|
  }

  /** The match table of `pat` over `s`. */
  function Table(pat: Pattern, s: string): (t: seq<Option<nat>>)
    ensures IsTable(s, t)
    ensures forall p :: 0 <= p <= |s| ==> t[p] == MatchEnd(pat, s, p)
  {
    seq(|s| + 1, p requires 0 <= p <= |s| => MatchEnd(pat, s, p))
  }

  /** The first position from `p` at which a match starts. */
  function FirstMatch(ends: seq<Option<nat>>, p: nat): (r: Option<nat>)
    requires p <= |ends|
    ensures r.Some? ==> p <= r.value < |ends| && ends[r.value].Some? && forall q :: p <= q < r.value ==> ends[q].None?
    ensures r.None? ==> forall q :: p <= q < |ends| ==> ends[q].None?
    decreases |ends| - p
  {
    if p == |ends| then None
    else if ends[p].Some? then Some(p)
    else FirstMatch(ends, p + 1)
  }

  /** The text from `p` with each match found scanning left to right removed; the scan resumes after each match. */
  function Remove(s: string, ends: seq<Option<nat>>, p: nat): (r: string)
    requires IsTable(s, ends) && p <= |s|
    ensures |r| <= |s| - p
    decreases |s| - p
  {
    if p == |s| then ""
    else
      match ends[p]
      case Some(e) => Remove(s, ends, e)
      case None => [s[p]] + Remove(s, ends, p + 1)
  }

  /** `re.search(pat, s)`: where the first match starts. */
  function Search(pat: Pattern, s: string): Option<nat> {
    FirstMatch(Table(pat, s), 0)
  }

  /** `re.sub(pat, '', s)`. */
  function SubAll(pat: Pattern, s: string): string {
    Remove(s, Table(pat, s), 0)
  }

  /** Where nothing matches, the text is copied. */
  lemma {:induction false} RemoveNoMatch(s: string, ends: seq<Option<nat>>, p: nat)
    requires IsTable(s, ends) && p <= |s|
    requires forall q :: p <= q < |s| ==> ends[q].None?
    ensures Remove(s, ends, p) == s[p..]
    decreases |s| - p
  {
    if p < |s| {
      RemoveNoMatch(s, ends, p + 1);
      assert s[p..] == [s[p]] + s[p + 1..];
    }
  }

  /** Where something matches, at least one character goes. */
  lemma {:induction false} RemoveShortens(s: string, ends: seq<Option<nat>>, p: nat, q: nat)
    requires IsTable(s, ends) && p <= q < |s| && ends[q].Some?
    ensures |Remove(s, ends, p)| < |s| - p
    decreases |s| - p
  {
    if ends[p].None? {
      RemoveShortens(s, ends, p + 1, q);
    }
  }

  /** The text before the first match is kept as it is. */
  lemma {:induction false} RemoveKeepsPrefix(s: string, ends: seq<Option<nat>>, p: nat, q: nat)
    requires IsTable(s, ends) && p <= q <= |s|
    requires forall k :: p <= k < q ==> ends[k].None?
    ensures Remove(s, ends, p) == s[p..q] + Remove(s, ends, q)
    decreases q - p
  {
    if p < q {
      RemoveKeepsPrefix(s, ends, p + 1, q);
      assert Remove(s, ends, p) == [s[p]] + Remove(s, ends, p + 1);
      assert s[p..q] == [s[p]] + s[p + 1..q];
    }
  }

  /** Removing every match changes the text exactly when the pattern occurs in it. */
  lemma SubAllUnchangedIff(pat: Pattern, s: string)
    ensures SubAll(pat, s) == s <==> Search(pat, s).None?
  {
    var t := Table(pat, s);
    match FirstMatch(t, 0)
    case Some(q) =>
      RemoveShortens(s, t, 0, q);
    case None =>
      RemoveNoMatch(s, t, 0);
  }

  // ---------------------------------------------------------------------------
  // What the service does with them
  // ---------------------------------------------------------------------------

  /** The result of `parse_clarification`. */
  datatype Clarified = Clarified(hasClarification: bool, question: Option<string>, cleanResponse: string)

  /** The group of the clarification tag at `p`, when one starts there. */
  function QuestionAt(s: string, p: nat): string {
    match ClarAt(s, p)
    case Some(m) => s[m.0..m.1]
    case None => ""
  }

  /**
   * `parse_clarification`: the first tag's text, stripped, and the reply
   * with every tag removed, stripped; or the reply untouched when it holds
   * no tag.
   */
  function ParseClarification(response: string): (r: Clarified)
    ensures r.hasClarification <==> Search(Clarification, response).Some?
    ensures !r.hasClarification ==> r.question == None && r.cleanResponse == response
    ensures r.hasClarification ==>
      && r.question == Some(PyStrip(QuestionAt(response, Search(Clarification, response).value)))
      && r.cleanResponse == PyStrip(SubAll(Clarification, response))
  {
    match Search(Clarification, response)
    case None => Clarified(false, None, response)
    case Some(p) =>
      Clarified(true, Some(PyStrip(QuestionAt(response, p))), PyStrip(SubAll(Clarification, response)))
  }

  /** Stripping never brings in a character the text did not hold. */
  lemma StripKeepsOut(s: string, c: char)
    requires forall k :: 0 <= k < |s| ==> s[k] != c
    ensures c !in PyStrip(s)
  {
    var d := DropLeading(s, PySpace);
    assert forall k :: 0 <= k < |d| ==> d[k] == s[|s| - |d| + k];
    var t := DropTrailing(d, PySpace);
    assert forall k :: 0 <= k < |t| ==> t[k] == d[k];
  }

  /**
   * The question is the text of the first tag: one line, not empty before
   * stripping, with the tag found where a clarification head is followed by
   * white space and a group that reaches a `]`.
   */
  lemma QuestionIsOneLine(response: string)
    requires ParseClarification(response).hasClarification
    ensures var p := Search(Clarification, response).value;
      && HeadAt(response, p, ClarHead)
      && |QuestionAt(response, p)| > 0
      && '\n' !in ParseClarification(response).question.value
  {
    var p := Search(Clarification, response).value;
    assert Table(Clarification, response)[p] == MatchEnd(Clarification, response, p);
    var m := ClarAt(response, p).value;
    var group := response[m.0..m.1];
    assert forall k :: 0 <= k < |group| ==> group[k] == response[m.0 + k];
    StripKeepsOut(group, '\n');
  }

  /** A reply with a clarification tag loses at least the tag. */
  lemma ClarificationRemoved(response: string)
    requires ParseClarification(response).hasClarification
    ensures |ParseClarification(response).cleanResponse| < |response|
  {
    SubAllUnchangedIff(Clarification, response);
    var t := Table(Clarification, response);
    RemoveShortens(response, t, 0, FirstMatch(t, 0).value);
  }

  /** The confidence a reply declares, and the reply as shown. */
  datatype Confident = Confident(confidence: nat, text: string)

  /** The confidence when the reply declares none. */
  const DefaultConfidence: nat := 50

  /** The number written in the confidence tag at `p`, when one starts there. */
  function ValueAt(s: string, p: nat): nat {
    match ConfAt(s, p)
    case Some(m) =>
      var digits := s[m.0..m.1];
      assert forall k :: 0 <= k < |digits| ==> digits[k] == s[m.0 + k];
      DigitsValue(digits)
    case None => 0
  }

  /**
   * The confidence of a reply: the number in its first tag, with no clamp to
   * 0-100, and the reply with every tag and the white space after it removed,
   * stripped; or 50 and the reply untouched.
   */
  function ExtractConfidence(response: string): (r: Confident)
    ensures Search(Confidence, response).None? ==> r == Confident(DefaultConfidence, response)
    ensures Search(Confidence, response).Some? ==>
      && r.confidence == ValueAt(response, Search(Confidence, response).value)
      && r.text == PyStrip(SubAll(ConfidenceTrailing, response))
  {
    match Search(Confidence, response)
    case None => Confident(DefaultConfidence, response)
    case Some(p) => Confident(ValueAt(response, p), PyStrip(SubAll(ConfidenceTrailing, response)))
  }

  /** The tag removal finds tags exactly where the search does, each reaching at least as far. */
  lemma TrailingTableAgrees(s: string, p: nat)
    requires p <= |s|
    ensures Table(ConfidenceTrailing, s)[p].Some? <==> Table(Confidence, s)[p].Some?
  {
  }

  /**
   * The confidence is the number of the first tag, however the tag is read,
   * and the text shown keeps everything before that tag and loses the tag.
   */
  lemma ConfidenceOfFirstTag(response: string, h: nat, d: nat, f: nat)
    requires Search(Confidence, response).Some?
    requires ConfShape(response, Search(Confidence, response).value, h, d, f)
    ensures var p := Search(Confidence, response).value;
      && (forall q, h', d', f' :: 0 <= q < p ==> !ConfShape(response, q, h', d', f'))
      && ExtractConfidence(response).confidence == DigitsValue(response[d..f])
      && SubAll(ConfidenceTrailing, response) == response[..p]
         + Remove(response, Table(ConfidenceTrailing, response), MatchEnd(ConfidenceTrailing, response, p).value)
  {
    var p := Search(Confidence, response).value;
    var plain := Table(Confidence, response);
    forall q, h', d', f' | 0 <= q < p ensures ConfShape(response, q, h', d', f') ==> plain[q].Some? {
      if ConfShape(response, q, h', d', f') {
        ConfAtComplete(response, q, h', d', f');
      }
    }
    ConfAtComplete(response, p, h, d, f);
    var t := Table(ConfidenceTrailing, response);
    forall k | 0 <= k < p ensures t[k].None? {
      TrailingTableAgrees(response, k);
    }
    TrailingTableAgrees(response, p);
    RemoveKeepsPrefix(response, t, 0, p);
    assert response[0..p] == response[..p];
  }

  /** A reply with a confidence tag is shown without it: the text is shorter than the reply. */
  lemma ConfidenceTagRemoved(response: string)
    requires Search(Confidence, response).Some?
    ensures |ExtractConfidence(response).text| < |response|
  {
    var p := Search(Confidence, response).value;
    TrailingTableAgrees(response, p);
    RemoveShortens(response, Table(ConfidenceTrailing, response), 0, p);
  }

  /** `<think>` blocks removed from a provider's reply, and the rest stripped. */
  function StripThink(content: string): string {
    PyStrip(SubAll(Think, content))
  }

  /** A reply without a think block is only stripped; one with a think block loses it. */
  lemma StripThinkIff(content: string)
    ensures Search(Think, content).None? ==> StripThink(content) == PyStrip(content)
    ensures Search(Think, content).Some? ==> |SubAll(Think, content)| < |content|
  {
    SubAllUnchangedIff(Think, content);
    var t := Table(Think, content);
    if FirstMatch(t, 0).Some? {
      RemoveShortens(content, t, 0, FirstMatch(t, 0).value);
    }
  }
}
