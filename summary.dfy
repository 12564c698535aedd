/**
 * The vote summary bar of the chat page (frontend/app/page.tsx): one tile
 * per distinct decision, in order of first appearance, with the number of
 * votes cast for it and a colour bucket chosen by substring.
 */
module VoteSummary {
  import opened Text
  import opened Tally

  /** The colour a tile gets: accept (green), reject (red) or neutral (indigo). */
  datatype Bucket = AcceptBucket | RejectBucket | NeutralBucket

  /** Accept when the decision contains `KABUL` or `EVET`, else reject for `RED` or `HAYIR`, else neutral. */
  function BucketOf(decision: string): Bucket {
    if Contains(decision, "KABUL") || Contains(decision, "EVET") then AcceptBucket
    else if Contains(decision, "RED") || Contains(decision, "HAYIR") then RejectBucket
    else NeutralBucket
  }

  datatype Tile = Tile(decision: string, count: nat, bucket: Bucket)

  /** The tiles for the decisions of a vote list. */
  function Summary(decisions: seq<string>): (tiles: seq<Tile>)
    ensures |tiles| == |Distinct(decisions)|
    ensures forall i :: 0 <= i < |tiles| ==> tiles[i].decision in decisions && tiles[i].count >= 1
    ensures forall d :: d in decisions <==> exists i :: 0 <= i < |tiles| && tiles[i].decision == d
    ensures forall i :: 0 <= i < |tiles| ==>
      && tiles[i].decision == Distinct(decisions)[i]
      && tiles[i].count == Count(decisions, tiles[i].decision)
      && tiles[i].bucket == BucketOf(tiles[i].decision)
  {
    var keys := Distinct(decisions);
    var tiles := seq(|keys|, i requires 0 <= i < |keys| => Tile(keys[i], Count(decisions, keys[i]), BucketOf(keys[i])));
    assert forall i :: 0 <= i < |keys| ==> tiles[i].decision == keys[i];
    tiles
  }

  /** The sum of the tiles' counts. */
  function Total(tiles: seq<Tile>): nat
    decreases |tiles|
  {
    if |tiles| == 0 then 0 else tiles[0].count + Total(tiles[1..])
  }

  lemma {:induction false} TotalIsSumCounts(keys: seq<string>, decisions: seq<string>)
    ensures Total(seq(|keys|, i requires 0 <= i < |keys| => Tile(keys[i], Count(decisions, keys[i]), BucketOf(keys[i]))))
         == SumCounts(keys, decisions)
    decreases |keys|
  {
    if |keys| > 0 {
      var tiles := seq(|keys|, i requires 0 <= i < |keys| => Tile(keys[i], Count(decisions, keys[i]), BucketOf(keys[i])));
      var rest := keys[1..];
      assert tiles[1..] == seq(|rest|, i requires 0 <= i < |rest| => Tile(rest[i], Count(decisions, rest[i]), BucketOf(rest[i])));
      TotalIsSumCounts(rest, decisions);
    }
  }

  /** The tiles account for every vote exactly once: their counts add up to the number of votes. */
  lemma CountsAddUpToVotes(decisions: seq<string>)
    ensures Total(Summary(decisions)) == |decisions|
  {
    TotalIsSumCounts(Distinct(decisions), decisions);
    CountsSumToTotal(decisions);
  }

  /** No two tiles show the same decision, and the tiles follow the order in which decisions first appear. */
  lemma TilesDistinctAndOrdered(decisions: seq<string>)
    ensures var tiles := Summary(decisions);
      forall i, j :: 0 <= i < j < |tiles| ==>
        tiles[i].decision != tiles[j].decision
        && FirstIndex(decisions, tiles[i].decision) < FirstIndex(decisions, tiles[j].decision)
  {
    DistinctInFirstAppearanceOrder(decisions);
  }

  /** Every decision gets exactly one colour, by the first of the three rules that applies. */
  lemma BucketRule(decision: string)
    ensures BucketOf(decision) == AcceptBucket <==> Contains(decision, "KABUL") || Contains(decision, "EVET")
    ensures BucketOf(decision) == RejectBucket <==>
      !(Contains(decision, "KABUL") || Contains(decision, "EVET")) && (Contains(decision, "RED") || Contains(decision, "HAYIR"))
    ensures BucketOf(decision) == NeutralBucket <==>
      !Contains(decision, "KABUL") && !Contains(decision, "EVET") && !Contains(decision, "RED") && !Contains(decision, "HAYIR")
  {
  }

  /** The first matching rule wins: a decision naming both an accept and a reject word is accept-coloured. */
  lemma AcceptWordsWin(decision: string)
    requires Contains(decision, "KABUL") || Contains(decision, "EVET")
    ensures BucketOf(decision) == AcceptBucket
  {
  }
}
