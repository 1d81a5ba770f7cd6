/** `PairSpread` of client/src/pages/spreads/PairSpread.tsx: the first image
    card and the first word card of the hand, shown together. The whole
    pair is face up or face down together, by `revealed[0]`, so a click on
    the pair reveals position 0 only. */
module PairSpread {
  import opened Wrappers
  import opened Seqs
  import opened Schema
  import Storage

  predicate IsImage(c: Card) { c.cardType == Image }
  predicate IsWord(c: Card) { c.cardType == Word }

  /** The pair shown, or `None` when either side is missing and nothing is
      rendered. */
  function PairView(cards: seq<Card>): (r: Option<(Card, Card)>)
    ensures r.None? <==>
      (forall i :: 0 <= i < |cards| ==> !IsImage(cards[i])) || (forall i :: 0 <= i < |cards| ==> !IsWord(cards[i]))
    ensures r.Some? ==> exists k :: 0 <= k < |cards| && cards[k] == r.value.0 && IsImage(cards[k])
                                    && forall j :: 0 <= j < k ==> !IsImage(cards[j])
    ensures r.Some? ==> exists k :: 0 <= k < |cards| && cards[k] == r.value.1 && IsWord(cards[k])
                                    && forall j :: 0 <= j < k ==> !IsWord(cards[j])
  {
    var img := FindFirst(cards, IsImage);
    var word := FindFirst(cards, IsWord);
    if img.None? || word.None? then None else Some((img.value, word.value))
  }

  /** Cards after the first of each type are ignored. */
  lemma PairViewAppend(cards: seq<Card>, more: seq<Card>)
    requires PairView(cards).Some?
    ensures PairView(cards + more) == PairView(cards)
  {
    FindFirstAppend(cards, more, IsImage);
    FindFirstAppend(cards, more, IsWord);
  }

  /** The hand of a successful pair draw is shown as drawn: its image card
      with its word card. */
  lemma PairViewOfDraw(rows: seq<Card>, imagePick: nat, wordPick: nat)
    requires Storage.DrawCards(rows, PairMode, imagePick, wordPick).Ok?
    ensures var hand := Storage.DrawCards(rows, PairMode, imagePick, wordPick).value;
      PairView(hand) == Some((hand[0], hand[1]))
  {
    Storage.DrawPairShape(rows, imagePick, wordPick);
    var hand := Storage.DrawCards(rows, PairMode, imagePick, wordPick).value;
    assert IsImage(hand[0]) && IsWord(hand[1]) && !IsWord(hand[0]);
  }
}
