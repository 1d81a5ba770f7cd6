/** `PositiveNegativeSpread` of
    client/src/pages/spreads/PositiveNegativeSpread.tsx: two cards laid out
    as positive and negative, which a button swaps. */
module PositiveNegative {
  import opened Wrappers
  import opened Schema
  import opened SpreadStateHook
  import opened Routes

  /** A shown card together with the position its reveal state is kept at. */
  datatype Slot = Slot(card: Card, revealIndex: int)

  /** `props?.x ?? hookState.x`: a passed value wins over the hook's own. */
  function PropOr<T>(prop: Option<T>, own: T): (v: T)
    ensures prop.Some? ==> v == prop.value
    ensures prop.None? ==> v == own
  {
    if prop.Some? then prop.value else own
  }

  /** The positive and the negative slot; `None` when fewer than two cards
      are present and nothing is rendered. */
  function Layout(cards: seq<Card>, swapped: bool): (r: Option<(Slot, Slot)>)
    ensures r.None? <==> |cards| < 2
    ensures r.Some? ==> r.value.0.revealIndex in {0, 1} && r.value.1.revealIndex == 1 - r.value.0.revealIndex
    ensures r.Some? ==> r.value.0.card == cards[r.value.0.revealIndex]
    ensures r.Some? ==> r.value.1.card == cards[r.value.1.revealIndex]
    ensures r.Some? ==> (r.value.0.revealIndex == 0 <==> !swapped)
  {
    if |cards| < 2 then None
    else
      var positive := if swapped then cards[1] else cards[0];
      var negative := if swapped then cards[0] else cards[1];
      Some((Slot(positive, if swapped then 1 else 0), Slot(negative, if swapped then 0 else 1)))
  }

  /** Whether the card in a slot is face up. */
  predicate SlotRevealed(revealed: map<int, bool>, s: Slot)
  {
    IsRevealed(revealed, s.revealIndex)
  }

  /** Swapping exchanges the two slots, card and reveal state together:
      a revealed card stays revealed when it moves. */
  lemma SwapExchangesSlots(cards: seq<Card>, swapped: bool, revealed: map<int, bool>)
    requires |cards| >= 2
    ensures Layout(cards, !swapped).value.0 == Layout(cards, swapped).value.1
    ensures Layout(cards, !swapped).value.1 == Layout(cards, swapped).value.0
    ensures SlotRevealed(revealed, Layout(cards, !swapped).value.0) ==
            SlotRevealed(revealed, Layout(cards, swapped).value.1)
  {
  }

  /** Only the first two cards are looked at. */
  lemma LayoutIgnoresRest(cards: seq<Card>, more: seq<Card>, swapped: bool)
    requires |cards| >= 2
    ensures Layout(cards + more, swapped) == Layout(cards, swapped)
  {
  }

  class PositiveNegativeSpread {
    var swapped: bool

    constructor ()
      ensures !swapped
    {
      swapped := false;
    }

    /** `handleSwap` */
    method Swap()
      modifies this
      ensures swapped == !old(swapped)
    {
      swapped := !swapped;
    }

    function Shown(cards: seq<Card>): Option<(Slot, Slot)>
      reads this
    {
      Layout(cards, swapped)
    }
  }

  /** Swapping twice restores the layout. */
  method SwapTwice(p: PositiveNegativeSpread, cards: seq<Card>)
    modifies p
    ensures p.swapped == old(p.swapped)
    ensures p.Shown(cards) == old(p.Shown(cards))
  {
    p.Swap();
    p.Swap();
  }

  /** The hook used without props asks for the mode "positive-negative",
      a single-card count, and the API's draw input does not accept that
      mode. */
  lemma OwnDrawRejected()
    ensures InitialRequest("positive-negative") == DrawRequest("positive-negative", None)
    ensures CardCount("positive-negative") == 1
    ensures ParseDrawMode(Some(InitialRequest("positive-negative").mode)) == None
  {
  }
}
