/** `useSpreadState` of client/src/pages/spreads/useSpreadsState.ts: the
    card count and draw request each spread needs, and the hook's state
    (`revealed`, `questionIndex`, `currentCards`, `isRedrawing`) with one
    method per handler or effect. The draw mutation is seen through its
    requests and its `data`; the one-second timer is the event
    `TimerFired`. */
module SpreadStateHook {
  import opened Wrappers
  import opened Strings
  import opened Schema

  /** `getCardCount()` */
  function CardCount(mode: string): (n: nat)
    ensures n in {1, 3, 4, 5, 6, 10}
  {
    if mode == "hero-journey-full" then 10
    else if mode == "hero-journey" || mode == "balance-wheel" || mode == "balance-wheel-custom" then 6
    else if mode == "story" then 5
    else if mode == "past-present-future" then 3
    else if mode == "ho-oponopono" then 4
    else 1
  }

  /** The spreads that draw several image cards. */
  predicate IsMultiCard(mode: string)
  {
    mode in ["past-present-future", "story", "hero-journey", "hero-journey-full",
             "balance-wheel", "balance-wheel-custom", "ho-oponopono"]
  }

  /** The argument of one `draw(...)` call: a mode and an optional count. */
  datatype DrawRequest = DrawRequest(mode: string, count: Option<int>)

  /** The request of the mount effect. */
  function InitialRequest(mode: string): (req: DrawRequest)
    ensures IsMultiCard(mode) ==> req == DrawRequest("image", Some(CardCount(mode)))
    ensures !IsMultiCard(mode) ==> req == DrawRequest(mode, None)
  {
    if mode == "past-present-future" then DrawRequest("image", Some(3))
    else if mode == "story" then DrawRequest("image", Some(5))
    else if mode == "hero-journey" then DrawRequest("image", Some(6))
    else if mode == "hero-journey-full" then DrawRequest("image", Some(10))
    else if mode == "balance-wheel" || mode == "balance-wheel-custom" then DrawRequest("image", Some(6))
    else if mode == "ho-oponopono" then DrawRequest("image", Some(4))
    else if mode == "pair" then DrawRequest("pair", None)
    else DrawRequest(mode, None)
  }

  /** `drawMode` of `handleDrawAgain` */
  function RedrawMode(mode: string): (m: string)
    ensures m == "image" <==> IsMultiCard(mode) || StartsWith(mode, "hero-journey") || mode == "image"
    ensures m != "image" ==> m == mode
  {
    if mode == "past-present-future" || mode == "story" || StartsWith(mode, "hero-journey")
       || mode == "balance-wheel" || mode == "balance-wheel-custom" || mode == "ho-oponopono"
    then "image"
    else mode
  }

  /** `count` of `handleDrawAgain`, a nested conditional of its own. */
  function RedrawCount(mode: string): (n: int)
    ensures 1 <= n <= 10
    ensures n > 1 <==> IsMultiCard(mode)
  {
    if mode == "hero-journey-full" then 10
    else if mode == "hero-journey" || mode == "balance-wheel" || mode == "balance-wheel-custom" then 6
    else if mode == "story" then 5
    else if mode == "past-present-future" then 3
    else if mode == "ho-oponopono" then 4
    else 1
  }

  /** The redraw asks for as many cards as the spread needs. */
  lemma RedrawCountIsCardCount(mode: string)
    ensures RedrawCount(mode) == CardCount(mode)
  {
  }

  /** For the multi-card spreads the mount request and the redraw request
      coincide, asking for `CardCount(mode)` image cards; for any other
      mode the mount request carries no count. */
  lemma InitialMatchesRedraw(mode: string)
    ensures IsMultiCard(mode) ==>
      InitialRequest(mode) == DrawRequest(RedrawMode(mode), Some(RedrawCount(mode)))
    ensures IsMultiCard(mode) ==> InitialRequest(mode) == DrawRequest("image", Some(CardCount(mode)))
    ensures !IsMultiCard(mode) ==> InitialRequest(mode).count.None?
    ensures !IsMultiCard(mode) && !StartsWith(mode, "hero-journey") ==>
      InitialRequest(mode).mode == RedrawMode(mode)
  {
  }

  /** A mode such as "hero-journey-x" is redrawn as an image draw although
      the mount effect sends the mode itself. */
  lemma HeroJourneyPrefixRedraw()
    ensures RedrawMode("hero-journey-x") == "image"
    ensures InitialRequest("hero-journey-x") == DrawRequest("hero-journey-x", None)
    ensures RedrawCount("hero-journey-x") == 1
  {
    assert StartsWith("hero-journey-x", "hero-journey");
  }

  /** `revealed[i]` is truthy. */
  predicate IsRevealed(revealed: map<int, bool>, i: int)
  {
    i in revealed && revealed[i]
  }

  /** `Object.values(revealed).every((v) => !v)` */
  predicate NoneRevealed(revealed: map<int, bool>)
  {
    forall k :: k in revealed ==> !revealed[k]
  }

  /** `{ ...prev, [index]: true }` */
  function Reveal(revealed: map<int, bool>, index: int): (r: map<int, bool>)
    ensures r.Keys == revealed.Keys + {index}
    ensures IsRevealed(r, index)
    ensures forall k :: k != index && k in revealed ==> r[k] == revealed[k]
  {
    revealed[index := true]
  }

  /** Revealing never hides a card, and revealing twice is revealing once. */
  lemma RevealMonotoneIdempotent(revealed: map<int, bool>, index: int)
    ensures forall k :: IsRevealed(revealed, k) ==> IsRevealed(Reveal(revealed, index), k)
    ensures Reveal(Reveal(revealed, index), index) == Reveal(revealed, index)
    ensures !NoneRevealed(Reveal(revealed, index))
  {
    assert IsRevealed(Reveal(revealed, index), index);
  }

  class SpreadState {
    const mode: string
    var revealed: map<int, bool>
    var questionIndex: int
    var currentCards: seq<Card>
    var isRedrawing: bool
    /** `data?.cards` of the draw mutation, `None` while it has none. */
    var data: Option<seq<Card>>
    /** Every `draw(...)` call issued so far, oldest first. */
    var requests: seq<DrawRequest>

    /** `hasData` */
    predicate HasData()
      reads this
      ensures HasData() ==> currentCards != []
      ensures IsMultiCard(mode) && HasData() ==> |currentCards| >= 3
    {
      |currentCards| >= CardCount(mode)
    }

    /** The state after mounting: everything empty, the initial draw issued. */
    constructor (mode: string)
      ensures this.mode == mode
      ensures revealed == map[] && questionIndex == 0 && currentCards == []
      ensures !isRedrawing && data == None
      ensures requests == [InitialRequest(mode)]
    {
      this.mode := mode;
      revealed := map[];
      questionIndex := 0;
      currentCards := [];
      isRedrawing := false;
      data := None;
      requests := [InitialRequest(mode)];
    }

    /** The draw mutation delivers `{ cards }`. */
    method Resolve(cards: seq<Card>)
      modifies this
      ensures data == Some(cards)
      ensures revealed == old(revealed) && questionIndex == old(questionIndex)
      ensures currentCards == old(currentCards) && isRedrawing == old(isRedrawing)
      ensures requests == old(requests)
    {
      data := Some(cards);
    }

    /** The synchronising effect: take the delivered cards only while every
        card is face down and no redraw is in progress. */
    method Sync()
      modifies this
      ensures old(data).Some? && NoneRevealed(old(revealed)) && !old(isRedrawing) ==>
        currentCards == old(data).value
      ensures !(old(data).Some? && NoneRevealed(old(revealed)) && !old(isRedrawing)) ==>
        currentCards == old(currentCards)
      ensures revealed == old(revealed) && questionIndex == old(questionIndex)
      ensures isRedrawing == old(isRedrawing) && data == old(data) && requests == old(requests)
    {
      if data.Some? && (forall k | k in revealed :: !revealed[k]) && !isRedrawing {
        currentCards := data.value;
      }
    }

    /** `toggleReveal(index)`: with data, show the delivered cards and mark
        `index` revealed; without data, nothing. */
    method ToggleReveal(index: int)
      modifies this
      ensures old(data).Some? ==> currentCards == old(data).value && revealed == Reveal(old(revealed), index)
      ensures old(data).None? ==> currentCards == old(currentCards) && revealed == old(revealed)
      ensures questionIndex == old(questionIndex) && isRedrawing == old(isRedrawing)
      ensures data == old(data) && requests == old(requests)
    {
      if data.Some? {
        currentCards := data.value;
        revealed := revealed[index := true];
      }
    }

    /** `handleDrawAgain`: turn every card face down, block the sync and
        request a fresh draw. */
    method DrawAgain()
      modifies this
      ensures isRedrawing && revealed == map[]
      ensures requests == old(requests) + [DrawRequest(RedrawMode(mode), Some(RedrawCount(mode)))]
      ensures currentCards == old(currentCards) && questionIndex == old(questionIndex)
      ensures data == old(data)
    {
      isRedrawing := true;
      revealed := map[];
      var drawMode :=
        if mode == "past-present-future" || mode == "story" || StartsWith(mode, "hero-journey")
           || mode == "balance-wheel" || mode == "balance-wheel-custom" || mode == "ho-oponopono"
        then "image" else mode;
      var count :=
        if mode == "hero-journey-full" then 10
        else if mode == "hero-journey" || mode == "balance-wheel" || mode == "balance-wheel-custom" then 6
        else if mode == "story" then 5
        else if mode == "past-present-future" then 3
        else if mode == "ho-oponopono" then 4
        else 1;
      requests := requests + [DrawRequest(drawMode, Some(count))];
    }

    /** The timeout set by `handleDrawAgain` fires. */
    method TimerFired()
      modifies this
      ensures !isRedrawing
      ensures revealed == old(revealed) && questionIndex == old(questionIndex)
      ensures currentCards == old(currentCards) && data == old(data) && requests == old(requests)
    {
      isRedrawing := false;
    }

    /** `handleNextQuestion` */
    method NextQuestion()
      modifies this
      ensures questionIndex == old(questionIndex) + 1
      ensures revealed == old(revealed) && currentCards == old(currentCards)
      ensures isRedrawing == old(isRedrawing) && data == old(data) && requests == old(requests)
    {
      questionIndex := questionIndex + 1;
    }

    /** `setQuestionIndex(index)` */
    method SetQuestionIndex(index: int)
      modifies this
      ensures questionIndex == index
      ensures revealed == old(revealed) && currentCards == old(currentCards)
      ensures isRedrawing == old(isRedrawing) && data == old(data) && requests == old(requests)
    {
      questionIndex := index;
    }
  }

  /** A redraw keeps the old cards on the table until the timer has fired
      and a sync runs; then the delivered cards replace them. */
  method RedrawScenario(s: SpreadState, cards: seq<Card>)
    modifies s
    ensures s.currentCards == cards && s.revealed == map[] && !s.isRedrawing
  {
    s.DrawAgain();
    ghost var before := s.currentCards;
    s.Resolve(cards);
    s.Sync();
    assert s.currentCards == before;
    s.TimerFired();
    s.Sync();
  }
}
