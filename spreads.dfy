/** The rules of client/src/pages/Spreads.tsx: which component a mode gets,
    its title, its summary questions, when every card counts as revealed,
    and the cycling through the questions. */
module Spreads {
  import opened Wrappers
  import opened SpreadStateHook

  /** The component `getSpreadComponent` renders. */
  datatype SpreadKind =
    | SingleCard(single: string)
    | PairKind
    | PastPresentFuture
    | Story
    | HeroJourney
    | HeroJourneyFull
    | BalanceWheel(custom: bool)

  /** `getSpreadComponent()`; `None` is `null`. */
  function SpreadComponent(mode: string): (k: Option<SpreadKind>)
    ensures k.Some? ==> mode in DispatchedModes
    ensures k == Some(SingleCard(mode)) <==> mode == "image" || mode == "word"
    ensures k == Some(BalanceWheel(true)) <==> mode == "balance-wheel-custom"
  {
    if mode == "image" || mode == "word" then Some(SingleCard(mode))
    else if mode == "pair" then Some(PairKind)
    else if mode == "past-present-future" then Some(PastPresentFuture)
    else if mode == "story" then Some(Story)
    else if mode == "hero-journey" then Some(HeroJourney)
    else if mode == "hero-journey-full" then Some(HeroJourneyFull)
    else if mode == "balance-wheel" then Some(BalanceWheel(false))
    else if mode == "balance-wheel-custom" then Some(BalanceWheel(true))
    else None
  }

  /** The modes `getSpreadComponent` knows. */
  const DispatchedModes: seq<string> := ["image", "word", "pair", "past-present-future", "story",
    "hero-journey", "hero-journey-full", "balance-wheel", "balance-wheel-custom"]

  lemma SpreadComponentKnown(mode: string)
    ensures SpreadComponent(mode).Some? <==> mode in DispatchedModes
  {
  }

  /** `getTitle()` */
  function Title(mode: string): (t: string)
    ensures t != ""
    ensures mode !in TitledModes ==> t == "单张图卡牌阵" || t == "单张字卡牌阵"
  {
    if mode == "pair" then "OH 经典组合"
    else if mode == "past-present-future" then "时间轴牌阵 (过去/现在/未来)"
    else if mode == "story" then "故事接龙"
    else if mode == "hero-journey" then "小英雄之旅"
    else if mode == "hero-journey-full" then "英雄之旅（完整版）"
    else if mode == "balance-wheel" then "生命平衡轮"
    else if mode == "balance-wheel-custom" then "平衡轮（自定义）"
    else "单张" + (if mode == "image" then "图卡" else "字卡") + "牌阵"
  }

  const TitledModes: seq<string> := ["pair", "past-present-future", "story", "hero-journey",
    "hero-journey-full", "balance-wheel", "balance-wheel-custom"]

  /** The fallback title names the image card only for "image"; every other
      unlisted mode, "word" or unknown, gets the word-card title. */
  lemma DefaultTitle(mode: string)
    requires mode !in TitledModes
    ensures mode == "image" ==> Title(mode) == "单张图卡牌阵"
    ensures mode != "image" ==> Title(mode) == "单张字卡牌阵"
  {
  }

  /** `getSummaryQuestions()` */
  function SummaryQuestions(mode: string): (qs: seq<string>)
    ensures |qs| == (if mode in TitledModes then 3 else 5)
  {
    if mode == "past-present-future" then [
      "从过去到未来的演变中，你看到了什么样的生命脉络？",
      "为了走向理想的未来，现在的你最需要做出的调整是什么？",
      "回顾这段旅程，哪个阶段带给你的成长最为深刻？"]
    else if mode == "balance-wheel" || mode == "balance-wheel-custom" then [
      "观察这个平衡轮，哪一个领域的缺失最让你感到意外？",
      "如果你只提升其中一个领域，哪个领域的改变会带动整体的平衡？",
      "看到这个形状，你现在对自己生活的平衡感有什么新的定义？"]
    else if mode == "hero-journey" || mode == "hero-journey-full" then [
      "在这个英雄故事中，你感受到的最大力量源泉在哪里？",
      "这场冒险揭示了你潜意识中怎样的核心冲突与渴望？",
      "如果英雄现在对你说一句话，他会告诉你什么？"]
    else if mode == "story" then [
      "这个故事的主旋律是关于什么的？（如勇气、接纳、转变等）",
      "故事中哪个转折点让你印象最深刻？它对应了你现实中的什么？",
      "如果这个故事有续集，你希望接下来的剧情如何发展？"]
    else if mode == "pair" then [
      "图卡与字卡的碰撞，产生了一层怎样的意想不到的新含义？",
      "这个组合触动了你当下哪一个具体的决策或情感困惑？",
      "如果用一个词来概括这个组合带给你的启示，那会是什么？"]
    else [
      "观察这组卡片，你整体的直觉感受是什么？",
      "这些卡片之间是否存在某种你意想不到的联系？",
      "如果这组牌是一个整体的建议，它在告诉你什么？",
      "看完这组牌，你内心最强烈的渴望或担忧是什么？",
      "为了回应这组牌带给你的启发，你打算做的第一件小事是什么？"]
  }

  /** `getAllRevealed()`, spelled out as the source's conjunctions. */
  predicate AllRevealed(mode: string, revealed: map<int, bool>)
    ensures AllRevealed(mode, revealed) ==> IsRevealed(revealed, 0)
    ensures NoneRevealed(revealed) ==> !AllRevealed(mode, revealed)
  {
    var r := (i: int) => IsRevealed(revealed, i);
    if mode == "past-present-future" then r(0) && r(1) && r(2)
    else if mode == "story" then r(0) && r(1) && r(2) && r(3) && r(4)
    else if mode == "hero-journey" then r(0) && r(1) && r(2) && r(3) && r(4) && r(5)
    else if mode == "balance-wheel" || mode == "balance-wheel-custom" then
      r(0) && r(1) && r(2) && r(3) && r(4) && r(5)
    else if mode == "hero-journey-full" then
      r(0) && r(1) && r(2) && r(3) && r(4) && r(5) && r(6) && r(7) && r(8) && r(9)
    else r(0)
  }

  /** How many leading positions `getAllRevealed` inspects. */
  function RevealSpan(mode: string): (n: nat)
    ensures 1 <= n <= 10
    ensures n > 1 ==> mode in DispatchedModes
  {
    if mode == "past-present-future" then 3
    else if mode == "story" then 5
    else if mode == "hero-journey" || mode == "balance-wheel" || mode == "balance-wheel-custom" then 6
    else if mode == "hero-journey-full" then 10
    else 1
  }

  /** All revealed means: positions 0 .. span-1 are all revealed. */
  lemma AllRevealedSpan(mode: string, revealed: map<int, bool>)
    ensures AllRevealed(mode, revealed) <==> forall i :: 0 <= i < RevealSpan(mode) ==> IsRevealed(revealed, i)
  {
    if forall i :: 0 <= i < RevealSpan(mode) ==> IsRevealed(revealed, i) {
    } else {
      var i :| 0 <= i < RevealSpan(mode) && !IsRevealed(revealed, i);
      assert !IsRevealed(revealed, i);
    }
  }

  /** For every mode that has a component, the positions that must be
      revealed are exactly the cards the spread needs. */
  lemma RevealSpanIsCardCount(mode: string)
    requires SpreadComponent(mode).Some?
    ensures RevealSpan(mode) == CardCount(mode)
  {
  }

  /** "ho-oponopono" needs four cards but counts as revealed after one, and
      has no component. */
  lemma HoOponoponoSpan()
    ensures CardCount("ho-oponopono") == 4 && RevealSpan("ho-oponopono") == 1
    ensures SpreadComponent("ho-oponopono") == None
  {
  }

  /** `(prev + 1) % summaryQuestions.length`, JavaScript's remainder. */
  function NextQuestionIndex(prev: int, len: int): (r: int)
    requires len > 0
    ensures 0 <= prev ==> 0 <= r < len
    ensures 0 <= prev < len - 1 ==> r == prev + 1
    ensures prev == len - 1 ==> r == 0
  {
    var n := prev + 1;
    if n >= 0 then n % len else -((-n) % len)
  }

  /** The question shown at `questionIndex`; `None` is `undefined`. */
  function CurrentQuestion(mode: string, questionIndex: int): (q: Option<string>)
    ensures q.Some? <==> 0 <= questionIndex < |SummaryQuestions(mode)|
  {
    var qs := SummaryQuestions(mode);
    if 0 <= questionIndex < |qs| then Some(qs[questionIndex]) else None
  }

  /** The refresh button of the question line. */
  method CycleQuestion(s: SpreadState)
    modifies s
    ensures s.questionIndex == NextQuestionIndex(old(s.questionIndex), |SummaryQuestions(s.mode)|)
    ensures old(s.questionIndex) >= 0 ==> 0 <= s.questionIndex < |SummaryQuestions(s.mode)|
    ensures old(s.questionIndex) >= 0 ==> CurrentQuestion(s.mode, s.questionIndex).Some?
    ensures s.revealed == old(s.revealed) && s.currentCards == old(s.currentCards)
    ensures s.isRedrawing == old(s.isRedrawing) && s.data == old(s.data) && s.requests == old(s.requests)
  {
    s.SetQuestionIndex(NextQuestionIndex(s.questionIndex, |SummaryQuestions(s.mode)|));
  }

  /** `ActiveSpread` as written: the page reads its own `useSpreadState`
      instance, while the spread component it renders calls the hook again
      and keeps a second one. */
  class ActiveSpread {
    const page: SpreadState
    const spread: SpreadState

    predicate Valid()
      reads this
    {
      page != spread && page.mode == spread.mode
    }

    constructor (mode: string)
      ensures Valid() && page.mode == mode
      ensures page.revealed == map[] && spread.revealed == map[]
    {
      page := new SpreadState(mode);
      spread := new SpreadState(mode);
    }

    /** The question line shows once the page has its cards and all of
        them count as revealed, in the page's own state. */
    predicate QuestionsShown()
      reads this, page
    {
      page.HasData() && AllRevealed(page.mode, page.revealed)
    }

    /** A click on card `i` runs the spread component's `toggleReveal`. */
    method ClickCard(i: int)
      requires Valid()
      modifies spread
      ensures spread.revealed == if old(spread.data).Some? then Reveal(old(spread.revealed), i) else old(spread.revealed)
      ensures spread.data == old(spread.data)
      ensures old(spread.data).Some? ==> spread.currentCards == old(spread.data).value
    {
      spread.ToggleReveal(i);
    }

    /** The draw-again button runs the page's `handleDrawAgain`: the cards
        on show and their reveal state stay as they are. */
    method DrawAgain()
      requires Valid()
      modifies page
      ensures spread.revealed == old(spread.revealed) && spread.currentCards == old(spread.currentCards)
      ensures page.revealed == map[] && page.isRedrawing
    {
      page.DrawAgain();
    }
  }

  /** As written, turning over every card of the spread leaves the page's
      reveal state empty, so the questions never show. The frame is the
      point: each click may modify only the spread component's hook, so
      the page's `revealed` keeps the empty value the precondition gives
      it; the loop shows that the spread's own state, by contrast, ends
      with every card revealed. */
  method RevealAllAsWritten(v: ActiveSpread)
    requires v.Valid() && v.page.revealed == map[]
    modifies v.spread
    ensures v.spread.data.Some? ==> forall i :: 0 <= i < RevealSpan(v.spread.mode) ==> IsRevealed(v.spread.revealed, i)
    ensures v.spread.data.Some? ==> AllRevealed(v.spread.mode, v.spread.revealed)
    ensures !v.QuestionsShown()
  {
    var i := 0;
    while i < RevealSpan(v.spread.mode)
      invariant 0 <= i <= RevealSpan(v.spread.mode)
      invariant v.spread.data == old(v.spread.data)
      invariant v.spread.data.Some? ==> forall j :: 0 <= j < i ==> IsRevealed(v.spread.revealed, j)
    {
      RevealMonotoneIdempotent(v.spread.revealed, i);
      v.ClickCard(i);
      i := i + 1;
    }
    AllRevealedSpan(v.spread.mode, v.spread.revealed);
    AllRevealedSpan(v.page.mode, v.page.revealed);
    assert !IsRevealed(v.page.revealed, 0);
  }

  /** The evident intent: the page hands its state to the spread (as
      `PositiveNegativeSpread` accepts through its props), so the clicks
      reach the state the question line reads. */
  class SharedSpread {
    const state: SpreadState

    constructor (mode: string)
      ensures state.mode == mode && state.revealed == map[]
    {
      state := new SpreadState(mode);
    }

    predicate QuestionsShown()
      reads this, state
    {
      state.HasData() && AllRevealed(state.mode, state.revealed)
    }

    method ClickCard(i: int)
      modifies state
      ensures state.revealed == if old(state.data).Some? then Reveal(old(state.revealed), i) else old(state.revealed)
      ensures state.data == old(state.data)
      ensures old(state.data).Some? ==> state.currentCards == old(state.data).value
    {
      state.ToggleReveal(i);
    }
  }

  /** With one shared state, turning over every card shows the questions
      once the delivered cards are as many as the spread needs. */
  method RevealAllShared(v: SharedSpread)
    modifies v.state
    ensures v.state.data == old(v.state.data)
    ensures v.state.data.Some? ==> AllRevealed(v.state.mode, v.state.revealed)
    ensures v.state.data.Some? && |v.state.data.value| >= CardCount(v.state.mode) ==> v.QuestionsShown()
  {
    var i := 0;
    while i < RevealSpan(v.state.mode)
      invariant 0 <= i <= RevealSpan(v.state.mode)
      invariant v.state.data == old(v.state.data)
      invariant v.state.data.Some? ==> forall j :: 0 <= j < i ==> IsRevealed(v.state.revealed, j)
      invariant v.state.data.Some? && i > 0 ==> v.state.currentCards == v.state.data.value
    {
      RevealMonotoneIdempotent(v.state.revealed, i);
      v.ClickCard(i);
      i := i + 1;
    }
    AllRevealedSpan(v.state.mode, v.state.revealed);
  }

  /** The page state: `activeMode`, set by the selection and cleared by the
      back button. */
  class SpreadsPage {
    var activeMode: Option<string>

    constructor ()
      ensures activeMode == None
    {
      activeMode := None;
    }

    /** `onSelect={setActiveMode}` */
    method Select(mode: string)
      modifies this
      ensures activeMode == Some(mode)
    {
      activeMode := Some(mode);
    }

    /** `onBack={() => setActiveMode(null)}` */
    method Back()
      modifies this
      ensures activeMode == None
    {
      activeMode := None;
    }

    /** The selection shows while `activeMode` is falsy. */
    predicate ShowsSelection()
      reads this
    {
      activeMode.None? || activeMode.value == ""
    }
  }
}
