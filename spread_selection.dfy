/** `SpreadSelection` of client/src/pages/spreads/SpreadSelection.tsx: the
    list of spreads, the two tag filters over it and their buttons. */
module SpreadSelection {
  import opened Wrappers
  import opened Seqs
  import opened SpreadStateHook
  import opened Spreads

  /** One selectable spread; `desc` and `bg` are presentation only. */
  datatype SpreadOption = SpreadOption(id: string, title: string, featured: bool, tags: seq<string>)

  const CountFew := "1-2张"
  const CountSome := "3-5张"
  const CountMany := "6张以上"
  const TypeDraw := "抽卡"
  const TypeChoose := "选卡"

  /** `options`, written as its three runs of equal count tag. */
  const Options: seq<SpreadOption> := OneDrawOptions + ShortOptions + LongOptions

  const OneDrawOptions: seq<SpreadOption> := [
    SpreadOption("image", "单张图卡", false, [CountFew, TypeDraw]),
    SpreadOption("word", "单张字卡", false, [CountFew, TypeDraw]),
    SpreadOption("pair", "OH 经典组合", true, [CountFew, TypeDraw])
  ]

  const ShortOptions: seq<SpreadOption> := [
    SpreadOption("past-present-future", "时间轴牌阵", false, [CountSome, TypeDraw]),
    SpreadOption("story", "故事接龙", false, [CountSome, TypeDraw])
  ]

  const LongOptions: seq<SpreadOption> := [
    SpreadOption("hero-journey", "小英雄之旅", false, [CountMany, TypeDraw]),
    SpreadOption("hero-journey-full", "英雄之旅（完整版）", false, [CountMany, TypeDraw]),
    SpreadOption("balance-wheel", "生命平衡轮", false, [CountMany, TypeDraw]),
    SpreadOption("balance-wheel-custom", "平衡轮（自定义）", false, [CountMany, TypeDraw])
  ]

  /** `!filter || opt.tags.includes(filter)`: a null or empty filter is off. */
  predicate TagMatch(filter: Option<string>, opt: SpreadOption)
  {
    filter.None? || filter.value == "" || filter.value in opt.tags
  }

  /** The test `filteredOptions` applies to each option. */
  function Matches(countFilter: Option<string>, typeFilter: Option<string>): SpreadOption -> bool
  {
    o => TagMatch(countFilter, o) && TagMatch(typeFilter, o)
  }

  /** `filteredOptions`: the options, in their order, that match both filters. */
  function FilteredOptions(countFilter: Option<string>, typeFilter: Option<string>): (r: seq<SpreadOption>)
    ensures forall o :: o in r <==> o in Options && TagMatch(countFilter, o) && TagMatch(typeFilter, o)
    ensures IsSubseq(r, Options)
  {
    Filter(Options, Matches(countFilter, typeFilter))
  }

  function Ids(os: seq<SpreadOption>): (r: seq<string>)
    ensures |r| == |os|
    ensures forall i :: 0 <= i < |os| ==> r[i] == os[i].id
  {
    seq(|os|, i requires 0 <= i < |os| => os[i].id)
  }

  /** With both filters off, every spread is listed in its order. */
  lemma NoFilterListsAll()
    ensures FilteredOptions(None, None) == Options
  {
    FilterKeepsAll(Options, Matches(None, None));
  }

  /** The spreads are listed in the order `getSpreadComponent` names them. */
  lemma OptionIds()
    ensures Ids(Options) == DispatchedModes
  {
  }

  /** No spread carries the "choose cards" tag, so that filter empties the
      list whatever the count filter is. */
  lemma ChooseFilterEmpty(countFilter: Option<string>)
    ensures FilteredOptions(countFilter, Some(TypeChoose)) == []
  {
    var keep := Matches(countFilter, Some(TypeChoose));
    forall o | o in Options ensures !keep(o) {
      assert TypeChoose !in o.tags;
    }
    FilterKeepsNone(Options, keep);
  }

  /** Every spread carries the "draw cards" tag, so that filter changes
      nothing. */
  lemma DrawFilterNeutral(countFilter: Option<string>)
    ensures FilteredOptions(countFilter, Some(TypeDraw)) == FilteredOptions(countFilter, None)
  {
    var f := Matches(countFilter, Some(TypeDraw));
    var g := Matches(countFilter, None);
    forall o | o in Options ensures f(o) == g(o) {
      assert TypeDraw in o.tags;
    }
    FilterCongruent(Options, f, g);
  }

  /** A run whose spreads are all tagged `[tag, TypeDraw]`: the count filter
      `tag` keeps all of it, any other count tag none of it. */
  lemma RunFilter(os: seq<SpreadOption>, tag: string, f: string)
    requires forall o :: o in os ==> o.tags == [tag, TypeDraw]
    requires f != "" && f != TypeDraw
    ensures f == tag ==> Filter(os, Matches(Some(f), None)) == os
    ensures f != tag ==> Filter(os, Matches(Some(f), None)) == []
  {
    if f == tag {
      FilterKeepsAll(os, Matches(Some(f), None));
    } else {
      FilterKeepsNone(os, Matches(Some(f), None));
    }
  }

  /** Each count filter on the one-draw run. */
  lemma OneDrawRun()
    ensures Filter(OneDrawOptions, Matches(Some(CountFew), None)) == OneDrawOptions
    ensures Filter(OneDrawOptions, Matches(Some(CountSome), None)) == []
    ensures Filter(OneDrawOptions, Matches(Some(CountMany), None)) == []
  {
    RunFilter(OneDrawOptions, CountFew, CountFew);
    RunFilter(OneDrawOptions, CountFew, CountSome);
    RunFilter(OneDrawOptions, CountFew, CountMany);
  }

  /** Each count filter on the three-to-five run. */
  lemma ShortRun()
    ensures Filter(ShortOptions, Matches(Some(CountFew), None)) == []
    ensures Filter(ShortOptions, Matches(Some(CountSome), None)) == ShortOptions
    ensures Filter(ShortOptions, Matches(Some(CountMany), None)) == []
  {
    RunFilter(ShortOptions, CountSome, CountFew);
    RunFilter(ShortOptions, CountSome, CountSome);
    RunFilter(ShortOptions, CountSome, CountMany);
  }

  /** Each count filter on the six-or-more run. */
  lemma LongRun()
    ensures Filter(LongOptions, Matches(Some(CountFew), None)) == []
    ensures Filter(LongOptions, Matches(Some(CountSome), None)) == []
    ensures Filter(LongOptions, Matches(Some(CountMany), None)) == LongOptions
  {
    RunFilter(LongOptions, CountMany, CountFew);
    RunFilter(LongOptions, CountMany, CountSome);
    RunFilter(LongOptions, CountMany, CountMany);
  }

  /** The spreads of each run. */
  lemma RunIds()
    ensures Ids(OneDrawOptions) == ["image", "word", "pair"]
    ensures Ids(ShortOptions) == ["past-present-future", "story"]
    ensures Ids(LongOptions) == ["hero-journey", "hero-journey-full", "balance-wheel", "balance-wheel-custom"]
  {
  }

  /** The "1-2 cards" filter lists the three one-draw spreads. */
  lemma CountFewFilter()
    ensures FilteredOptions(Some(CountFew), None) == OneDrawOptions
  {
    var keep := Matches(Some(CountFew), None);
    FilterAppend(OneDrawOptions + ShortOptions, LongOptions, keep);
    FilterAppend(OneDrawOptions, ShortOptions, keep);
    OneDrawRun();
    ShortRun();
    LongRun();
  }

  /** The "3-5 cards" filter lists the timeline and the story. */
  lemma CountSomeFilter()
    ensures FilteredOptions(Some(CountSome), None) == ShortOptions
  {
    var keep := Matches(Some(CountSome), None);
    FilterAppend(OneDrawOptions + ShortOptions, LongOptions, keep);
    FilterAppend(OneDrawOptions, ShortOptions, keep);
    OneDrawRun();
    ShortRun();
    LongRun();
  }

  /** The "6 cards or more" filter lists the two journeys and the two wheels. */
  lemma CountManyFilter()
    ensures FilteredOptions(Some(CountMany), None) == LongOptions
  {
    var keep := Matches(Some(CountMany), None);
    FilterAppend(OneDrawOptions + ShortOptions, LongOptions, keep);
    FilterAppend(OneDrawOptions, ShortOptions, keep);
    OneDrawRun();
    ShortRun();
    LongRun();
  }

  /** Every listed spread has a component, needs as many cards as its
      count tag says, and counts as revealed once all of those are. */
  lemma OptionsAreDispatched(o: SpreadOption)
    requires o in Options
    ensures SpreadComponent(o.id).Some?
    ensures RevealSpan(o.id) == CardCount(o.id)
    ensures CountFew in o.tags ==> CardCount(o.id) <= 2
    ensures CountSome in o.tags ==> 3 <= CardCount(o.id) <= 5
    ensures CountMany in o.tags ==> CardCount(o.id) >= 6
  {
  }

  /** The label shown for a tag. */
  function TagLabel(tag: string): (shown: string)
    ensures tag != TypeDraw && tag != TypeChoose ==> shown == tag
  {
    if tag == TypeDraw then "抽牌" else if tag == TypeChoose then "选牌" else tag
  }

  /** The state of the two filters. */
  class Filters {
    var countFilter: Option<string>
    var typeFilter: Option<string>

    /** Each filter is off or set to one of its own buttons' tags. */
    predicate Valid()
      reads this
    {
      (countFilter.None? || countFilter.value in [CountFew, CountSome, CountMany])
      && (typeFilter.None? || typeFilter.value in [TypeDraw, TypeChoose])
    }

    constructor ()
      ensures countFilter == None && typeFilter == None
      ensures Valid()
    {
      countFilter := None;
      typeFilter := None;
    }

    /** The "all" button is highlighted while both filters are off. */
    predicate AllActive()
      reads this
    {
      countFilter.None? && typeFilter.None?
    }

    function Shown(): seq<SpreadOption>
      reads this
    {
      FilteredOptions(countFilter, typeFilter)
    }

    /** The "all" button clears both filters. */
    method ClickAll()
      modifies this
      ensures countFilter == None && typeFilter == None
      ensures AllActive() && Shown() == Options
    {
      countFilter := None;
      typeFilter := None;
      NoFilterListsAll();
    }

    /** A count button: clear the filter if it is this tag, else set it. */
    method ClickCount(tag: string)
      modifies this
      ensures old(countFilter) == Some(tag) ==> countFilter == None
      ensures old(countFilter) != Some(tag) ==> countFilter == Some(tag)
      ensures typeFilter == old(typeFilter)
      ensures old(Valid()) && tag in [CountFew, CountSome, CountMany] ==> Valid()
    {
      countFilter := if countFilter == Some(tag) then None else Some(tag);
    }

    /** A type button: clear the filter if it is this tag, else set it. */
    method ClickType(tag: string)
      modifies this
      ensures old(typeFilter) == Some(tag) ==> typeFilter == None
      ensures old(typeFilter) != Some(tag) ==> typeFilter == Some(tag)
      ensures countFilter == old(countFilter)
      ensures old(Valid()) && tag in [TypeDraw, TypeChoose] ==> Valid()
    {
      typeFilter := if typeFilter == Some(tag) then None else Some(tag);
    }
  }

  /** Pressing the same count button twice restores the list, unless another
      count filter was on, which the two presses clear. */
  method ClickCountTwice(f: Filters, tag: string)
    modifies f
    ensures old(f.countFilter) == None || old(f.countFilter) == Some(tag) ==>
      f.countFilter == old(f.countFilter) && f.Shown() == old(f.Shown())
    ensures old(f.countFilter) != None && old(f.countFilter) != Some(tag) ==> f.countFilter == None
    ensures f.typeFilter == old(f.typeFilter)
  {
    f.ClickCount(tag);
    f.ClickCount(tag);
  }
}
