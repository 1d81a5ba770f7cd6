/** `filterCards` of client/src/pages/Gallery.tsx: the search over the
    cards of one tab, by title or content, ignoring letter case. */
module Gallery {
  import opened Wrappers
  import opened Seqs
  import opened Strings
  import opened Schema

  /** The lower-cased search term occurs in the lower-cased title or
      content. */
  predicate MatchesTerm(c: Card, term: string)
    ensures term == "" ==> MatchesTerm(c, term)
    ensures Lower(term) == Lower(c.title) ==> MatchesTerm(c, term)
  {
    Contains(Lower(c.title), Lower(term)) || Contains(Lower(c.content), Lower(term))
  }

  /** The test passed to `cards.filter`. */
  function SearchTest(term: string): Card -> bool
  {
    c => MatchesTerm(c, term)
  }

  /** `filterCards(cards)`: no cards while the query has none, every card
      for an empty term, otherwise the matching cards in their order. */
  function FilterCards(cards: Option<seq<Card>>, term: string): (r: seq<Card>)
    ensures cards.None? ==> r == []
    ensures cards.Some? && term == "" ==> r == cards.value
    ensures cards.Some? && term != "" ==>
      forall c :: c in r <==> c in cards.value && MatchesTerm(c, term)
    ensures cards.Some? ==> IsSubseq(r, cards.value)
  {
    match cards
    case None => []
    case Some(cs) =>
      if term == "" then (IsSubseqRefl(cs); cs)
      else Filter(cs, SearchTest(term))
  }

  /** The early return for an empty term agrees with the filter, since the
      empty string occurs in every title. */
  lemma EmptyTermMatchesAll(cs: seq<Card>)
    ensures Filter(cs, SearchTest("")) == cs
  {
    forall c | c in cs ensures MatchesTerm(c, "") {
      assert OccursAt(Lower(c.title), Lower(""), 0);
      ContainsIff(Lower(c.title), Lower(""));
    }
    FilterKeepsAll(cs, SearchTest(""));
  }

  /** Terms that differ only in letter case find the same cards. */
  lemma CaseInsensitive(cards: Option<seq<Card>>, t1: string, t2: string)
    requires Lower(t1) == Lower(t2)
    ensures FilterCards(cards, t1) == FilterCards(cards, t2)
  {
    assert |t1| == |t2|;
    if cards.Some? && t1 != "" {
      FilterCongruent(cards.value, SearchTest(t1), SearchTest(t2));
    }
  }

  /** Searching for a card's own title, in any case, finds it. */
  lemma FindsOwnTitle(cs: seq<Card>, c: Card, term: string)
    requires c in cs && Lower(term) == Lower(c.title)
    ensures c in FilterCards(Some(cs), term)
  {
    assert OccursAt(Lower(c.title), Lower(term), 0);
    ContainsIff(Lower(c.title), Lower(term));
  }

  /** A longer term finds no more cards than its prefix. */
  lemma LongerTermNarrows(cs: seq<Card>, term: string, more: string)
    requires term != ""
    ensures forall c :: c in FilterCards(Some(cs), term + more) ==> c in FilterCards(Some(cs), term)
  {
    assert term + more != "";
    forall c | c in FilterCards(Some(cs), term + more) ensures c in FilterCards(Some(cs), term) {
      MatchNarrows(c, term, more);
    }
  }

  lemma MatchNarrows(c: Card, term: string, more: string)
    ensures MatchesTerm(c, term + more) ==> MatchesTerm(c, term)
  {
    assert Lower(term + more) == Lower(term) + Lower(more);
    OccursPrefix(Lower(c.title), Lower(term), Lower(more));
    OccursPrefix(Lower(c.content), Lower(term), Lower(more));
  }

  lemma OccursPrefix(s: string, p: string, q: string)
    ensures Contains(s, p + q) ==> Contains(s, p)
  {
    ContainsIff(s, p + q);
    ContainsIff(s, p);
    if exists k :: OccursAt(s, p + q, k) {
      var k :| OccursAt(s, p + q, k);
      assert s[k..k + |p|] == (p + q)[..|p|] == p;
      assert OccursAt(s, p, k);
    }
  }
}
