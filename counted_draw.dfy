/** The draw path of a spread, end to end: the request `useSpreadState`
    sends (spread_state), the way server/routes.ts reads it through the
    draw input of shared/routes.ts, and what `drawCards` of
    server/storage.ts returns. As written the input keeps only `mode`, so
    the requested `count` is lost; the counted draw below honours it. */
module CountedDraw {
  import opened Wrappers
  import opened Seqs
  import opened Schema
  import opened Storage
  import opened Routes
  import opened SpreadStateHook

  // ---------------------------------------------------------------------
  // As written
  // ---------------------------------------------------------------------

  /** The server's answer to a request: `None` is a rejected input (status
      400); otherwise `drawCards(mode)`, whatever count was asked for. */
  function ServeAsWritten(rows: seq<Card>, req: DrawRequest, imagePick: nat, wordPick: nat): (r: Option<Result<seq<Card>, DrawError>>)
    ensures r.None? <==> req.mode !in ["image", "word", "pair"]
    ensures r.Some? && req.mode != "pair" ==> r.value.Ok? && |r.value.value| <= 1
    ensures r.Some? && r.value.Ok? ==> forall c :: c in r.value.value ==> c in rows
  {
    match ParseDrawMode(Some(req.mode))
    case None => None
    case Some(m) => Some(DrawCards(rows, m, imagePick, wordPick))
  }

  /** Every multi-card spread asks for `CardCount(mode)` image cards, on
      mount and on a redraw alike, and is answered with at most one card,
      fewer than it needs. */
  lemma MultiCardShortAsWritten(rows: seq<Card>, mode: string, imagePick: nat, wordPick: nat)
    requires IsMultiCard(mode)
    ensures InitialRequest(mode) == DrawRequest("image", Some(CardCount(mode)))
    ensures CardCount(mode) >= 3
    ensures var r := ServeAsWritten(rows, InitialRequest(mode), imagePick, wordPick);
      r.Some? && r.value.Ok? && |r.value.value| <= 1 < CardCount(mode)
  {
    InitialMatchesRedraw(mode);
    DrawSingleShape(rows, ImageMode, imagePick, wordPick);
  }

  /** A delivery to a hook whose cards are all face down and which is not
      redrawing becomes its `currentCards`; `hasData` then holds exactly
      when the delivery has the cards the spread needs. */
  method Deliver(s: SpreadState, cards: seq<Card>)
    requires NoneRevealed(s.revealed) && !s.isRedrawing
    modifies s
    ensures s.currentCards == cards
    ensures s.HasData() <==> |cards| >= CardCount(s.mode)
  {
    s.Resolve(cards);
    s.Sync();
  }

  // ---------------------------------------------------------------------
  // With the count honoured
  // ---------------------------------------------------------------------

  function Head(picks: seq<nat>): nat
  {
    if picks == [] then 0 else picks[0]
  }

  /** Removing position `k` keeps the other rows, none with the id of the
      removed one when ids are distinct. */
  lemma RemoveAt(pool: seq<Card>, k: nat)
    requires k < |pool|
    ensures forall c :: c in pool[..k] + pool[k + 1..] ==> c in pool
    ensures DistinctIds(pool) ==> DistinctIds(pool[..k] + pool[k + 1..])
    ensures DistinctIds(pool) ==> forall c :: c in pool[..k] + pool[k + 1..] ==> c.id != pool[k].id
  {
    var rest := pool[..k] + pool[k + 1..];
    assert forall i :: 0 <= i < |rest| ==> rest[i] == if i < k then pool[i] else pool[i + 1];
    if DistinctIds(pool) {
      forall c | c in rest ensures c.id != pool[k].id {
        var i :| 0 <= i < |rest| && rest[i] == c;
      }
    }
  }

  lemma ConsDistinct(c: Card, t: seq<Card>)
    requires DistinctIds(t) && forall x :: x in t ==> x.id != c.id
    ensures DistinctIds([c] + t)
  {
    var r := [c] + t;
    forall i, j | 0 <= i < j < |r| ensures r[i].id != r[j].id {
      assert r[j] == t[j - 1];
      if i > 0 { assert r[i] == t[i - 1]; } else { assert r[j] in t; }
    }
  }

  /** Sampling without replacement: each step moves the card at
      `picks[0] % |pool|` from the pool to the result, until `count` cards
      are taken or the pool is empty; a missing pick counts as 0. */
  function Sample(pool: seq<Card>, count: nat, picks: seq<nat>): (r: seq<Card>)
    ensures |r| == if count < |pool| then count else |pool|
    ensures forall c :: c in r ==> c in pool
    ensures DistinctIds(pool) ==> DistinctIds(r)
    decreases count
  {
    if count == 0 || pool == [] then []
    else
      var k := Head(picks) % |pool|;
      var rest := pool[..k] + pool[k + 1..];
      var tail := Sample(rest, count - 1, if picks == [] then [] else picks[1..]);
      RemoveAt(pool, k);
      if DistinctIds(pool) then
        ConsDistinct(pool[k], tail);
        [pool[k]] + tail
      else [pool[k]] + tail
  }

  /** The draw input with an optional positive `count` kept, 1 when it is
      missing. */
  function ParseCountedInput(mode: Option<string>, count: Option<int>): (r: Option<(DrawMode, nat)>)
    ensures r.Some? <==> ParseDrawMode(mode).Some? && (count.None? || count.value >= 1)
    ensures r.Some? ==> r.value.0 == ParseDrawMode(mode).value
    ensures r.Some? ==> r.value.1 == (if count.None? then 1 else count.value)
  {
    match ParseDrawMode(mode)
    case None => None
    case Some(m) =>
      if count.None? then Some((m, 1))
      else if count.value >= 1 then Some((m, count.value))
      else None
  }

  /** `drawCards(mode, count)` with the count honoured: `count` cards of
      the type with distinct ids, or all of them when fewer exist; the pair
      draw is unchanged. */
  function DrawCounted(rows: seq<Card>, mode: DrawMode, count: nat, picks: seq<nat>, wordPick: nat): (r: Result<seq<Card>, DrawError>)
    ensures mode != PairMode ==> r.Ok?
    ensures mode != PairMode ==> |r.value| == (var n := |GetCards(rows, Some(ModeType(mode)))|; if count < n then count else n)
    ensures mode != PairMode ==> forall c :: c in r.value ==> c in rows && c.cardType == ModeType(mode)
    ensures mode != PairMode && DistinctIds(rows) ==> DistinctIds(r.value)
    ensures mode == PairMode ==> r == DrawCards(rows, PairMode, Head(picks), wordPick)
  {
    if mode == PairMode then DrawCards(rows, PairMode, Head(picks), wordPick)
    else
      var pool := GetCards(rows, Some(ModeType(mode)));
      FilterDistinctIds(rows, OfType(ModeType(mode)));
      Ok(Sample(pool, count, picks))
  }

  /** The server's answer with the count honoured. */
  function Serve(rows: seq<Card>, req: DrawRequest, picks: seq<nat>, wordPick: nat): (r: Option<Result<seq<Card>, DrawError>>)
    ensures r.None? <==> req.mode !in ["image", "word", "pair"] || (req.count.Some? && req.count.value < 1)
    ensures r.Some? && req.mode == "image" ==> r.value.Ok?
    ensures r.Some? && req.mode == "image" ==>
      var n := if req.count.None? then 1 else req.count.value;
      var m := |GetCards(rows, Some(Image))|;
      |r.value.value| == if n < m then n else m
    ensures r.Some? && req.mode == "pair" ==> r == ServeAsWritten(rows, req, Head(picks), wordPick)
  {
    match ParseCountedInput(Some(req.mode), req.count)
    case None => None
    case Some((m, n)) => Some(DrawCounted(rows, m, n, picks, wordPick))
  }

  /** A sample of one is the single random pick. */
  lemma SampleOne(pool: seq<Card>, p: nat)
    ensures Sample(pool, 1, [p]) == if pool == [] then [] else [pool[p % |pool|]]
  {
    if pool != [] {
      var k := p % |pool|;
      assert Head([p]) == p && [p][1..] == [];
      assert Sample(pool, 1, [p]) == [pool[k]] + Sample(pool[..k] + pool[k + 1..], 0, []);
    }
  }

  /** Asking for one card is the draw as written. */
  lemma CountOneAgrees(rows: seq<Card>, mode: DrawMode, p: nat, wordPick: nat)
    requires mode != PairMode
    ensures DrawCounted(rows, mode, 1, [p], wordPick) == DrawCards(rows, mode, p, p)
  {
    var pool := GetCards(rows, Some(ModeType(mode)));
    SampleOne(pool, p);
    assert DrawCards(rows, mode, p, p) == Ok(RandomRow(rows, ModeType(mode), p));
    assert DrawCounted(rows, mode, 1, [p], wordPick) == Ok(Sample(pool, 1, [p]));
  }

  /** The spreads that draw a single card or a pair are served as before. */
  lemma SingleSpreadsUnchanged(rows: seq<Card>, mode: string, p: nat)
    requires !IsMultiCard(mode)
    ensures Serve(rows, InitialRequest(mode), [p], p) == ServeAsWritten(rows, InitialRequest(mode), p, p)
  {
    InitialMatchesRedraw(mode);
    var req := InitialRequest(mode);
    match ParseDrawMode(Some(req.mode))
    case None =>
    case Some(m) =>
      if m != PairMode {
        CountOneAgrees(rows, m, p, p);
      }
  }

  /** With the count honoured, every multi-card spread receives from a
      seeded table exactly the cards it needs: image cards of the table
      with distinct ids. The redraw sends the same request. */
  lemma MultiCardFilled(nextId: int, mode: string, picks: seq<nat>, wordPick: nat)
    requires IsMultiCard(mode)
    ensures var rows := AfterSeed([], nextId).0;
      var r := Serve(rows, InitialRequest(mode), picks, wordPick);
      && r.Some? && r.value.Ok? && |r.value.value| == CardCount(mode)
      && DistinctIds(r.value.value)
      && forall c :: c in r.value.value ==> c in rows && c.cardType == Image
  {
    InitialMatchesRedraw(mode);
    SeedTypeCounts(nextId);
  }
}
