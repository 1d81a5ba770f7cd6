/** `DatabaseStorage` of server/storage.ts: the seed routine that fills the
    `cards` table, and the three queries over it. The table is a sequence
    of rows; the row that `ORDER BY RANDOM() LIMIT 1` returns is chosen by
    an explicit `pick` argument. */
module Storage {
  import opened Wrappers
  import opened Seqs
  import opened Strings
  import opened Schema

  // ---------------------------------------------------------------------
  // Seed data
  // ---------------------------------------------------------------------

  /** Filenames of the image cards that were uploaded as assets. */
  const ImageMap: map<int, string> := map[
    68 := "68_1768113123930.jpg",
    76 := "76_1768113123929.jpg",
    77 := "77_1768113123930.jpg",
    78 := "78_1768113123929.jpg",
    79 := "79_1768113123929.jpg",
    80 := "80_1768113123930.jpg",
    81 := "81_1768113123927.jpg",
    82 := "82_1768113109974.jpg",
    83 := "83_1768113109974.jpg",
    84 := "84_1768113109974.jpg",
    85 := "85_1768113109971.jpg",
    86 := "86_1768113109973.jpg",
    87 := "87_1768113109972.jpg",
    88 := "88_1768113109973.jpg"
  ]

  const PlaceholderWords: seq<string> := [
    "Letting Go", "Love", "Fear", "Hope", "Change", "Childhood", "Dreams", "Family",
    "Guilt", "Joy", "Pain", "Play", "Power", "Shame", "Trust", "Truth"
  ]

  const ImageCount := 88
  const WordCount := 100

  /** `Math.ceil(a / b)` for a positive divisor. */
  function CeilDiv(a: int, b: int): (q: int)
    requires b > 0
    ensures b * (q - 1) < a <= b * q
  {
    (a + b - 1) / b
  }

  /** `imageMap[i] || `image_${i}.jpg`` */
  function ImageContent(i: int): (content: string)
    ensures i in ImageMap ==> content == ImageMap[i]
    ensures i !in ImageMap ==> content == "image_" + IntToString(i) + ".jpg"
    ensures |content| >= 4 && content[|content| - 4..] == ".jpg"
  {
    if i in ImageMap then ImageMap[i] else "image_" + IntToString(i) + ".jpg"
  }

  /** The placeholder word, with the round number appended after the
      first round of sixteen (`placeholderWords.length`, written out as
      16 here; WordContentIs relates it to the loop's expression). */
  function WordContent(i: int): string
  {
    var word := PlaceholderWords[(i - 1) % 16];
    if i <= 16 then word
    else word + " " + IntToString(CeilDiv(i, 16))
  }

  function ImageSeed(i: int): NewCard
  {
    NewCard(Image, i, ImageContent(i), "Image Card " + IntToString(i))
  }

  function WordSeed(i: int): NewCard
  {
    NewCard(Word, i, WordContent(i), "Word Card " + IntToString(i))
  }

  /** The list `seedCards` inserts: image cards 1..88, then word cards 1..100. */
  function SeedList(): (s: seq<NewCard>)
    ensures |s| == ImageCount + WordCount
  {
    seq(ImageCount, k requires 0 <= k < ImageCount => ImageSeed(k + 1))
    + seq(WordCount, k requires 0 <= k < WordCount => WordSeed(k + 1))
  }

  /** The two counting loops of `seedCards`, pushing into `newCards`. */
  method BuildSeedList() returns (newCards: seq<NewCard>)
    ensures newCards == SeedList()
  {
    newCards := PushImageCards([]);
    newCards := PushWordCards(newCards);
  }

  /** The first loop: image cards 1..88 pushed onto `newCards`. */
  method PushImageCards(start: seq<NewCard>) returns (newCards: seq<NewCard>)
    ensures newCards == start + seq(ImageCount, k requires 0 <= k < ImageCount => ImageSeed(k + 1))
  {
    newCards := start;
    var i := 1;
    while i <= 88
      invariant 1 <= i <= 89
      invariant newCards == start + seq(i - 1, k requires 0 <= k < i - 1 => ImageSeed(k + 1))
    {
      var content := if i in ImageMap then ImageMap[i] else "image_" + IntToString(i) + ".jpg";
      ImageRunSnoc(start, newCards, i - 1, NewCard(Image, i, content, "Image Card " + IntToString(i)));
      newCards := newCards + [NewCard(Image, i, content, "Image Card " + IntToString(i))];
      i := i + 1;
    }
  }

  /** The second loop: word cards 1..100 pushed onto `newCards`. */
  method PushWordCards(start: seq<NewCard>) returns (newCards: seq<NewCard>)
    ensures newCards == start + seq(WordCount, k requires 0 <= k < WordCount => WordSeed(k + 1))
  {
    newCards := start;
    var i := 1;
    while i <= 100
      invariant 1 <= i <= 101
      invariant newCards == start + seq(i - 1, k requires 0 <= k < i - 1 => WordSeed(k + 1))
    {
      var word := PlaceholderWords[(i - 1) % |PlaceholderWords|];
      var content := if i <= |PlaceholderWords| then word
                     else word + " " + IntToString((i + |PlaceholderWords| - 1) / |PlaceholderWords|);
      WordContentIs(i, word, content);
      WordRunSnoc(start, newCards, i - 1, NewCard(Word, i, content, "Word Card " + IntToString(i)));
      newCards := newCards + [NewCard(Word, i, content, "Word Card " + IntToString(i))];
      i := i + 1;
    }
  }

  /** Pushing image card n + 1 extends the image run by one. */
  lemma ImageRunSnoc(start: seq<NewCard>, cards: seq<NewCard>, n: nat, card: NewCard)
    requires cards == start + seq(n, k requires 0 <= k < n => ImageSeed(k + 1))
    requires card == ImageSeed(n + 1)
    ensures cards + [card] == start + seq(n + 1, k requires 0 <= k < n + 1 => ImageSeed(k + 1))
  {
    var run := seq(n, k requires 0 <= k < n => ImageSeed(k + 1));
    var next := seq(n + 1, k requires 0 <= k < n + 1 => ImageSeed(k + 1));
    assert next == run + [card];
  }

  /** Pushing word card n + 1 extends the word run by one. */
  lemma WordRunSnoc(start: seq<NewCard>, cards: seq<NewCard>, n: nat, card: NewCard)
    requires cards == start + seq(n, k requires 0 <= k < n => WordSeed(k + 1))
    requires card == WordSeed(n + 1)
    ensures cards + [card] == start + seq(n + 1, k requires 0 <= k < n + 1 => WordSeed(k + 1))
  {
    var run := seq(n, k requires 0 <= k < n => WordSeed(k + 1));
    var next := seq(n + 1, k requires 0 <= k < n + 1 => WordSeed(k + 1));
    assert next == run + [card];
  }

  /** The loop's content for word card i is `WordContent(i)`. */
  lemma WordContentIs(i: int, word: string, content: string)
    requires 1 <= i
    requires word == PlaceholderWords[(i - 1) % |PlaceholderWords|]
    requires content == if i <= |PlaceholderWords| then word
                        else word + " " + IntToString((i + |PlaceholderWords| - 1) / |PlaceholderWords|)
    ensures content == WordContent(i)
  {
  }

  // ---------------------------------------------------------------------
  // Properties of the seed list
  // ---------------------------------------------------------------------

  /** 88 image cards followed by 100 word cards, each numbered by its
      position within its type. */
  lemma SeedListShape()
    ensures forall k :: 0 <= k < ImageCount ==>
      SeedList()[k].cardType == Image && SeedList()[k].number == k + 1
    ensures forall k :: ImageCount <= k < ImageCount + WordCount ==>
      SeedList()[k].cardType == Word && SeedList()[k].number == k - ImageCount + 1
  {
  }

  /** Image card i: number i, title `Image Card i`, the mapped filename for
      the uploaded images and `image_i.jpg` for the rest. */
  lemma SeedImageCard(i: int)
    requires 1 <= i <= ImageCount
    ensures SeedList()[i - 1] == ImageSeed(i)
    ensures SeedList()[i - 1].title == "Image Card " + IntToString(i)
    ensures (i == 68 || 76 <= i <= 88) ==> SeedList()[i - 1].content == ImageMap[i]
    ensures !(i == 68 || 76 <= i <= 88) ==>
      SeedList()[i - 1].content == "image_" + IntToString(i) + ".jpg"
  {
  }

  /** Word card i: number i, title `Word Card i`, the ((i-1) mod 16)-th
      placeholder, suffixed by " " and ceil(i/16) beyond the first sixteen. */
  lemma SeedWordCard(i: int)
    requires 1 <= i <= WordCount
    ensures SeedList()[ImageCount + i - 1] == WordSeed(i)
    ensures SeedList()[ImageCount + i - 1].title == "Word Card " + IntToString(i)
    ensures SeedList()[ImageCount + i - 1].content == WordContent(i)
  {
  }

  /** The content of word card i: the ((i-1) mod 16)-th placeholder,
      suffixed by " " and the single digit ceil(i/16) beyond the first
      sixteen. */
  lemma SeedWordContent(i: int)
    requires 1 <= i <= WordCount
    ensures i <= 16 ==> SeedList()[ImageCount + i - 1].content == PlaceholderWords[i - 1]
    ensures i > 16 ==> (SeedList()[ImageCount + i - 1].content ==
                        PlaceholderWords[(i - 1) % 16] + " " + [DigitChar(CeilDiv(i, 16))])
    ensures i > 16 ==> 2 <= CeilDiv(i, 16) <= 7
  {
    SeedWordCard(i);
    if i <= 16 {
      WordContentFirstRound(i);
    } else {
      WordContentSuffixed(i);
    }
  }

  /** Within one type no number occurs twice; with the shape above, the
      numbers are exactly 1..88 for images and 1..100 for words. */
  lemma SeedNumbersUnique()
    ensures forall a, b :: (0 <= a < b < |SeedList()| && SeedList()[a].cardType == SeedList()[b].cardType)
                           ==> SeedList()[a].number != SeedList()[b].number
    ensures forall k :: 0 <= k < |SeedList()| && SeedList()[k].cardType == Image ==>
      1 <= SeedList()[k].number <= ImageCount
    ensures forall k :: 0 <= k < |SeedList()| && SeedList()[k].cardType == Word ==>
      1 <= SeedList()[k].number <= WordCount
  {
    SeedListShape();
  }

  lemma PlaceholdersDistinct(a: int, b: int)
    requires 0 <= a < |PlaceholderWords| && 0 <= b < |PlaceholderWords| && a != b
    ensures PlaceholderWords[a] != PlaceholderWords[b]
  {
  }

  /** No placeholder word contains a digit, a '.' or a '_'. */
  lemma PlaceholderChars(a: int)
    requires 0 <= a < |PlaceholderWords|
    ensures |PlaceholderWords[a]| > 0
    ensures forall j :: 0 <= j < |PlaceholderWords[a]| ==>
      !IsDigit(PlaceholderWords[a][j]) && PlaceholderWords[a][j] != '.' && PlaceholderWords[a][j] != '_'
  {
  }

  /** Beyond the first sixteen a word content is a placeholder, a space
      and one digit from 2 to 7. */
  lemma WordContentSuffixed(i: int)
    requires 16 < i <= WordCount
    ensures 2 <= CeilDiv(i, 16) <= 7
    ensures WordContent(i) == PlaceholderWords[(i - 1) % 16] + " " + [DigitChar(CeilDiv(i, 16))]
  {
  }

  /** The position in the placeholder list and the round number determine
      the card number. */
  lemma WordRoundDeterminesNumber(i: int, j: int)
    requires 1 <= i && 1 <= j
    requires (i - 1) % 16 == (j - 1) % 16 && CeilDiv(i, 16) == CeilDiv(j, 16)
    ensures i == j
  {
    assert i - 1 == 16 * ((i - 1) / 16) + (i - 1) % 16;
    assert j - 1 == 16 * ((j - 1) / 16) + (j - 1) % 16;
    assert CeilDiv(i, 16) == (i - 1) / 16 + 1;
    assert CeilDiv(j, 16) == (j - 1) / 16 + 1;
  }

  lemma WordContentFirstRound(i: int)
    requires 1 <= i <= 16
    ensures WordContent(i) == PlaceholderWords[i - 1]
  {
  }

  /** A first-round content ends in a letter, a later one in a digit. */
  lemma WordContentsDistinctAcrossRounds(p: int, q: int)
    requires 1 <= p <= 16 < q <= WordCount
    ensures WordContent(p) != WordContent(q)
  {
    var wp := PlaceholderWords[p - 1];
    PlaceholderChars(p - 1);
    WordContentSuffixed(q);
    WordContentFirstRound(p);
    var cq := WordContent(q);
    assert !IsDigit(wp[|wp| - 1]);
    assert IsDigit(cq[|cq| - 1]);
  }

  /** Two later-round contents agree only if word and round agree. */
  lemma WordContentsDistinctLaterRounds(i: int, j: int)
    requires 16 < i <= WordCount && 16 < j <= WordCount && i != j
    ensures WordContent(i) != WordContent(j)
  {
    WordContentSuffixed(i);
    WordContentSuffixed(j);
    var ri, rj := (i - 1) % 16, (j - 1) % 16;
    var wi, wj := PlaceholderWords[ri], PlaceholderWords[rj];
    var di, dj := CeilDiv(i, 16), CeilDiv(j, 16);
    var ci, cj := WordContent(i), WordContent(j);
    if ci == cj {
      assert |wi| == |wj|;
      assert ci[..|wi|] == wi;
      assert cj[..|wj|] == wj;
      assert ci[|wi| + 1] == DigitChar(di);
      assert cj[|wj| + 1] == DigitChar(dj);
      if ri != rj {
        PlaceholdersDistinct(ri, rj);
      }
      WordRoundDeterminesNumber(i, j);
    }
  }

  /** All hundred word contents are pairwise distinct. */
  lemma WordContentsDistinct(i: int, j: int)
    requires 1 <= i <= WordCount && 1 <= j <= WordCount && i != j
    ensures WordContent(i) != WordContent(j)
  {
    if i <= 16 && j <= 16 {
      WordContentFirstRound(i);
      WordContentFirstRound(j);
      PlaceholdersDistinct(i - 1, j - 1);
    } else if i <= 16 {
      WordContentsDistinctAcrossRounds(i, j);
    } else if j <= 16 {
      WordContentsDistinctAcrossRounds(j, i);
    } else {
      WordContentsDistinctLaterRounds(i, j);
    }
  }

  // ---------------------------------------------------------------------
  // The table and seeding
  // ---------------------------------------------------------------------

  /** The rows `db.insert` creates: serial ids from `firstId` on. */
  function AssignIds(cs: seq<NewCard>, firstId: int): (rows: seq<Card>)
    ensures |rows| == |cs|
    ensures forall k :: 0 <= k < |cs| ==>
      rows[k].id == firstId + k && rows[k].cardType == cs[k].cardType && rows[k].number == cs[k].number
      && rows[k].content == cs[k].content && rows[k].title == cs[k].title
  {
    seq(|cs|, k requires 0 <= k < |cs| =>
      Card(firstId + k, cs[k].cardType, cs[k].number, cs[k].content, cs[k].title))
  }

  /** The effect of `seedCards` on the rows and the id sequence: nothing
      when the table already has a row. */
  function AfterSeed(rows: seq<Card>, nextId: int): (r: (seq<Card>, int))
    ensures |rows| > 0 ==> r == (rows, nextId)
    ensures |rows| == 0 ==> |r.0| == ImageCount + WordCount && r.1 == nextId + ImageCount + WordCount
    ensures |rows| == 0 ==> forall k :: 0 <= k < |r.0| ==> r.0[k].id == nextId + k
  {
    if |rows| > 0 then (rows, nextId)
    else (AssignIds(SeedList(), nextId), nextId + |SeedList()|)
  }

  /** Seeding twice is seeding once. */
  lemma SeedIdempotent(rows: seq<Card>, nextId: int)
    ensures AfterSeed(AfterSeed(rows, nextId).0, AfterSeed(rows, nextId).1) == AfterSeed(rows, nextId)
  {
  }

  /** Ids strictly increase along the rows and stay below the next serial. */
  ghost predicate IdsIncreasing(rows: seq<Card>, nextId: int)
  {
    && (forall a, b :: 0 <= a < b < |rows| ==> rows[a].id < rows[b].id)
    && (forall a :: 0 <= a < |rows| ==> rows[a].id < nextId)
  }

  /** Inserted rows get increasing ids, all below the advanced serial. */
  lemma AssignIdsIncreasing(cs: seq<NewCard>, firstId: int)
    ensures IdsIncreasing(AssignIds(cs, firstId), firstId + |cs|)
  {
  }

  /** The `cards` table with its serial id sequence. */
  class CardTable {
    var rows: seq<Card>
    var nextId: int

    ghost predicate Valid()
      reads this
    {
      IdsIncreasing(rows, nextId)
    }

    constructor ()
      ensures Valid() && rows == [] && nextId == 1
    {
      rows := [];
      nextId := 1;
    }

    /** `seedCards`: build the list and insert it, unless a row exists. */
    method SeedCards()
      requires Valid()
      modifies this
      ensures Valid()
      ensures (rows, nextId) == AfterSeed(old(rows), old(nextId))
      ensures old(|rows|) > 0 ==> rows == old(rows) && nextId == old(nextId)
      ensures old(|rows|) == 0 ==> |rows| == 188 && nextId == old(nextId) + 188
    {
      if |rows| > 0 {
        return;
      }
      var newCards := BuildSeedList();
      AssignIdsIncreasing(newCards, nextId);
      assert rows + AssignIds(newCards, nextId) == AssignIds(newCards, nextId);
      rows := rows + AssignIds(newCards, nextId);
      nextId := nextId + |newCards|;
    }
  }

  // ---------------------------------------------------------------------
  // Queries
  // ---------------------------------------------------------------------

  /** The `where(eq(cards.type, t))` test. */
  function OfType(t: CardType): (keep: Card -> bool)
    ensures forall c :: keep(c) <==> c.cardType == t
  {
    (c: Card) => c.cardType == t
  }

  /** `getCards(type?)`: every row, or the rows of one type, in table order. */
  function GetCards(rows: seq<Card>, t: Option<CardType>): (r: seq<Card>)
    ensures forall c :: c in r <==> c in rows && (t.Some? ==> c.cardType == t.value)
    ensures IsSubseq(r, rows)
    ensures t.None? ==> r == rows
  {
    match t
    case None => IsSubseqRefl(rows); rows
    case Some(ty) => Filter(rows, OfType(ty))
  }

  /** `getCard(id)`: the first row with that id, or `undefined`. */
  function GetCard(rows: seq<Card>, id: int): (r: Option<Card>)
    ensures r.Some? ==> r.value in rows && r.value.id == id
    ensures r.None? <==> forall c :: c in rows ==> c.id != id
  {
    FindFirst(rows, (c: Card) => c.id == id)
  }

  /** With unique ids the lookup finds exactly the row carrying the id. */
  lemma GetCardExact(rows: seq<Card>, nextId: int, c: Card)
    requires IdsIncreasing(rows, nextId)
    ensures GetCard(rows, c.id) == Some(c) <==> c in rows
  {
    if c in rows {
      var r := GetCard(rows, c.id);
      var a :| 0 <= a < |rows| && rows[a] == c;
      var b :| 0 <= b < |rows| && rows[b] == r.value;
      assert a == b;
    }
  }

  /** No two rows share an id. */
  predicate DistinctIds(s: seq<Card>)
  {
    forall i, j :: 0 <= i < j < |s| ==> s[i].id != s[j].id
  }

  /** Increasing ids are distinct ids. */
  lemma IdsIncreasingDistinct(rows: seq<Card>, nextId: int)
    requires IdsIncreasing(rows, nextId)
    ensures DistinctIds(rows)
  {
  }

  /** Filtering keeps ids distinct. */
  lemma {:induction false} FilterDistinctIds(s: seq<Card>, keep: Card -> bool)
    ensures DistinctIds(s) ==> DistinctIds(Filter(s, keep))
  {
    if s != [] && DistinctIds(s) {
      FilterDistinctIds(s[1..], keep);
      var t := Filter(s[1..], keep);
      if keep(s[0]) {
        var r := Filter(s, keep);
        assert r == [s[0]] + t;
        forall j | 0 <= j < |t| ensures t[j].id != s[0].id {
          assert t[j] in s[1..];
          var m :| 0 <= m < |s| - 1 && s[1..][m] == t[j];
          assert s[m + 1] == t[j];
        }
        forall i, j | 0 <= i < j < |r| ensures r[i].id != r[j].id {
          assert r[j] == t[j - 1];
          if i > 0 { assert r[i] == t[i - 1]; }
        }
      }
    }
  }

  /** The seeded table holds its 88 image cards first, then its 100 word
      cards, under distinct ids. */
  lemma SeedTypeCounts(nextId: int)
    ensures GetCards(AfterSeed([], nextId).0, Some(Image)) == AfterSeed([], nextId).0[..ImageCount]
    ensures GetCards(AfterSeed([], nextId).0, Some(Word)) == AfterSeed([], nextId).0[ImageCount..]
    ensures |GetCards(AfterSeed([], nextId).0, Some(Image))| == ImageCount
    ensures |GetCards(AfterSeed([], nextId).0, Some(Word))| == WordCount
    ensures DistinctIds(AfterSeed([], nextId).0)
  {
    var rows := AfterSeed([], nextId).0;
    SeedHalves(rows, nextId);
    SplitByType(rows, ImageCount);
  }

  /** Rows whose first `n` are images and the rest words split by type at `n`. */
  lemma SplitByType(rows: seq<Card>, n: nat)
    requires n <= |rows|
    requires forall c :: c in rows[..n] ==> OfType(Image)(c) && !OfType(Word)(c)
    requires forall c :: c in rows[n..] ==> OfType(Word)(c) && !OfType(Image)(c)
    ensures GetCards(rows, Some(Image)) == rows[..n]
    ensures GetCards(rows, Some(Word)) == rows[n..]
  {
    FilterPrefix(rows, n, OfType(Image));
    FilterSuffix(rows, n, OfType(Word));
  }

  lemma SeedHalves(rows: seq<Card>, nextId: int)
    requires rows == AfterSeed([], nextId).0
    ensures |rows| == ImageCount + WordCount
    ensures forall c :: c in rows[..ImageCount] ==> OfType(Image)(c) && !OfType(Word)(c)
    ensures forall c :: c in rows[ImageCount..] ==> OfType(Word)(c) && !OfType(Image)(c)
    ensures DistinctIds(rows)
  {
    SeedListShape();
    var a, b := rows[..ImageCount], rows[ImageCount..];
    forall c | c in a ensures c.cardType == Image {
      var k :| 0 <= k < |a| && a[k] == c;
      assert a[k] == rows[k];
    }
    forall c | c in b ensures c.cardType == Word {
      var k :| 0 <= k < |b| && b[k] == c;
      assert b[k] == rows[ImageCount + k];
    }
  }

  /** `SELECT * FROM cards WHERE type = t ORDER BY RANDOM() LIMIT 1`: no row
      when the type has none, otherwise the row `pick` selects. */
  function RandomRow(rows: seq<Card>, t: CardType, pick: nat): (r: seq<Card>)
    ensures |r| <= 1
    ensures forall c :: c in r ==> c in rows && c.cardType == t
    ensures r == [] <==> forall c :: c in rows ==> c.cardType != t
  {
    var subset := GetCards(rows, Some(t));
    if subset == [] then [] else [subset[pick % |subset|]]
  }

  /** What the pair branch does on a missing row: reading `.id` of
      `rows[0]` when that is `undefined` throws a TypeError. */
  datatype DrawError = MissingRow

  /** `drawCards(mode)`: one random card of the type, or an image card
      followed by a word card. */
  function DrawCards(rows: seq<Card>, mode: DrawMode, imagePick: nat, wordPick: nat): (r: Result<seq<Card>, DrawError>)
    ensures r.Ok? ==> forall c :: c in r.value ==> c in rows
    ensures mode != PairMode ==> r.Ok? && |r.value| <= 1
    ensures mode == PairMode ==> (r.Err? <==>
      (forall c :: c in rows ==> c.cardType != Image) || (forall c :: c in rows ==> c.cardType != Word))
    ensures mode == PairMode && r.Ok? ==>
      |r.value| == 2 && r.value[0].cardType == Image && r.value[1].cardType == Word
  {
    match mode
    case ImageMode => Ok(RandomRow(rows, Image, imagePick))
    case WordMode => Ok(RandomRow(rows, Word, wordPick))
    case PairMode =>
      var img := RandomRow(rows, Image, imagePick);
      var word := RandomRow(rows, Word, wordPick);
      if img == [] || word == [] then Err(MissingRow) else Ok([img[0], word[0]])
  }

  function ModeType(mode: DrawMode): CardType
    requires mode != PairMode
  {
    if mode == ImageMode then Image else Word
  }

  /** Image and word draws never fail, return at most one card, only of
      the requested type, taken from the table, and nothing exactly when
      the table has no card of that type. */
  lemma DrawSingleShape(rows: seq<Card>, mode: DrawMode, imagePick: nat, wordPick: nat)
    requires mode != PairMode
    ensures DrawCards(rows, mode, imagePick, wordPick).Ok?
    ensures |DrawCards(rows, mode, imagePick, wordPick).value| <= 1
    ensures forall c :: c in DrawCards(rows, mode, imagePick, wordPick).value ==>
      c in rows && c.cardType == ModeType(mode)
    ensures DrawCards(rows, mode, imagePick, wordPick).value == [] <==>
      forall c :: c in rows ==> c.cardType != ModeType(mode)
  {
    var subset := GetCards(rows, Some(ModeType(mode)));
    if subset != [] {
      assert subset[0] in subset;
    }
  }

  /** A pair draw succeeds exactly when both types are present, and then
      yields an image card followed by a word card, both from the table. */
  lemma DrawPairShape(rows: seq<Card>, imagePick: nat, wordPick: nat)
    ensures DrawCards(rows, PairMode, imagePick, wordPick).Ok? <==>
      (exists c :: c in rows && c.cardType == Image) && (exists c :: c in rows && c.cardType == Word)
    ensures DrawCards(rows, PairMode, imagePick, wordPick).Ok? ==>
      var r := DrawCards(rows, PairMode, imagePick, wordPick).value;
      |r| == 2 && r[0].cardType == Image && r[1].cardType == Word && r[0] in rows && r[1] in rows
  {
    var imgs := GetCards(rows, Some(Image));
    var words := GetCards(rows, Some(Word));
    if imgs != [] { assert imgs[0] in imgs; }
    if words != [] { assert words[0] in words; }
  }

  /** Every card of a type is a possible outcome of the random pick. */
  lemma DrawReachesEveryCard(rows: seq<Card>, c: Card)
    requires c in rows
    ensures exists pick: nat :: RandomRow(rows, c.cardType, pick) == [c]
  {
    var subset := GetCards(rows, Some(c.cardType));
    assert c in subset;
    var k :| 0 <= k < |subset| && subset[k] == c;
    RandomRowAt(rows, c.cardType, k);
  }

  lemma RandomRowAt(rows: seq<Card>, t: CardType, k: nat)
    requires k < |GetCards(rows, Some(t))|
    ensures RandomRow(rows, t, k) == [GetCards(rows, Some(t))[k]]
  {
    var subset := GetCards(rows, Some(t));
    ModBelow(k, |subset|);
  }

  lemma ModBelow(k: nat, n: nat)
    requires k < n
    ensures k % n == k
  {
  }

  /** After seeding an empty table, each draw mode succeeds. */
  lemma DrawAfterSeed(nextId: int, mode: DrawMode, imagePick: nat, wordPick: nat)
    ensures DrawCards(AfterSeed([], nextId).0, mode, imagePick, wordPick).Ok?
    ensures mode != PairMode ==> |DrawCards(AfterSeed([], nextId).0, mode, imagePick, wordPick).value| == 1
  {
    var rows := AfterSeed([], nextId).0;
    SeedListShape();
    assert rows[0] in rows && rows[0].cardType == Image;
    assert rows[ImageCount] in rows && rows[ImageCount].cardType == Word;
    if mode != PairMode {
      DrawSingleShape(rows, mode, imagePick, wordPick);
    } else {
      DrawPairShape(rows, imagePick, wordPick);
    }
  }
}
