/** How client/src/components/CardDisplay.tsx renders a card: whether its
    content names an image file, which face is drawn, and the `src` of its
    images, for a single card (`CardDisplay`) and for the overlaid pair
    (`PairDisplay`). */
module CardDisplay {
  import opened Strings
  import opened Schema
  import opened Wrappers
  import Storage

  /** The suffixes `/\.(jpg|jpeg|png|webp|gif)$/i` accepts, lower-cased. */
  const ImageExtensions: seq<string> := [".jpg", ".jpeg", ".png", ".webp", ".gif"]

  /** The content ends in an image extension, in any letter case. */
  predicate HasImageExtension(content: string)
  {
    exists e :: e in ImageExtensions && EndsWith(Lower(content), e)
  }

  /** `isImageContent`: an image file name, or anything containing '_'. */
  predicate IsImageContent(content: string)
    ensures content == "" ==> !IsImageContent(content)
  {
    HasImageExtension(content) || Contains(content, "_")
  }

  const CardBackSrc := "/images/card_back_image.png"

  /** The front of a card: its word as text with its number, its word as
      text alone (the frame of a pair), or an image. */
  datatype Face =
    | TextFace(text: string, number: int)
    | FrameText(text: string)
    | ImageFace(src: string, alt: string)

  /** The `src` of an image: an absolute `http` address is kept, anything
      else is a file under `/images/`. */
  function ImageSrc(content: string): (src: string)
    ensures StartsWith(content, "http") ==> src == content
    ensures !StartsWith(content, "http") ==> src == "/images/" + content
    ensures EndsWith(src, content)
  {
    if StartsWith(content, "http") then content else "/images/" + content
  }

  /** `isWord && !isImageContent`: the card is drawn as text. */
  predicate IsTextCard(card: Card)
  {
    card.cardType == Word && !IsImageContent(card.content)
  }

  /** The front of `CardDisplay`. */
  function Front(card: Card): (f: Face)
    ensures f.TextFace? <==> card.cardType == Word && !IsImageContent(card.content)
    ensures f.TextFace? ==> f == TextFace(card.content, card.number)
    ensures f.ImageFace? ==> f == ImageFace(ImageSrc(card.content), card.title)
  {
    if IsTextCard(card) then TextFace(card.content, card.number)
    else ImageFace(ImageSrc(card.content), card.title)
  }

  /** `isRevealed = true`: the front shows unless the caller says otherwise. */
  function ShowsFront(isRevealed: Option<bool>): (b: bool)
    ensures b <==> isRevealed != Some(false)
  {
    match isRevealed
    case None => true
    case Some(v) => v
  }

  /** The frame layer of `PairDisplay`: the word card is drawn as an image
      under `/images/` when its content looks like a file, whatever its type,
      and without the `http` case; as text it shows the word alone. */
  function PairWordLayer(wordCard: Card): (f: Face)
    ensures f.FrameText? <==> !IsImageContent(wordCard.content)
    ensures f.FrameText? ==> f.text == wordCard.content
    ensures f.ImageFace? ==> f.src == "/images/" + wordCard.content && f.alt == wordCard.title
    ensures !f.TextFace?
  {
    if IsImageContent(wordCard.content) then ImageFace("/images/" + wordCard.content, wordCard.title)
    else FrameText(wordCard.content)
  }

  /** The picture layer of `PairDisplay`: always an image, with the same
      `src` rule as a single card. */
  function PairImageLayer(imageCard: Card): (f: Face)
    ensures f.ImageFace? && f.alt == imageCard.title
    ensures StartsWith(imageCard.content, "http") ==> f.src == imageCard.content
    ensures !StartsWith(imageCard.content, "http") ==> f.src == "/images/" + imageCard.content
  {
    ImageFace(ImageSrc(imageCard.content), imageCard.title)
  }

  // ---------------------------------------------------------------------
  // Properties
  // ---------------------------------------------------------------------

  /** The classification ignores letter case. */
  lemma ImageContentIgnoresCase(content: string)
    ensures IsImageContent(Lower(content)) <==> IsImageContent(content)
  {
    LowerIdempotent(content);
    assert HasImageExtension(Lower(content)) == HasImageExtension(content);
    ContainsIff(content, "_");
    ContainsIff(Lower(content), "_");
    if exists k :: OccursAt(content, "_", k) {
      var k :| OccursAt(content, "_", k);
      assert content[k] == content[k..k + 1][0] == '_';
      assert Lower(content)[k..k + 1] == "_";
      assert OccursAt(Lower(content), "_", k);
    }
    if exists k :: OccursAt(Lower(content), "_", k) {
      var k :| OccursAt(Lower(content), "_", k);
      assert Lower(content)[k] == Lower(content)[k..k + 1][0] == '_';
      assert content[k..k + 1] == "_";
      assert OccursAt(content, "_", k);
    }
  }

  /** Content without any '.' or '_' is never image content. */
  lemma PlainTextIsNotImage(content: string)
    requires forall i :: 0 <= i < |content| ==> content[i] != '.' && content[i] != '_'
    ensures !IsImageContent(content)
  {
    var low := Lower(content);
    forall e | e in ImageExtensions ensures !EndsWith(low, e) {
      assert e[0] == '.';
      if |e| <= |low| {
        assert low[|low| - |e|..][0] == low[|low| - |e|];
      }
    }
    forall k | 0 <= k && k + 1 <= |content| ensures !OccursAt(content, "_", k) {
      assert content[k..k + 1][0] == content[k];
    }
    ContainsIff(content, "_");
  }

  /** Content with a '_' at some position is image content. */
  lemma UnderscoreIsImage(content: string, k: nat)
    requires k < |content| && content[k] == '_'
    ensures IsImageContent(content)
  {
    assert OccursAt(content, "_", k);
    ContainsIff(content, "_");
  }

  /** Every seeded word card is drawn as text. */
  lemma SeededWordIsText(i: int)
    requires 1 <= i <= Storage.WordCount
    ensures !IsImageContent(Storage.WordContent(i))
  {
    var w := Storage.PlaceholderWords[(i - 1) % 16];
    Storage.PlaceholderChars((i - 1) % 16);
    if i > 16 {
      Storage.WordContentSuffixed(i);
      var s := Storage.WordContent(i);
      forall j | 0 <= j < |s| ensures s[j] != '.' && s[j] != '_' {
        if j < |w| { assert s[j] == w[j]; }
      }
    }
    PlainTextIsNotImage(Storage.WordContent(i));
  }

  /** Every seeded image card is drawn as an image, from `/images/`. */
  lemma SeededImageIsImage(i: int)
    ensures IsImageContent(Storage.ImageContent(i))
    ensures !StartsWith(Storage.ImageContent(i), "http")
    ensures ImageSrc(Storage.ImageContent(i)) == "/images/" + Storage.ImageContent(i)
  {
    var s := Storage.ImageContent(i);
    if i in Storage.ImageMap {
      assert s[2] == '_';
      UnderscoreIsImage(s, 2);
    } else {
      var n := IntToString(i);
      assert s == "image_" + n + ".jpg";
      assert s[5] == '_';
      UnderscoreIsImage(s, 5);
    }
    assert s[0] != 'h';
  }

  /** A word card is drawn as text in the pair exactly when it is drawn as
      text on its own; drawn as an image, both use the same `src` unless the
      content starts with `http`, which only the single card keeps as is. */
  lemma PairWordLayerAgrees(c: Card)
    requires c.cardType == Word
    ensures PairWordLayer(c).FrameText? <==> Front(c).TextFace?
    ensures PairWordLayer(c).FrameText? ==> PairWordLayer(c).text == Front(c).text
    ensures !StartsWith(c.content, "http") && IsImageContent(c.content) ==> PairWordLayer(c) == Front(c)
  {
  }

  /** A word card whose content is an `http` address with a '_' is drawn
      from that address on its own, but under `/images/` in a pair. */
  lemma PairWordLayerHttp(c: Card, k: nat)
    requires c.cardType == Word && StartsWith(c.content, "http")
    requires k < |c.content| && c.content[k] == '_'
    ensures Front(c) == ImageFace(c.content, c.title)
    ensures PairWordLayer(c) == ImageFace("/images/" + c.content, c.title)
  {
    UnderscoreIsImage(c.content, k);
  }

  /** A seeded word card is drawn as text: its word and its number. */
  lemma SeededFaces(c: Card)
    requires c.cardType == Word && 1 <= c.number <= Storage.WordCount && c.content == Storage.WordContent(c.number)
    ensures Front(c) == TextFace(c.content, c.number)
  {
    SeededWordIsText(c.number);
  }
}
