/** The scoring state of client/src/pages/spreads/BalanceWheelSpread.tsx:
    six scores, the set of scored positions, the custom keywords and the
    label being edited, with the radar data and dot colours derived from
    them. The click geometry is reduced to the normalised angle of the
    click and the integer score it rounds to. */
module BalanceWheel {
  import opened Wrappers
  import opened Strings
  import opened SpreadStateHook

  const Slots := 6
  const MaxScore := 10

  const DefaultLabels: seq<string> := ["身", "心", "灵", "家", "事", "社"]

  // ---------------------------------------------------------------------
  // From a click to a position and a score
  // ---------------------------------------------------------------------

  /** `Math.round(x)`: the nearest integer, halves rounded up. */
  function Round(x: real): (n: int)
    ensures x - 0.5 < n as real <= x + 0.5
  {
    (x + 0.5).Floor
  }

  /** The position the click handler computes from the angle of the click,
      measured clockwise from the top and normalised to [0, 360): the
      nearest multiple of 60 degrees. Since `angle / 60` is below 6, the
      `% 6` before the rounding changes nothing. */
  function ClickIndexAsWritten(angle: real): (idx: int)
    requires 0.0 <= angle < 360.0
    ensures 0 <= idx <= Slots
  {
    Round(angle / 60.0)
  }

  /** Clicks in the last thirty degrees before the top round up to
      position 6, which no card has: `toggleReveal` is only called for the
      positions of `currentCards.slice(0, 6)`, so `revealed[6]` is never
      set and the click is ignored although card 0 is the nearest. */
  lemma ClickIndexAsWrittenMissesTop(angle: real, revealed: map<int, bool>)
    requires 330.0 <= angle < 360.0
    requires forall k :: k in revealed ==> 0 <= k < Slots
    ensures ClickIndexAsWritten(angle) == Slots
    ensures !IsRevealed(revealed, ClickIndexAsWritten(angle))
  {
  }

  /** The position of the nearest card: the rounded index wrapped back
      into 0..5. */
  function ClickIndex(angle: real): (idx: int)
    requires 0.0 <= angle < 360.0
    ensures 0 <= idx < Slots
    ensures idx == 0 ==> angle <= 30.0 || 330.0 <= angle
    ensures idx > 0 ==> -30.0 <= angle - 60.0 * idx as real <= 30.0
  {
    ClickIndexAsWritten(angle) % Slots
  }

  /** Away from the last thirty degrees the wrap changes nothing. */
  lemma ClickIndexAgreesBelowTop(angle: real)
    requires 0.0 <= angle < 330.0
    ensures ClickIndex(angle) == ClickIndexAsWritten(angle) < Slots
  {
  }

  /** `Math.min(10, Math.max(0, x))`, taken on the rounded value (for
      integer bounds, clamping and rounding commute). */
  function Clamp(raw: int): (v: int)
    ensures 0 <= v <= MaxScore
    ensures 0 <= raw <= MaxScore ==> v == raw
    ensures raw < 0 ==> v == 0
    ensures raw > MaxScore ==> v == MaxScore
  {
    if raw < 0 then 0 else if raw > MaxScore then MaxScore else raw
  }

  // ---------------------------------------------------------------------
  // Derived values
  // ---------------------------------------------------------------------

  /** `labels`: the custom keywords in the custom mode, the defaults otherwise. */
  function Labels(custom: bool, customKeywords: seq<string>): (ls: seq<string>)
    ensures custom ==> ls == customKeywords
    ensures !custom ==> ls == DefaultLabels
  {
    if custom then customKeywords else DefaultLabels
  }

  /** One entry of `radarData`. */
  datatype RadarPoint = RadarPoint(subject: string, value: int, fullMark: int)

  /** `label || `关键词 ${i + 1}`` */
  function Subject(name: string, i: nat): (s: string)
    ensures name != "" ==> s == name
    ensures s != ""
  {
    if name == "" then "关键词 " + NatToString(i + 1) else name
  }

  /** `radarData`: one point per label; a position counts only once it has
      been scored. */
  function RadarData(labels: seq<string>, scores: seq<int>, scored: set<int>): (r: seq<RadarPoint>)
    requires |labels| <= |scores|
    ensures |r| == |labels|
    ensures forall i :: 0 <= i < |r| ==> r[i].fullMark == MaxScore
    ensures forall i :: 0 <= i < |r| ==> r[i].value == (if i in scored then scores[i] else 0)
    ensures forall i :: 0 <= i < |r| && labels[i] != "" ==> r[i].subject == labels[i]
  {
    seq(|labels|, i requires 0 <= i < |labels| =>
      RadarPoint(Subject(labels[i], i), if i in scored then scores[i] else 0, MaxScore))
  }

  /** An empty label is shown as a numbered keyword, and distinct positions
      get distinct placeholders. */
  lemma EmptyLabelSubject(name: string, i: nat, j: nat)
    requires name == ""
    ensures Subject(name, i) == "关键词 " + NatToString(i + 1)
    ensures i != j ==> Subject(name, i) != Subject(name, j)
  {
    var p := "关键词 ";
    if Subject(name, i) == Subject(name, j) {
      assert (p + NatToString(i + 1))[|p|..] == NatToString(i + 1);
      assert (p + NatToString(j + 1))[|p|..] == NatToString(j + 1);
      NatToStringInjective(i + 1, j + 1);
    }
  }

  /** `allScored` */
  predicate AllScored(scored: set<int>)
  {
    |scored| == Slots
  }

  /** The colour of a scored position's dot. */
  datatype DotColor = Red | Yellow | Green

  /** The `dot` renderer: no dot for an unscored position, otherwise green
      from 7, yellow from 5, red below. */
  function Dot(scores: seq<int>, scored: set<int>, index: int): (c: Option<DotColor>)
    requires 0 <= index < |scores|
    ensures c.None? <==> index !in scored
    ensures c == Some(Green) <==> index in scored && scores[index] >= 7
    ensures c == Some(Yellow) <==> index in scored && 5 <= scores[index] < 7
    ensures c == Some(Red) <==> index in scored && scores[index] < 5
  {
    if index !in scored then None
    else if scores[index] >= 7 then Some(Green)
    else if scores[index] >= 5 then Some(Yellow)
    else Some(Red)
  }

  /** The text of the label under a card: the label, or a fallback when it
      is empty. */
  function SlotLabel(custom: bool, customKeywords: seq<string>, idx: int): (s: string)
    requires 0 <= idx < Slots && |customKeywords| == Slots
    ensures s != ""
    ensures custom && customKeywords[idx] != "" ==> s == customKeywords[idx]
    ensures custom && customKeywords[idx] == "" ==> s == "关键词"
    ensures !custom ==> s == DefaultLabels[idx]
  {
    var name := Labels(custom, customKeywords)[idx];
    var fallback := if custom then "关键词" else DefaultLabels[idx];
    if name != "" then name else fallback
  }

  /** `s.slice(0, n)` */
  function Prefix(s: string, n: nat): (p: string)
    ensures |p| == if |s| < n then |s| else n
    ensures p == s[..|p|]
  {
    if |s| < n then s else s[..n]
  }

  // ---------------------------------------------------------------------
  // The component's state
  // ---------------------------------------------------------------------

  /** A set of positions in 0..5 has all six exactly when it has six
      elements. */
  lemma FullSet(scored: set<int>)
    requires forall k :: k in scored ==> 0 <= k < Slots
    ensures AllScored(scored) <==> forall k :: 0 <= k < Slots ==> k in scored
  {
    BoundedSetCard(scored, Slots);
    if forall k :: 0 <= k < Slots ==> k in scored {
      assert scored == {0, 1, 2, 3, 4, 5};
    }
  }

  /** A set of positions below `n` has at most `n` elements, and has `n`
      only when it holds every position. */
  lemma {:induction false} BoundedSetCard(s: set<int>, n: nat)
    requires forall k :: k in s ==> 0 <= k < n
    ensures |s| <= n
    ensures |s| == n ==> forall k :: 0 <= k < n ==> k in s
  {
    if n == 0 {
      assert forall x :: x !in s;
      assert s == {};
    } else {
      var rest := s - {n - 1};
      BoundedSetCard(rest, n - 1);
      if n - 1 in s {
        assert s == rest + {n - 1};
      } else {
        assert s == rest;
      }
    }
  }

  class Wheel {
    const custom: bool
    var editingIndex: Option<int>
    var scores: seq<int>
    var scoredIndices: set<int>
    var customKeywords: seq<string>

    /** Six scores in 0..10, six keywords, scored positions among 0..5. */
    predicate Valid()
      reads this
    {
      |scores| == Slots && |customKeywords| == Slots
      && (forall i :: 0 <= i < Slots ==> 0 <= scores[i] <= MaxScore)
      && (forall k :: k in scoredIndices ==> 0 <= k < Slots)
    }

    constructor (mode: string)
      ensures custom <==> mode == "balance-wheel-custom"
      ensures editingIndex == None && scores == [0, 0, 0, 0, 0, 0] && scoredIndices == {}
      ensures customKeywords == ["", "", "", "", "", ""]
      ensures Valid()
    {
      custom := mode == "balance-wheel-custom";
      editingIndex := None;
      scores := [0, 0, 0, 0, 0, 0];
      scoredIndices := {};
      customKeywords := ["", "", "", "", "", ""];
    }

    function Radar(): (r: seq<RadarPoint>)
      requires Valid()
      reads this
      ensures |r| == Slots
      ensures forall i :: 0 <= i < Slots ==> r[i].value == (if i in scoredIndices then scores[i] else 0)
      ensures forall i :: 0 <= i < Slots ==> 0 <= r[i].value <= r[i].fullMark
    {
      RadarData(Labels(custom, customKeywords), scores, scoredIndices)
    }

    /** The body of the click handler once the position is known: a score
        lands only on a revealed position, replacing that position's score
        and marking it scored. The keys of `revealed` are card positions
        0..5, the only ones the spread's cards can reveal. */
    method Score(idx: int, raw: int, revealed: map<int, bool>)
      requires Valid() && 0 <= idx
      requires forall k :: k in revealed ==> 0 <= k < Slots
      modifies this
      ensures Valid()
      ensures IsRevealed(revealed, idx) ==>
        idx < Slots && scores == old(scores)[idx := Clamp(raw)] && scoredIndices == old(scoredIndices) + {idx}
      ensures !IsRevealed(revealed, idx) ==>
        scores == old(scores) && scoredIndices == old(scoredIndices)
      ensures customKeywords == old(customKeywords) && editingIndex == old(editingIndex)
    {
      var val := if raw < 0 then 0 else if raw > MaxScore then MaxScore else raw;
      if idx in revealed && revealed[idx] {
        var newScores := scores;
        newScores := newScores[idx := val];
        scores := newScores;
        scoredIndices := scoredIndices + {idx};
      }
    }

    /** The click handler as written: the position is
        `Math.round((angle / 60) % 6)`, so a click in the last thirty
        degrees before the top asks for position 6 and changes nothing. */
    method Click(angle: real, raw: int, revealed: map<int, bool>)
      requires Valid() && 0.0 <= angle < 360.0
      requires forall k :: k in revealed ==> 0 <= k < Slots
      modifies this
      ensures Valid()
      ensures IsRevealed(revealed, ClickIndexAsWritten(angle)) ==>
        ClickIndexAsWritten(angle) < Slots
        && scores == old(scores)[ClickIndexAsWritten(angle) := Clamp(raw)]
        && scoredIndices == old(scoredIndices) + {ClickIndexAsWritten(angle)}
      ensures !IsRevealed(revealed, ClickIndexAsWritten(angle)) ==>
        scores == old(scores) && scoredIndices == old(scoredIndices)
      ensures 330.0 <= angle ==> scores == old(scores) && scoredIndices == old(scoredIndices)
      ensures customKeywords == old(customKeywords) && editingIndex == old(editingIndex)
    {
      var idx := ClickIndexAsWritten(angle);
      if 330.0 <= angle {
        ClickIndexAsWrittenMissesTop(angle, revealed);
      }
      Score(idx, raw, revealed);
    }

    /** The click handler with the position wrapped into 0..5, so that
        the score lands on the nearest card. */
    method ClickCorrected(angle: real, raw: int, revealed: map<int, bool>)
      requires Valid() && 0.0 <= angle < 360.0
      requires forall k :: k in revealed ==> 0 <= k < Slots
      modifies this
      ensures Valid()
      ensures IsRevealed(revealed, ClickIndex(angle)) ==>
        scores == old(scores)[ClickIndex(angle) := Clamp(raw)]
        && scoredIndices == old(scoredIndices) + {ClickIndex(angle)}
      ensures !IsRevealed(revealed, ClickIndex(angle)) ==>
        scores == old(scores) && scoredIndices == old(scoredIndices)
      ensures customKeywords == old(customKeywords) && editingIndex == old(editingIndex)
    {
      Score(ClickIndex(angle), raw, revealed);
    }

    /** Double-clicking a label starts editing it. */
    method StartEdit(idx: int)
      modifies this
      ensures editingIndex == Some(idx)
      ensures scores == old(scores) && scoredIndices == old(scoredIndices)
      ensures customKeywords == old(customKeywords)
    {
      editingIndex := Some(idx);
    }

    /** Leaving the input, or pressing Enter in it, ends the edit; other
        keys leave it open. */
    method KeyDown(key: string)
      modifies this
      ensures key == "Enter" ==> editingIndex == None
      ensures key != "Enter" ==> editingIndex == old(editingIndex)
      ensures scores == old(scores) && scoredIndices == old(scoredIndices)
      ensures customKeywords == old(customKeywords)
    {
      if key == "Enter" {
        editingIndex := None;
      }
    }

    method Blur()
      modifies this
      ensures editingIndex == None
      ensures scores == old(scores) && scoredIndices == old(scoredIndices)
      ensures customKeywords == old(customKeywords)
    {
      editingIndex := None;
    }

    /** Typing into the label at `idx` keeps its first four characters. */
    method EditKeyword(idx: int, text: string)
      requires Valid() && 0 <= idx < Slots
      modifies this
      ensures Valid()
      ensures customKeywords == old(customKeywords)[idx := Prefix(text, 4)]
      ensures scores == old(scores) && scoredIndices == old(scoredIndices)
      ensures editingIndex == old(editingIndex)
    {
      var newKeywords := customKeywords;
      newKeywords := newKeywords[idx := if |text| < 4 then text else text[..4]];
      customKeywords := newKeywords;
    }
  }

  // ---------------------------------------------------------------------
  // Properties across operations
  // ---------------------------------------------------------------------

  /** A score landing at `idx` shows at `idx` of the radar and nowhere else. */
  lemma RadarAfterScore(labels: seq<string>, scores: seq<int>, scored: set<int>, idx: int, v: int)
    requires |labels| <= |scores| && 0 <= idx < |scores|
    ensures var after := RadarData(labels, scores[idx := v], scored + {idx});
      && (idx < |labels| ==> after[idx].value == v)
      && forall i :: 0 <= i < |labels| && i != idx ==> after[i].value == RadarData(labels, scores, scored)[i].value
  {
  }

  /** Radar values stay within the chart's range. */
  lemma RadarInRange(labels: seq<string>, scores: seq<int>, scored: set<int>)
    requires |labels| <= |scores|
    requires forall i :: 0 <= i < |scores| ==> 0 <= scores[i] <= MaxScore
    ensures forall p :: p in RadarData(labels, scores, scored) ==> 0 <= p.value <= p.fullMark
  {
    var r := RadarData(labels, scores, scored);
    forall p | p in r ensures 0 <= p.value <= p.fullMark {
      var i :| 0 <= i < |r| && r[i] == p;
    }
  }

  /** In the fixed-label mode an edit is invisible: the shown labels stay
      the six defaults. */
  lemma EditInvisibleWithoutCustom(customKeywords: seq<string>, idx: int, text: string)
    requires 0 <= idx < |customKeywords|
    ensures Labels(false, customKeywords[idx := Prefix(text, 4)]) == Labels(false, customKeywords)
  {
  }

  /** Two clicks on the same revealed position: the second score
      replaces the first, and the position is scored once. */
  method ScoreTwice(w: Wheel, idx: int, a: int, b: int, revealed: map<int, bool>)
    requires w.Valid() && 0 <= idx
    requires forall k :: k in revealed ==> 0 <= k < Slots
    modifies w
    ensures w.Valid()
    ensures IsRevealed(revealed, idx) ==>
      w.scores == old(w.scores)[idx := Clamp(b)] && w.scoredIndices == old(w.scoredIndices) + {idx}
    ensures !IsRevealed(revealed, idx) ==>
      w.scores == old(w.scores) && w.scoredIndices == old(w.scoredIndices)
  {
    w.Score(idx, a, revealed);
    w.Score(idx, b, revealed);
  }
}
