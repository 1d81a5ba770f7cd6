/** The API contract of shared/routes.ts: the accepted draw modes and
    `buildUrl`, which fills `:key` placeholders of a path. */
module Routes {
  import opened Wrappers
  import opened Strings
  import opened Schema

  const ListPath := "/api/cards"
  const GetPath := "/api/cards/:id"
  const DrawPath := "/api/draw"

  // ---------------------------------------------------------------------
  // Draw input
  // ---------------------------------------------------------------------

  /** The value the client sends for a mode. */
  function ModeName(m: DrawMode): string
  {
    match m
    case ImageMode => "image"
    case WordMode => "word"
    case PairMode => "pair"
  }

  /** `z.enum(['image', 'word', 'pair'])` on the `mode` field; a missing
      field is rejected like any other value. */
  function ParseDrawMode(mode: Option<string>): (r: Option<DrawMode>)
    ensures r.Some? <==> mode.Some? && mode.value in ["image", "word", "pair"]
    ensures r.Some? ==> ModeName(r.value) == mode.value
  {
    match mode
    case None => None
    case Some(s) =>
      if s == "image" then Some(ImageMode)
      else if s == "word" then Some(WordMode)
      else if s == "pair" then Some(PairMode)
      else None
  }

  /** Every mode the client can name is accepted as itself. */
  lemma ParseModeName(m: DrawMode)
    ensures ParseDrawMode(Some(ModeName(m))) == Some(m)
  {
    match m
    case ImageMode =>
    case WordMode =>
    case PairMode =>
  }

  // ---------------------------------------------------------------------
  // buildUrl
  // ---------------------------------------------------------------------

  /** A parameter value: `string | number` (integers only). */
  datatype ParamValue = Str(s: string) | Num(n: int)

  /** `String(value)` */
  function ValueString(v: ParamValue): string
  {
    match v
    case Str(s) => s
    case Num(n) => IntToString(n)
  }

  predicate NoDollar(s: string)
  {
    forall i :: 0 <= i < |s| ==> s[i] != '$'
  }

  /** The replacement text that `String.prototype.replace` inserts for a
      string pattern (no capture groups): `$$` is `$`, `$&` the match,
      `` $` `` the text before it, `$'` the text after it; any other `$`
      stands for itself. */
  function Substitution(rep: string, matched: string, before: string, after: string): (r: string)
    ensures NoDollar(rep) ==> r == rep
    decreases |rep|
  {
    if rep == [] then []
    else if rep[0] == '$' && |rep| >= 2 && rep[1] == '$' then "$" + Substitution(rep[2..], matched, before, after)
    else if rep[0] == '$' && |rep| >= 2 && rep[1] == '&' then matched + Substitution(rep[2..], matched, before, after)
    else if rep[0] == '$' && |rep| >= 2 && rep[1] == '`' then before + Substitution(rep[2..], matched, before, after)
    else if rep[0] == '$' && |rep| >= 2 && rep[1] == '\'' then after + Substitution(rep[2..], matched, before, after)
    else [rep[0]] + Substitution(rep[1..], matched, before, after)
  }

  /** `s.replace(pat, rep)` with a string pattern: only the first
      occurrence is replaced. */
  function ReplaceFirst(s: string, pat: string, rep: string): (r: string)
    ensures !Contains(s, pat) ==> r == s
    ensures Contains(s, pat) && NoDollar(rep) ==>
      var k := IndexOf(s, pat, 0).value;
      k + |pat| <= |s| && r == s[..k] + rep + s[k + |pat|..]
    ensures Contains(s, pat) && NoDollar(rep) ==> |r| == |s| - |pat| + |rep|
  {
    match IndexOf(s, pat, 0)
    case None => s
    case Some(k) =>
      s[..k] + Substitution(rep, pat, s[..k], s[k + |pat|..]) + s[k + |pat|..]
  }

  /** One step of the `forEach`: replace `:key` if the url includes it. */
  function ApplyParam(url: string, key: string, value: ParamValue): (r: string)
    ensures !Contains(url, ":" + key) ==> r == url
    ensures Contains(url, ":" + key) && NoDollar(ValueString(value)) ==>
      |r| == |url| - |key| - 1 + |ValueString(value)|
  {
    var pat := ":" + key;
    if Contains(url, pat) then ReplaceFirst(url, pat, ValueString(value)) else url
  }

  /** The entries applied in order, each to the result of the ones before. */
  function ApplyParams(url: string, entries: seq<(string, ParamValue)>): (r: string)
    ensures (forall i :: 0 <= i < |entries| ==> !Contains(url, ":" + entries[i].0)) ==> r == url
  {
    if entries == [] then url
    else
      var last := entries[|entries| - 1];
      ApplyParam(ApplyParams(url, entries[..|entries| - 1]), last.0, last.1)
  }

  /** `buildUrl(path, params?)`; `params` is given as its entries, in the
      order `Object.entries` lists them. */
  method BuildUrl(path: string, params: Option<seq<(string, ParamValue)>>) returns (url: string)
    ensures params.None? ==> url == path
    ensures params.Some? ==> url == ApplyParams(path, params.value)
  {
    url := path;
    if params.Some? {
      var entries := params.value;
      var i := 0;
      while i < |entries|
        invariant 0 <= i <= |entries|
        invariant url == ApplyParams(path, entries[..i])
      {
        var (key, value) := entries[i];
        assert entries[..i + 1][..i] == entries[..i];
        if Contains(url, ":" + key) {
          url := ReplaceFirst(url, ":" + key, ValueString(value));
        }
        i := i + 1;
      }
      assert entries[..|entries|] == entries;
    }
  }

  // ---------------------------------------------------------------------
  // Properties of buildUrl
  // ---------------------------------------------------------------------

  /** A key whose `:key` does not occur leaves the url as it is. */
  lemma ApplyParamAbsent(url: string, key: string, value: ParamValue)
    requires forall k :: !OccursAt(url, ":" + key, k)
    ensures ApplyParam(url, key, value) == url
  {
    ContainsIff(url, ":" + key);
  }

  /** When `:key` occurs, exactly its first occurrence is replaced by
      `String(value)` (for a value without `$`) and the rest is kept. */
  lemma ApplyParamPresent(url: string, key: string, value: ParamValue, k: nat)
    requires OccursAt(url, ":" + key, k)
    requires forall j :: 0 <= j < k ==> !OccursAt(url, ":" + key, j)
    requires NoDollar(ValueString(value))
    ensures ApplyParam(url, key, value) == url[..k] + ValueString(value) + url[k + |key| + 1..]
  {
    IndexOfFirst(url, ":" + key, k);
  }

  /** Applying a list of entries is applying the first one, then the rest. */
  lemma {:induction false} ApplyParamsFront(url: string, e: (string, ParamValue), rest: seq<(string, ParamValue)>)
    ensures ApplyParams(url, [e] + rest) == ApplyParams(ApplyParam(url, e.0, e.1), rest)
  {
    if rest == [] {
      assert ([e] + rest)[..0] == [];
    } else {
      var es := [e] + rest;
      assert es[..|es| - 1] == [e] + rest[..|rest| - 1];
      ApplyParamsFront(url, e, rest[..|rest| - 1]);
    }
  }

  /** A number contains no `$`, so it is inserted verbatim. */
  lemma NumberHasNoDollar(n: int)
    ensures NoDollar(ValueString(Num(n)))
  {
    var r := IntToString(n);
    if n >= 0 {
      assert DigitsOnly(r);
    } else {
      assert DigitsOnly(r[1..]);
      forall i | 0 <= i < |r| ensures r[i] != '$' {
        if i > 0 { assert r[i] == r[1..][i - 1]; }
      }
    }
  }

  /** The card page's url: `/api/cards/` followed by the decimal id. */
  lemma GetCardUrl(id: int)
    ensures ApplyParams(GetPath, [("id", Num(id))]) == "/api/cards/" + IntToString(id)
  {
    assert [("id", Num(id))][..0] == [];
    var url := GetPath;
    assert OccursAt(url, ":id", 11);
    forall j | 0 <= j < 11 ensures !OccursAt(url, ":id", j) {
      assert url[j] != ':';
    }
    NumberHasNoDollar(id);
    ApplyParamPresent(url, "id", Num(id), 11);
  }

  /** Matching is by plain substring: the key `id` also matches the start
      of a `:idx` placeholder. */
  lemma PlainSubstringMatch()
    ensures ApplyParam("/a/:idx", "id", Num(7)) == "/a/7x"
  {
    var url := "/a/:idx";
    assert OccursAt(url, ":id", 3);
    forall j | 0 <= j < 3 ensures !OccursAt(url, ":id", j) {
      assert url[j] != ':';
    }
    NumberHasNoDollar(7);
    ApplyParamPresent(url, "id", Num(7), 3);
  }

  /** A string value `$&` inserts the matched placeholder again, so the url
      comes back unchanged. */
  lemma DollarPatternExpands()
    ensures ApplyParam("/a/:id", "id", Str("$&")) == "/a/:id"
  {
    var url := "/a/:id";
    assert OccursAt(url, ":id", 3);
    forall j | 0 <= j < 3 ensures !OccursAt(url, ":id", j) {
      assert url[j] != ':';
    }
    IndexOfFirst(url, ":id", 3);
  }
}
