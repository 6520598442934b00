/** Describing a colour and parsing the description: for the values the
    description can express, the spec constructor rebuilds the value
    `operator std::string` described. */
module ColorRoundTrip {
  import opened Wrappers
  import opened Text
  import opened ColorTable
  import opened ColorBits
  import opened ColorState
  import opened ColorSpec
  import opened ColorRender

  /** The values a description captures: an absent colour has index 0,
      bright comes with a background (it is described as `on bright`), a
      256-colour value has a colour to carry the mode, and in 16-colour
      mode a foreground has a non-empty table name and a background a table
      row (the empty name of row 0 still reads back after `on`). */
  predicate Canonical(v: Packed)
  {
    && (v.noFg ==> v.fg == 0)
    && (v.noBg ==> v.bg == 0)
    && (v.bright ==> !v.noBg)
    && (v.mode256 ==> !v.noFg || !v.noBg)
    && (!v.mode256 && !v.noFg ==> 1 <= v.fg <= 8)
    && (!v.mode256 && !v.noBg ==> v.bg <= 8)
  }

  /** The words of a description, in the order `operator std::string`
      writes them. */
  function DescribeWords(v: Packed): seq<string>
  {
    FrontWords(v) + (if v.noBg then [] else BackWords(v))
  }

  function FrontWords(v: Packed): seq<string>
  {
    Optional(v.bold, "bold") + Optional(v.underline, "underline") + Optional(!v.noFg, FgName(v))
  }

  function BackWords(v: Packed): seq<string>
  {
    ["on"] + Optional(v.bright, "bright") + [BgName(v)]
  }

  function Optional(c: bool, w: string): seq<string>
  {
    if c then [w] else []
  }

  /** Lower-case letters and digits only. */
  predicate Plain(w: string)
  {
    forall i :: 0 <= i < |w| ==> 'a' <= w[i] <= 'z' || IsDigit(w[i])
  }

  // ---------------------------------------------------------------------
  // The words one by one

  lemma PlainLower(w: string)
    requires Plain(w)
    ensures LowerCase(w) == w && ' ' !in w && '_' !in w
  {
    LowerCaseOfLower(w);
  }

  lemma NamePlain(index: int)
    ensures Plain(NameOf(index))
  {
    if 0 <= index < |AllColors| {
      forall i | 0 <= i < |NameOf(index)|
        ensures 'a' <= NameOf(index)[i] <= 'z'
      {
        NameLetters(index, i);
      }
    }
  }

  lemma ColorWordPlain(n: nat)
    ensures Plain("color" + NatToString(n))
  {
  }

  lemma FgNamePlain(v: Packed)
    ensures Plain(FgName(v))
  {
    NamePlain(v.fg);
  }

  lemma BgNamePlain(v: Packed)
    ensures Plain(BgName(v))
  {
    NamePlain(v.bg);
  }

  /** The word `colorN` reads back as palette index N in 256-colour mode. */
  lemma ClassifyColorWord(n: Byte)
    ensures Classify("color" + NatToString(n)) == Palette(n, true)
  {
    var w := "color" + NatToString(n);
    assert w[5..] == NatToString(n);
    AtoiNatToString(n);
    NamesHaveNoDigits(w, 5);
    assert w[0] == 'c';
    assert w !in Keywords;
    assert !IsGreyWord(w) && !IsRgbWord(w) && IsColorWord(w);
    ClassifyColor(w);
  }

  /** A table name reads back as its row's index in 16-colour mode. */
  lemma ClassifyTableName(i: nat)
    requires i < |AllColors|
    ensures Classify(AllColors[i].name) == Palette(i, false)
  {
    FindNameOf(i);
    NameNotKeyword(i);
    ClassifyName(AllColors[i].name);
  }

  /** No table name is a keyword. */
  lemma NameNotKeyword(i: nat)
    requires i < |AllColors|
    ensures AllColors[i].name !in Keywords
  {
    var w := AllColors[i].name;
    if i == 0 { assert w == ""; }
    else if i == 1 { assert w == "black"; }
    else if i == 2 { assert w == "red"; }
    else if i == 3 { assert w == "green"; }
    else if i == 4 { assert w == "yellow"; }
    else if i == 5 { assert w == "blue"; }
    else if i == 6 { assert w == "magenta"; }
    else if i == 7 { assert w == "cyan"; }
    else { assert w == "white"; }
  }

  /** The foreground name of a canonical value reads back as its index. */
  lemma ClassifyFgName(v: Packed)
    requires Canonical(v) && !v.noFg
    ensures Classify(FgName(v)) == Palette(v.fg, v.mode256)
  {
    if v.mode256 {
      ClassifyColorWord(v.fg);
    } else {
      ClassifyTableName(v.fg);
    }
  }

  lemma ClassifyBgName(v: Packed)
    requires Canonical(v) && !v.noBg
    ensures Classify(BgName(v)) == Palette(v.bg, v.mode256)
  {
    if v.mode256 {
      ClassifyColorWord(v.bg);
    } else {
      ClassifyTableName(v.bg);
    }
  }

  // ---------------------------------------------------------------------
  // The description is the words joined by spaces

  /** No word but possibly the last is empty. */
  predicate Leading(ws: seq<string>)
  {
    ws == [] || ws[0] != ""
  }

  /** Adding a word to a description whose first word is not empty is
      joining one more word. */
  lemma AppendJoin(ws: seq<string>, w: string)
    requires Leading(ws)
    ensures AppendWord(Join(ws, ' '), w) == Join(ws + [w], ' ')
  {
    JoinSnoc(ws, w, ' ');
    if ws != [] {
      JoinHead(ws, ' ');
    }
  }

  lemma AppendOptional(ws: seq<string>, c: bool, w: string)
    requires Leading(ws) && w != ""
    ensures (if c then AppendWord(Join(ws, ' '), w) else Join(ws, ' ')) == Join(ws + Optional(c, w), ' ')
    ensures Leading(ws + Optional(c, w))
  {
    if c {
      AppendJoin(ws, w);
    } else {
      assert ws + [] == ws;
    }
  }

  lemma FgNameNonEmpty(v: Packed)
    requires Canonical(v) && !v.noFg
    ensures FgName(v) != ""
  {
    if v.mode256 {
      assert FgName(v)[0] == 'c';
    } else {
      TableShape();
    }
  }

  lemma FrontJoin(v: Packed)
    requires Canonical(v)
    ensures DescribeFront(v) == Join(FrontWords(v), ' ')
    ensures Leading(FrontWords(v))
  {
    AppendOptional([], v.bold, "bold");
    var a := Optional(v.bold, "bold");
    assert [] + a == a;
    AppendOptional(a, v.underline, "underline");
    var au := a + Optional(v.underline, "underline");
    if !v.noFg {
      FgNameNonEmpty(v);
      AppendOptional(au, true, FgName(v));
    } else {
      AppendOptional(au, false, "-");
    }
  }

  lemma BackJoin(v: Packed, ws: seq<string>)
    requires Leading(ws)
    ensures DescribeBack(v, Join(ws, ' ')) == Join(ws + BackWords(v), ' ')
  {
    AppendJoin(ws, "on");
    AppendOptional(ws + ["on"], v.bright, "bright");
    var wb := ws + ["on"] + Optional(v.bright, "bright");
    JoinSnoc(wb, BgName(v), ' ');
    assert wb + [BgName(v)] == ws + BackWords(v);
  }

  lemma DescribeJoin(v: Packed)
    requires Canonical(v)
    ensures Describe(v) == Join(DescribeWords(v), ' ')
  {
    var fw := FrontWords(v);
    FrontJoin(v);
    if !v.noBg {
      BackJoin(v, fw);
      assert Describe(v) == DescribeBack(v, DescribeFront(v));
      assert DescribeWords(v) == fw + BackWords(v);
    } else {
      assert Describe(v) == DescribeFront(v);
      assert DescribeWords(v) == fw;
    }
  }

  lemma DescribeWordsPlain(v: Packed)
    ensures AllPlain(DescribeWords(v))
  {
    var fw := FrontWords(v);
    FrontPlain(v);
    if !v.noBg {
      BackPlain(v);
      PlainConcat(fw, BackWords(v));
    } else {
      assert DescribeWords(v) == fw;
    }
  }

  lemma KeywordsPlain()
    ensures Plain("bold") && Plain("underline") && Plain("on") && Plain("bright")
  {
  }

  lemma FrontPlain(v: Packed)
    ensures AllPlain(FrontWords(v))
  {
    KeywordsPlain();
    FgNamePlain(v);
    PlainWords(v.bold, "bold", v.underline, "underline", !v.noFg, FgName(v));
  }

  lemma BackPlain(v: Packed)
    ensures AllPlain(BackWords(v))
  {
    KeywordsPlain();
    BgNamePlain(v);
    PlainWords(true, "on", v.bright, "bright", true, BgName(v));
  }

  predicate AllPlain(ws: seq<string>)
  {
    forall i :: 0 <= i < |ws| ==> Plain(ws[i])
  }

  lemma PlainWords(c0: bool, w0: string, c1: bool, w1: string, c2: bool, w2: string)
    requires Plain(w0) && Plain(w1) && Plain(w2)
    ensures AllPlain(Optional(c0, w0) + Optional(c1, w1) + Optional(c2, w2))
  {
  }

  lemma PlainConcat(a: seq<string>, b: seq<string>)
    requires AllPlain(a) && AllPlain(b)
    ensures AllPlain(a + b)
  {
    var ab := a + b;
    forall i | 0 <= i < |ab|
      ensures Plain(ab[i])
    {
      if i < |a| { assert ab[i] == a[i]; } else { assert ab[i] == b[i - |a|]; }
    }
  }

  /** The constructor splits a canonical description back into its words. */
  lemma WordsOfDescribe(v: Packed)
    requires Canonical(v)
    ensures Words(Describe(v)) == DescribeWords(v)
  {
    var ws := DescribeWords(v);
    DescribeJoin(v);
    DescribeWordsPlain(v);
    forall i | 0 <= i < |ws|
      ensures ' ' !in ws[i] && '_' !in ws[i]
    {
      PlainLower(ws[i]);
    }
    JoinAvoid(ws, ' ', '_');
    ReplaceAbsent(Describe(v), '_', ' ');
    FrontJoin(v);
    assert ws != [""];
    SplitJoin(ws, ' ');
  }

  // ---------------------------------------------------------------------
  // The words rebuild the value

  /** An optional understood word at the front of the words. */
  lemma FoldOptional(c: bool, w: string, rest: seq<string>, st: ParseState)
    requires c ==> LowerCase(w) == w && !Classify(w).Rejected?
    ensures Fold(Optional(c, w) + rest, st) == Fold(rest, if c then Apply(st, Classify(w)) else st)
  {
    if c {
      var ws := [w] + rest;
      assert ws[0] == w && ws[1..] == rest;
    } else {
      assert [] + rest == rest;
    }
  }

  /** The state after the modifiers. */
  function Modifiers(v: Packed): Packed
  {
    Default.(bold := v.bold, underline := v.underline)
  }

  /** The state after the modifiers and the foreground. */
  function Front(v: Packed): Packed
  {
    var p := Modifiers(v);
    if v.noFg then p else p.(fg := v.fg, noFg := false, mode256 := v.mode256)
  }

  lemma FoldModifiers(v: Packed, rest: seq<string>)
    ensures Fold(Optional(v.bold, "bold") + (Optional(v.underline, "underline") + rest), Initial)
      == Fold(rest, ParseState(Modifiers(v), false))
  {
    ClassifyKeyword("bold");
    ClassifyKeyword("underline");
    PlainLower("bold");
    PlainLower("underline");
    FoldOptional(v.bold, "bold", Optional(v.underline, "underline") + rest, Initial);
    var s1 := if v.bold then Apply(Initial, BoldWord) else Initial;
    assert s1 == ParseState(Default.(bold := v.bold), false);
    FoldOptional(v.underline, "underline", rest, s1);
  }

  lemma FoldForeground(v: Packed, rest: seq<string>)
    requires Canonical(v)
    ensures Fold(Optional(!v.noFg, FgName(v)) + rest, ParseState(Modifiers(v), false))
      == Fold(rest, ParseState(Front(v), false))
  {
    if !v.noFg {
      ClassifyFgName(v);
      FgNamePlain(v);
      PlainLower(FgName(v));
    }
    FoldOptional(!v.noFg, FgName(v), rest, ParseState(Modifiers(v), false));
  }

  lemma FoldFront(v: Packed, rest: seq<string>)
    requires Canonical(v)
    ensures Fold(FrontWords(v) + rest, Initial) == Fold(rest, ParseState(Front(v), false))
  {
    var f := Optional(!v.noFg, FgName(v));
    Regroup(Optional(v.bold, "bold"), Optional(v.underline, "underline"), f, rest);
    FoldModifiers(v, f + rest);
    FoldForeground(v, rest);
  }

  lemma Regroup<T>(a: seq<T>, b: seq<T>, c: seq<T>, d: seq<T>)
    ensures a + b + c + d == a + (b + (c + d))
  {
  }

  /** The state after `on` and an optional `bright`. */
  function OnBright(v: Packed): ParseState
  {
    var p := Front(v);
    ParseState(if v.bright then p.(bright := true, mode256 := false) else p, true)
  }

  lemma FoldOnBright(v: Packed, rest: seq<string>)
    ensures Fold(["on"] + (Optional(v.bright, "bright") + rest), ParseState(Front(v), false))
      == Fold(rest, OnBright(v))
  {
    ClassifyKeyword("on");
    ClassifyKeyword("bright");
    PlainLower("on");
    PlainLower("bright");
    FoldOptional(true, "on", Optional(v.bright, "bright") + rest, ParseState(Front(v), false));
    FoldOptional(v.bright, "bright", rest, ParseState(Front(v), true));
  }

  lemma FoldBackground(v: Packed)
    requires Canonical(v) && !v.noBg
    ensures Fold([BgName(v)], OnBright(v)) == Ok(ParseState(v, true))
  {
    ClassifyBgName(v);
    BgNamePlain(v);
    PlainLower(BgName(v));
    FoldOptional(true, BgName(v), [], OnBright(v));
    assert Apply(OnBright(v), Palette(v.bg, v.mode256)).value == v;
  }

  /** The words of a canonical description rebuild it. */
  lemma FoldDescribe(v: Packed)
    requires Canonical(v)
    ensures Fold(DescribeWords(v), Initial) == Ok(ParseState(v, !v.noBg))
  {
    if !v.noBg {
      var b := Optional(v.bright, "bright");
      FoldFront(v, BackWords(v));
      assert BackWords(v) == ["on"] + (b + [BgName(v)]);
      FoldOnBright(v, [BgName(v)]);
      FoldBackground(v);
    } else {
      FoldFront(v, []);
      assert DescribeWords(v) == FrontWords(v) + [];
      assert Front(v) == v;
    }
  }

  /** Parsing the description of a canonical value gives the value back. */
  lemma ParseDescribe(v: Packed)
    requires Canonical(v)
    ensures Parse(Describe(v)) == Ok(v)
  {
    WordsOfDescribe(v);
    FoldDescribe(v);
  }
}
