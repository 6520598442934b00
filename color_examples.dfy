/** Worked cases: specs and the values and escape sequences they give,
    including the ones the comment above `Color::colorize` lists. */
module ColorExamples {
  import opened Wrappers
  import opened Text
  import opened ColorTable
  import opened ColorBits
  import opened ColorState
  import opened ColorSpec
  import opened ColorRender
  import opened ColorRoundTrip

  /** A word the constructor does not split further. */
  predicate SimpleWord(w: string)
  {
    w != "" && ' ' !in w && '_' !in w
  }

  lemma WordsOne(a: string)
    requires SimpleWord(a)
    ensures Words(a) == [a]
  {
    ReplaceAbsent(a, '_', ' ');
  }

  lemma WordsTwo(a: string, b: string)
    requires SimpleWord(a) && SimpleWord(b)
    ensures Words(a + " " + b) == [a, b]
  {
    var s := a + " " + b;
    assert '_' !in s;
    ReplaceAbsent(s, '_', ' ');
    FieldsCons(a, b, ' ');
  }

  /** A table name understood in the foreground position. */
  lemma StepName(st: ParseState, i: nat)
    requires 0 < i < |AllColors|
    ensures Step(st, AllColors[i].name) == Ok(Apply(st, Palette(i, false)))
  {
    NamePlain(i);
    PlainLower(AllColors[i].name);
    ClassifyTableName(i);
  }

  lemma FoldTwo(a: string, b: string, st: ParseState)
    ensures Fold([a, b], st) == match Step(st, a)
      case Err(e) => Err(e)
      case Ok(s) => Fold([b], s)
  {
    assert [a, b][1..] == [b];
  }

  lemma NameSimple(i: nat)
    requires 0 < i < |AllColors|
    ensures SimpleWord(AllColors[i].name)
  {
    TableShape();
    NamePlain(i);
    PlainLower(AllColors[i].name);
  }

  /** Two table names in a row OR their positions into the foreground. */
  lemma ParseTwoNames(i: nat, j: nat)
    requires 0 < i < |AllColors| && 0 < j < |AllColors|
    ensures Parse(AllColors[i].name + " " + AllColors[j].name) == Ok(Default.(noFg := false, fg := OrByte(i, j)))
  {
    var a, b := AllColors[i].name, AllColors[j].name;
    NameSimple(i);
    NameSimple(j);
    WordsTwo(a, b);
    FoldTwo(a, b, Initial);
    StepName(Initial, i);
    var s1 := Apply(Initial, Palette(i, false));
    assert s1 == ParseState(Default.(noFg := false, fg := i), false);
    StepName(s1, j);
    assert [b][1..] == [];
    assert Fold([b], s1) == Ok(Apply(s1, Palette(j, false)));
  }

  /** A single table name is that row's foreground, and `fg` names it back. */
  lemma ParseOneName(i: nat)
    requires 0 < i < |AllColors|
    ensures Parse(AllColors[i].name) == Ok(Default.(noFg := false, fg := i))
    ensures FgName(Default.(noFg := false, fg := i)) == AllColors[i].name
  {
    var a := AllColors[i].name;
    NameSimple(i);
    WordsOne(a);
    StepName(Initial, i);
    assert [a][1..] == [];
    assert Fold([a], Initial) == Ok(Apply(Initial, Palette(i, false)));
  }

  /** `red blue` ORs the two table positions, 2 and 5, into the foreground:
      the result is 7, the position of cyan. */
  lemma ParseRedBlue()
    ensures Parse("red blue") == Ok(Default.(noFg := false, fg := 7))
  {
    ParseTwoNames(2, 5);
    assert AllColors[2].name + " " + AllColors[5].name == "red blue";
    assert Or(2, 5) == 7;
  }

  /** `white red` gives foreground 8 OR 2 = 10, an index no table row has:
      its description has no foreground name. */
  lemma ParseWhiteRed()
    ensures Parse("white red") == Ok(Default.(noFg := false, fg := 10))
  {
    ParseTwoNames(8, 2);
    assert AllColors[8].name + " " + AllColors[2].name == "white red";
    assert Or(8, 2) == 10;
  }

  /** Foreground 10 has no table name, so it is described as nothing. */
  lemma DescribeTen()
    ensures Describe(Default.(noFg := false, fg := 10)) == ""
  {
    var v := Default.(noFg := false, fg := 10);
    assert FgName(v) == "";
    assert DescribeFront(v) == "";
  }

  /** Bright is described only as part of a background, so a bright
      foreground-only value is described as its plain colour, and reading
      that description back loses the bright flag: the describe-then-parse
      round trip needs `ColorRoundTrip.Canonical`. */
  lemma BrightForegroundNotRoundTrip()
    ensures Describe(Default.(noFg := false, fg := 2, bright := true)) == "red"
    ensures Parse(Describe(Default.(noFg := false, fg := 2, bright := true)))
      != Ok(Default.(noFg := false, fg := 2, bright := true))
  {
    var v := Default.(noFg := false, fg := 2, bright := true);
    assert FgName(v) == "red";
    assert DescribeFront(v) == "red";
    ParseRed();
  }

  /** `red` is foreground 2, rendered as parameter 29 + 2 = 31. */
  lemma RenderRed(input: string)
    ensures Parse("red") == Ok(Default.(noFg := false, fg := 2))
    ensures Render(Default.(noFg := false, fg := 2), input) == Csi + "31m" + input + Reset
  {
    ParseRed();
    var v := Default.(noFg := false, fg := 2);
    assert NatToString(31) == "31";
    assert Params16(v) == ["31"];
  }

  lemma ParseRed()
    ensures Parse("red") == Ok(Default.(noFg := false, fg := 2))
  {
    NameSimple(2);
    assert AllColors[2].name == "red";
    WordsOne("red");
    StepName(Initial, 2);
    assert ["red"][1..] == [];
    assert Fold(["red"], Initial) == Ok(Apply(Initial, Palette(2, false)));
  }

  /** A keyword read anywhere in a spec. */
  lemma StepKeyword(st: ParseState, w: string)
    requires w in Keywords
    ensures Step(st, w) == Ok(Apply(st, Classify(w)))
  {
    LowerCaseOfLower(w);
    ClassifyKeyword(w);
  }

  /** `bold red` is foreground 2 with bold, and renders as `1;31`: bold is
      its own parameter, not a bright foreground (91). */
  lemma RenderBoldRed(input: string)
    ensures Parse("bold red") == Ok(Default.(noFg := false, fg := 2, bold := true))
    ensures Render(Default.(noFg := false, fg := 2, bold := true), input) == Csi + "1;31m" + input + Reset
  {
    ParseBoldRed();
    RenderBoldRedCodes(input);
  }

  lemma RenderBoldRedCodes(input: string)
    ensures Render(Default.(noFg := false, fg := 2, bold := true), input) == Csi + "1;31m" + input + Reset
  {
    var v := Default.(noFg := false, fg := 2, bold := true);
    assert NatToString(31) == "31";
    assert Params16(v) == ["1", "31"];
  }

  lemma ParseBoldRed()
    ensures Parse("bold red") == Ok(Default.(noFg := false, fg := 2, bold := true))
  {
    var a, b := "bold", AllColors[2].name;
    assert b == "red";
    NameSimple(2);
    WordsTwo(a, b);
    assert a + " " + b == "bold red";
    FoldTwo(a, b, Initial);
    StepKeyword(Initial, a);
    var s1 := Apply(Initial, BoldWord);
    StepName(s1, 2);
    assert [b][1..] == [];
    assert Fold([b], s1) == Ok(Apply(s1, Palette(2, false)));
  }

  /** `on bright red` is background 2 with bright, and renders as
      background parameter 99 + 2 = 101. */
  lemma RenderOnBrightRed(input: string)
    ensures Parse("on bright red") == Ok(Default.(noBg := false, bg := 2, bright := true))
    ensures Render(Default.(noBg := false, bg := 2, bright := true), input) == Csi + "101m" + input + Reset
  {
    ParseOnBrightRed();
    RenderBrightRedBackground(input);
  }

  lemma RenderBrightRedBackground(input: string)
    ensures Render(Default.(noBg := false, bg := 2, bright := true), input) == Csi + "101m" + input + Reset
  {
    var v := Default.(noBg := false, bg := 2, bright := true);
    assert NatToString(101) == "101";
    assert Params16(v) == ["101"];
  }

  lemma WordsThree(a: string, b: string, c: string)
    requires SimpleWord(a) && SimpleWord(b) && SimpleWord(c)
    ensures Words(a + " " + b + " " + c) == [a, b, c]
  {
    var s := a + " " + b + " " + c;
    assert '_' !in s;
    ReplaceAbsent(s, '_', ' ');
    assert s == a + [' '] + (b + " " + c);
    FieldsCons(a, b + " " + c, ' ');
    FieldsCons(b, c, ' ');
  }

  lemma ParseOnBrightRed()
    ensures Parse("on bright red") == Ok(Default.(noBg := false, bg := 2, bright := true))
  {
    var a, b, c := "on", "bright", AllColors[2].name;
    assert c == "red";
    NameSimple(2);
    WordsThree(a, b, c);
    assert a + " " + b + " " + c == "on bright red";
    FoldOnBrightRed();
  }

  lemma FoldOnBrightRed()
    ensures Fold(["on", "bright", AllColors[2].name], Initial)
      == Ok(ParseState(Default.(noBg := false, bg := 2, bright := true), true))
  {
    var a, b, c := "on", "bright", AllColors[2].name;
    var ws := [a, b, c];
    StepKeyword(Initial, a);
    var s1 := Apply(Initial, OnWord);
    assert Fold(ws, Initial) == Fold([b, c], s1) by { assert ws[1..] == [b, c]; }
    StepKeyword(s1, b);
    var s2 := Apply(s1, BrightWord);
    FoldTwo(b, c, s1);
    StepName(s2, 2);
    assert [c][1..] == [];
    assert Fold([c], s2) == Ok(Apply(s2, Palette(2, false)));
  }

  /** `color200` selects 256-colour mode with foreground 200. */
  lemma ParseColor200()
    ensures Parse("color200") == Ok(Default.(noFg := false, fg := 200, mode256 := true))
  {
    var w := "color" + NatToString(200);
    assert NatToString(200) == "200";
    assert w == "color200";
    ClassifyColorWord(200);
    ColorWordPlain(200);
    PlainLower(w);
    WordsOne(w);
    assert [w][1..] == [];
    assert Fold([w], Initial) == Ok(Apply(Initial, Palette(200, true)));
  }

  /** It is rendered as one `38;5;200` sequence. */
  lemma RenderColor200(input: string)
    ensures Render(Default.(noFg := false, fg := 200, mode256 := true), input) == Csi + "38;5;200m" + input + Reset
  {
    assert NatToString(200) == "200";
  }

  /** The default value is not the all-zero value, so it still wraps the
      text: in an empty parameter list and the reset. */
  lemma RenderDefault(input: string)
    ensures Render(Default, input) == Csi + "m" + input + Reset
  {
    assert Params16(Default) == [];
  }
}
