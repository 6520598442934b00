/** `class Color` of src/Color.cpp: one packed value and the operations
    on it. The constructors and `blend` assign `value` in the source's
    stages; the read-only operations are proved equal to the functions of
    the other modules. */
module ColorClass {
  import opened Wrappers
  import opened Text
  import opened ColorTable
  import opened ColorBits
  import opened ColorState
  import opened ColorSpec
  import ColorBlend
  import opened ColorRender
  import ColorRoundTrip

  // ---------------------------------------------------------------------
  // The integer constructor and `operator int`

  /** `Color (unsigned int c)` as written: `c` masked to every field but
      the two "no colour" flags, so both colours come out present. */
  function FromUnsigned(c: nat): (p: Packed)
    ensures Pack(p) == c % 0x10_0000
    ensures !p.noFg && !p.noBg
  {
    var p := Unpack(c);
    PackUnpack(c);
    PackLow20(p);
    ModMod(c);
    p.(noFg := false, noBg := false)
  }

  lemma ModMod(c: nat)
    ensures (c % 0x40_0000) % 0x10_0000 == c % 0x10_0000
  {
    var q := c / 0x40_0000;
    var r := c % 0x40_0000;
    assert c == r + 0x10_0000 * (4 * q);
    ModPlus20(r % 0x10_0000, 4 * q + r / 0x10_0000);
    assert c == r % 0x10_0000 + 0x10_0000 * (4 * q + r / 0x10_0000);
  }

  /** Wrapping the integer of a value built from an integer gives that
      value again. */
  lemma UnsignedIdempotent(c: nat)
    ensures FromUnsigned(Pack(FromUnsigned(c))) == FromUnsigned(c)
  {
    UnpackPack(FromUnsigned(c));
  }

  /** A value's integer read back by the integer constructor loses only
      the "no colour" flags. */
  lemma UnsignedOfPack(p: Packed)
    ensures FromUnsigned(Pack(p)) == p.(noFg := false, noBg := false)
  {
    UnpackPack(p);
  }

  /** So the default value, which has no colours, comes back as the
      all-zero value: `Color (int (Color ()))` colorizes nothing, where
      `Color ()` wraps the text in escape sequences. */
  lemma UnsignedLosesAbsence(input: string)
    ensures FromUnsigned(Pack(Default)) == Zero
    ensures Render(FromUnsigned(Pack(Default)), input) == input
    ensures Render(Default, input) != input
  {
    UnsignedOfPack(Default);
    RenderIdentity(Default, input);
  }

  /** The integer constructor with the "no colour" flags kept: every field
      is read back. */
  function FromInt(c: nat): (p: Packed)
    ensures Pack(p) == c % 0x40_0000
  {
    PackUnpack(c);
    Unpack(c)
  }

  /** With the flags kept, a value survives the trip through its integer. */
  lemma IntRoundTrip(p: Packed)
    ensures FromInt(Pack(p)) == p
  {
    UnpackPack(p);
  }

  // ---------------------------------------------------------------------
  // The component constructor

  /** `Color (fg, bg, underline, bold, bright)` as written: the modifiers
      are assigned over the initial "no colour" flags, so both colours are
      present even when given as `nocolor`, and a colour's index is its
      table row. */
  function Components(fg: ColorId, bg: ColorId, underline: bool, bold: bool, bright: bool): (p: Packed)
    ensures !p.noFg && !p.noBg && !p.mode256
    ensures p.fg == Ordinal(fg) && p.bg == Ordinal(bg)
    ensures p.underline == underline && p.bold == bold && p.bright == bright
  {
    var p := Packed(0, 0, bright, bold, underline, false, false, false);
    var q := if bg != NoColor then Put(p, true, Ordinal(bg)) else p;
    if fg != NoColor then Put(q, false, Ordinal(fg)) else q
  }

  /** The component constructor as its `nocolor` tests mean it: starting
      from the "no colour" flags, a colour given as `nocolor` stays absent. */
  function ComponentsIntended(fg: ColorId, bg: ColorId, underline: bool, bold: bool, bright: bool): (p: Packed)
    ensures p.noFg == (fg == NoColor) && p.noBg == (bg == NoColor) && !p.mode256
    ensures p.fg == Ordinal(fg) && p.bg == Ordinal(bg)
    ensures p.underline == underline && p.bold == bold && p.bright == bright
  {
    var p := Default.(bright := bright, bold := bold, underline := underline);
    var q := if bg != NoColor then Put(p, true, Ordinal(bg)) else p;
    if fg != NoColor then Put(q, false, Ordinal(fg)) else q
  }

  /** As intended, the description of a component value parses back to
      it (bright is described only with a background). */
  lemma ComponentsIntendedRoundTrip(fg: ColorId, bg: ColorId, underline: bool, bold: bool, bright: bool)
    requires bright ==> bg != NoColor
    ensures Parse(Describe(ComponentsIntended(fg, bg, underline, bold, bright)))
      == Ok(ComponentsIntended(fg, bg, underline, bold, bright))
  {
    var v := ComponentsIntended(fg, bg, underline, bold, bright);
    assert ColorRoundTrip.Canonical(v);
    ColorRoundTrip.ParseDescribe(v);
  }

  /** As written, red on no background is rendered with background
      parameter 39 and described as `red on `; as intended it is plain red. */
  lemma ComponentsNoBackground(input: string)
    ensures Render(Components(Red, NoColor, false, false, false), input) == Csi + "39;31m" + input + Reset
    ensures Describe(Components(Red, NoColor, false, false, false)) == "red on "
    ensures Render(ComponentsIntended(Red, NoColor, false, false, false), input) == Csi + "31m" + input + Reset
    ensures Describe(ComponentsIntended(Red, NoColor, false, false, false)) == "red"
  {
    var w := Components(Red, NoColor, false, false, false);
    var v := ComponentsIntended(Red, NoColor, false, false, false);
    assert w == Packed(2, 0, false, false, false, false, false, false);
    assert v == Packed(2, 0, false, false, false, false, false, true);
    RedOnNothing(input);
  }

  lemma RedOnNothing(input: string)
    ensures var w := Packed(2, 0, false, false, false, false, false, false);
      Render(w, input) == Csi + "39;31m" + input + Reset && Describe(w) == "red on "
    ensures var v := Packed(2, 0, false, false, false, false, false, true);
      Render(v, input) == Csi + "31m" + input + Reset && Describe(v) == "red"
  {
    RenderRedOnNothing(input);
    DescribeRedOnNothing();
    RenderJustRed(input);
    DescribeJustRed();
  }

  lemma RenderRedOnNothing(input: string)
    ensures Render(Packed(2, 0, false, false, false, false, false, false), input) == Csi + "39;31m" + input + Reset
  {
    var w := Packed(2, 0, false, false, false, false, false, false);
    assert NatToString(31) == "31" && NatToString(39) == "39";
    assert Params16(w) == ["39", "31"];
    assert Join(["39", "31"], ';') == "39;31";
  }

  lemma DescribeRedOnNothing()
    ensures Describe(Packed(2, 0, false, false, false, false, false, false)) == "red on "
  {
    var w := Packed(2, 0, false, false, false, false, false, false);
    assert NameOf(2) == "red" && NameOf(0) == "";
    assert FgName(w) == "red" && BgName(w) == "";
    assert DescribeFront(w) == "red";
    assert AppendWord("red", "on") == "red on";
    assert Describe(w) == DescribeBack(w, "red") == "red on" + " " + "";
  }

  lemma RenderJustRed(input: string)
    ensures Render(Packed(2, 0, false, false, false, false, false, true), input) == Csi + "31m" + input + Reset
  {
    var v := Packed(2, 0, false, false, false, false, false, true);
    assert NatToString(31) == "31";
    assert Params16(v) == ["31"];
  }

  lemma DescribeJustRed()
    ensures Describe(Packed(2, 0, false, false, false, false, false, true)) == "red"
  {
    var v := Packed(2, 0, false, false, false, false, false, true);
    assert NameOf(2) == "red";
    assert FgName(v) == "red";
  }

  // ---------------------------------------------------------------------
  // The class

  class Color {
    var value: Packed

    /** `Color ()`: no colours, no modifiers. */
    constructor ()
      ensures value == Default
    {
      value := Default;
    }

    /** `Color (unsigned int c)`: the two tests on the colour bytes only
        clear bits that are already clear, and the masked assignment after
        them decides the value. */
    constructor FromBits(c: nat)
      requires c < 0x1_0000_0000
      ensures value == FromUnsigned(c)
    {
      value := Default;
      new;
      if c % 0x100 == 0 {
        value := value.(fg := 0);
      }
      if (c / 0x100) % 0x100 == 0 {
        value := value.(bg := 0);
      }
      value := FromUnsigned(c);
    }

    /** `Color (fg, bg, underline, bold, bright)`, in the source's stages. */
    constructor FromComponents(fg: ColorId, bg: ColorId, underline: bool, bold: bool, bright: bool)
      ensures value == Components(fg, bg, underline, bold, bright)
    {
      value := Default;
      new;
      value := Packed(0, 0, bright, bold, underline, false, false, false);
      if bg != NoColor {
        value := PutIndex(value, true, Ordinal(bg));
      }
      if fg != NoColor {
        value := PutIndex(value, false, Ordinal(fg));
      }
    }

    /** `Color (const std::string& spec)`: the parsed value, or the message
        thrown, in which case no Color is made. */
    static method FromSpec(spec: string) returns (r: Result<Color, string>)
      ensures r.Ok? <==> Parse(spec).Ok?
      ensures r.Ok? ==> fresh(r.value) && r.value.value == Parse(spec).value
      ensures r.Err? ==> r.error == Parse(spec).error
    {
      var p := ParseSpec(spec);
      if p.Err? {
        return Err(p.error);
      }
      var c := new Color();
      c.value := p.value;
      return Ok(c);
    }

    /** `operator int`: the packed value, below 2^22 and so unchanged by
        the cast; it holds every field. */
    function AsInt(): (r: nat)
      reads this
      ensures r < 0x40_0000
      ensures Unpack(r) == value
    {
      UnpackPack(value);
      Pack(value)
    }

    // -------------------------------------------------------------------
    // blend

    /** The "apply the new background" block: clear the byte, OR in the
        other's, mark it present. With `other` the same object the byte is
        read after it was cleared. */
    method TakeBackground(other: Color)
      modifies this
      ensures other != this ==> value == ColorBlend.OverlayBg(old(value), old(other.value))
      ensures other == this ==> value == ColorBlend.ClearBg(old(value))
    {
      if !other.value.noBg {
        value := value.(bg := 0);
        value := value.(bg := OrByte(value.bg, other.value.bg));
        value := value.(noBg := false);
      }
    }

    /** The "apply the new foreground" block, the same for the foreground. */
    method TakeForeground(other: Color)
      modifies this
      ensures other != this ==> value == ColorBlend.OverlayFg(old(value), old(other.value))
      ensures other == this ==> value == ColorBlend.ClearFg(old(value))
    {
      if !other.value.noFg {
        value := value.(fg := 0);
        value := value.(fg := OrByte(value.fg, other.value.fg));
        value := value.(noFg := false);
      }
    }

    /** `blend (other)`: the rules of `ColorBlend.Blend` for another
        object; blending an object into itself clears its present colours'
        indices. */
    method Blend(other: Color)
      modifies this
      ensures other != this ==> value == ColorBlend.Blend(old(value), old(other.value))
      ensures other == this ==> value == ColorBlend.SelfBlend(old(value))
    {
      ghost var v, o := value, other.value;
      if value.mode256 && other.value.mode256 {
        Merge256(other);
      } else if !value.mode256 && !other.value.mode256 {
        Merge16(other);
      } else if !value.mode256 && other.value.mode256 {
        MergeUpgrade(other);
      }
      assert other != this ==> value == ColorBlend.Merge(v, o);
      assert other == this ==> value == ColorBlend.SelfBlend(v);
      value := value.(underline := value.underline || other.value.underline);
    }

    /** Both 256-colour: the overlay's colours only. */
    method Merge256(other: Color)
      requires value.mode256 && other.value.mode256
      modifies this
      ensures other != this ==> value == ColorBlend.Overlay(old(value), old(other.value))
      ensures other == this ==> value == ColorBlend.SelfBlend(old(value))
    {
      TakeBackground(other);
      TakeForeground(other);
    }

    /** Both 16-colour: bold and bright inherited, then the colours. */
    method Merge16(other: Color)
      requires !value.mode256 && !other.value.mode256
      modifies this
      ensures other != this ==> value == ColorBlend.Overlay(ColorBlend.Inherit(old(value), old(other.value)), old(other.value))
      ensures other == this ==> value == ColorBlend.SelfBlend(old(value))
    {
      value := value.(bold := value.bold || other.value.bold);
      value := value.(bright := value.bright || other.value.bright);
      TakeBackground(other);
      TakeForeground(other);
    }

    /** A 16-colour value under a 256-colour one (never the same object). */
    method MergeUpgrade(other: Color)
      requires !value.mode256 && other.value.mode256
      modifies this
      ensures value == ColorBlend.Overlay(ColorBlend.Upgrade(old(value)), old(other.value))
    {
      Upgrade();
      TakeBackground(other);
      TakeForeground(other);
    }

    /** The upgrade of a 16-colour value before a 256-colour overlay, one
        flag at a time. */
    method Upgrade()
      modifies this
      ensures value == ColorBlend.Upgrade(old(value))
    {
      value := value.(mode256 := true);
      value := value.(bold := false);
      value := value.(bright := false);
      value := value.(fg := 0);
      value := value.(bg := 0);
      value := value.(noFg := true);
      value := value.(noBg := true);
    }

    // -------------------------------------------------------------------
    // colorize

    /** Appends one parameter of the 16-colour sequence, after a `;` unless
        it is the first. */
    static method AddParam(result: string, count: nat, ghost ps: seq<string>, p: string)
      returns (result': string, count': nat)
      requires result == Csi + Join(ps, ';') && count == |ps|
      ensures result' == Csi + Join(ps + [p], ';') && count' == |ps + [p]|
    {
      JoinSnoc(ps, p, ';');
      result' := result;
      if count > 0 {
        result' := result' + ";";
      }
      count' := count + 1;
      result' := result' + p;
    }

    /** The single 16-colour sequence, its parameters counted as they are
        written. */
    static method Codes16(v: Packed) returns (result: string)
      ensures result == Csi + Join(Params16(v), ';') + "m"
    {
      var count := 0;
      result := Csi;
      ghost var ps: seq<string> := [];
      ghost var b := if v.bold then ["1"] else [];
      ghost var u := if v.underline then ["4"] else [];
      ghost var g := if !v.noBg then [NatToString((if v.bright then 99 else 39) + v.bg)] else [];
      ghost var f := if !v.noFg then [NatToString(29 + v.fg)] else [];
      if v.bold {
        result, count := AddParam(result, count, ps, "1");
        ps := ps + ["1"];
      }
      assert ps == b;
      if v.underline {
        result, count := AddParam(result, count, ps, "4");
        ps := ps + ["4"];
      }
      assert ps == b + u;
      if !v.noBg {
        var p := NatToString((if v.bright then 99 else 39) + v.bg);
        result, count := AddParam(result, count, ps, p);
        ps := ps + [p];
      }
      assert ps == b + u + g;
      if !v.noFg {
        var p := NatToString(29 + v.fg);
        result, count := AddParam(result, count, ps, p);
        ps := ps + [p];
      }
      assert ps == b + u + g + f;
      result := result + "m";
    }

    /** The 256-colour sequences: underline, foreground, background. */
    static method Codes256(v: Packed) returns (result: string)
      requires v.mode256
      ensures result == Codes(v)
    {
      result := "";
      if v.underline {
        result := Csi + "4m";
      }
      ghost var u := result;
      if !v.noFg {
        var code := Csi + "38;5;" + NatToString(v.fg) + "m";
        result := result + code;
      }
      ghost var uf := result;
      if !v.noBg {
        var code := Csi + "48;5;" + NatToString(v.bg) + "m";
        result := result + code;
      }
      assert u == (if v.underline then Csi + "4m" else "");
      assert uf == u + (if !v.noFg then Csi + "38;5;" + NatToString(v.fg) + "m" else "");
      assert result == uf + (if !v.noBg then Csi + "48;5;" + NatToString(v.bg) + "m" else "");
    }

    /** `colorize (input)`: the codes of the value around the text, or the
        text alone for the all-zero value. */
    method Colorize(input: string) returns (r: string)
      ensures r == Render(value, input)
    {
      if value == Zero {
        return input;
      }
      var result;
      if value.mode256 {
        result := Codes256(value);
      } else {
        result := Codes16(value);
      }
      result := result + input + Reset;
      return result;
    }

    /** `colorize (input, spec)`: parse the spec, then colorize; a spec
        that is not understood throws before anything is rendered. */
    static method ColorizeSpec(input: string, spec: string) returns (r: Result<string, string>)
      ensures r == match Parse(spec)
        case Ok(v) => Ok(Render(v, input))
        case Err(e) => Err(e)
    {
      var c := FromSpec(spec);
      if c.Err? {
        return Err(c.error);
      }
      var s := c.value.Colorize(input);
      return Ok(s);
    }

    // -------------------------------------------------------------------
    // Names

    /** `find (input)`: the first row of the table named `input`, or -1. */
    static method FindName(input: string) returns (r: int)
      ensures r == Find(input)
    {
      var i := 0;
      while i < |AllColors|
        invariant 0 <= i <= |AllColors|
        invariant forall j :: 0 <= j < i ==> AllColors[j].name != input
      {
        if AllColors[i].name == input {
          return i;
        }
        i := i + 1;
      }
      return -1;
    }

    /** The loop `fg` and `bg` run in 16-colour mode: the name of the first
        row whose index is `index`, or nothing. */
    static method NameOfIndex(index: int) returns (r: string)
      ensures r == NameOf(index)
    {
      TableShape();
      var i := 0;
      while i < |AllColors|
        invariant 0 <= i <= |AllColors|
        invariant forall j :: 0 <= j < i ==> AllColors[j].index != index
      {
        if AllColors[i].index == index {
          return AllColors[i].name;
        }
        i := i + 1;
      }
      return "";
    }

    /** `fg ()`. */
    method Fg() returns (r: string)
      ensures r == FgName(value)
    {
      var index := value.fg;
      if value.mode256 {
        if !value.noFg {
          return "color" + NatToString(value.fg);
        }
      } else {
        r := NameOfIndex(index);
        return r;
      }
      return "";
    }

    /** `bg ()`. */
    method Bg() returns (r: string)
      ensures r == BgName(value)
    {
      var index := value.bg;
      if value.mode256 {
        if !value.noBg {
          return "color" + NatToString(value.bg);
        }
      } else {
        r := NameOfIndex(index);
        return r;
      }
      return "";
    }

    /** `operator std::string`, built up in the source's order. */
    method Description() returns (d: string)
      ensures d == Describe(value)
    {
      d := "";
      if value.bold {
        d := "bold";
      }
      ghost var d0 := d;
      if value.underline {
        d := AppendWord(d, "underline");
      }
      ghost var d1 := d;
      if !value.noFg {
        var f := Fg();
        d := AppendWord(d, f);
      }
      assert d0 == (if value.bold then "bold" else "");
      assert d1 == (if value.underline then AppendWord(d0, "underline") else d0);
      assert d == (if !value.noFg then AppendWord(d1, FgName(value)) else d1);
      assert d == DescribeFront(value);
      if !value.noBg {
        ghost var front := d;
        d := AppendWord(d, "on");
        if value.bright {
          d := AppendWord(d, "bright");
        }
        var b := Bg();
        d := d + " " + b;
        assert d == DescribeBack(value, front);
      }
    }
  }
}
