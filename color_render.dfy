/** What a colour value looks like from outside: the escape sequence
    `Color::colorize` wraps text in, and the spec text `operator std::string`
    describes it with (using `Color::fg` and `Color::bg` for the colour
    names). */
module ColorRender {
  import opened Text
  import opened ColorTable
  import opened ColorBits

  // ---------------------------------------------------------------------
  // Escape sequences

  /** The Control Sequence Introducer, ESC `[`. */
  const Csi := "\U{1B}["

  /** The sequence `colorize` ends every coloured text with. */
  const Reset := "\U{1B}[0m"

  /** The parameters of the single 16-colour sequence, in the order they
      are written: bold, underline, background, foreground. A background
      is 40-47 (100-107 when bright), a foreground 30-37, both offset by
      the table index, which starts at 1 for black. */
  function Params16(v: Packed): seq<string>
  {
    (if v.bold then ["1"] else [])
    + (if v.underline then ["4"] else [])
    + (if !v.noBg then [NatToString((if v.bright then 99 else 39) + v.bg)] else [])
    + (if !v.noFg then [NatToString(29 + v.fg)] else [])
  }

  /** The sequences written before the text: in 256-colour mode one each
      for underline, foreground and background; otherwise one sequence with
      the parameters separated by `;`. */
  function Codes(v: Packed): string
  {
    if v.mode256 then
      (if v.underline then Csi + "4m" else "")
      + (if !v.noFg then Csi + "38;5;" + NatToString(v.fg) + "m" else "")
      + (if !v.noBg then Csi + "48;5;" + NatToString(v.bg) + "m" else "")
    else
      Csi + Join(Params16(v), ';') + "m"
  }

  /** `Color::colorize (input)`: the all-zero value leaves the text alone;
      any other wraps it in its codes and the reset sequence. */
  function Render(v: Packed, input: string): string
  {
    if v == Zero then input else Codes(v) + input + Reset
  }

  /** The text comes back unchanged exactly for the all-zero value; every
      other value puts its codes before it and the reset after it. */
  lemma RenderIdentity(v: Packed, input: string)
    ensures Render(v, input) == input <==> v == Zero
    ensures v != Zero ==> Render(v, input) == Codes(v) + input + Reset
  {
    if v != Zero {
      assert |Render(v, input)| >= |input| + |Reset|;
    }
  }

  /** In 256-colour mode bold and bright are not rendered. */
  lemma Render256IgnoresModifiers(v: Packed, bold: bool, bright: bool)
    requires v.mode256
    ensures Codes(v.(bold := bold, bright := bright)) == Codes(v)
  {
  }

  /** The 16-colour sequence holds one parameter per property set. */
  lemma Params16Count(v: Packed)
    ensures |Params16(v)| == Bit(v.bold) + Bit(v.underline) + Bit(!v.noBg) + Bit(!v.noFg)
  {
  }

  // ---------------------------------------------------------------------
  // Names

  /** `Color::fg`: `colorN` for a present 256-colour foreground, nothing
      for an absent one, and in 16-colour mode the table name with that
      index (present or not), or nothing when no row has it. */
  function FgName(v: Packed): string
  {
    if v.mode256 then (if !v.noFg then "color" + NatToString(v.fg) else "")
    else NameOf(v.fg)
  }

  /** `Color::bg`, the same for the background. */
  function BgName(v: Packed): string
  {
    if v.mode256 then (if !v.noBg then "color" + NatToString(v.bg) else "")
    else NameOf(v.bg)
  }

  /** Adding a word to a description: a space first unless it is empty. */
  function AppendWord(description: string, word: string): string
  {
    description + (if |description| > 0 then " " else "") + word
  }

  /** `operator std::string`: the modifiers, the foreground name, then `on`,
      `bright` when set, and the background name after a space. Bright is
      described only with a background. */
  function Describe(v: Packed): string
  {
    var d := DescribeFront(v);
    if v.noBg then d else DescribeBack(v, d)
  }

  /** The description up to the background: bold, underline, foreground. */
  function DescribeFront(v: Packed): string
  {
    var d0 := if v.bold then "bold" else "";
    var d1 := if v.underline then AppendWord(d0, "underline") else d0;
    if !v.noFg then AppendWord(d1, FgName(v)) else d1
  }

  /** The background part added to the description `d`. */
  function DescribeBack(v: Packed, d: string): string
  {
    var d3 := AppendWord(d, "on");
    var d4 := if v.bright then AppendWord(d3, "bright") else d3;
    d4 + " " + BgName(v)
  }
}
