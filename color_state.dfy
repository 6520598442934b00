/** The state the spec constructor's loop carries from word to word, and the
    effect of one understood word on it. */
module ColorState {
  import opened ColorBits

  /** The value built so far and whether an `on` has been seen (the
      constructor's local `bg`). */
  datatype ParseState = ParseState(value: Packed, bg: bool)

  /** The state before the first word: no foreground, no background. */
  const Initial := ParseState(Default, false)

  /** What one lower-cased word asks for: a modifier, `on`, a palette index
      (from the colour table, or from a `grey`/`gray`, `rgb` or `color` word,
      which also select 256-colour mode), or nothing understood. */
  datatype Token =
    | BoldWord
    | BrightWord
    | UnderlineWord
    | OnWord
    | Palette(index: Byte, mode256: bool)
    | Rejected

  /** Puts a palette index into the byte the words so far select: the
      background after an `on`, the foreground before. The index is ORed
      into the byte, which is not cleared first. */
  function Put(v: Packed, bg: bool, index: Byte): (r: Packed)
    // the selected colour becomes present and takes the OR of the indices
    ensures bg ==> !r.noBg && r.bg == OrByte(v.bg, index)
    ensures !bg ==> !r.noFg && r.fg == OrByte(v.fg, index)
    // the other colour and every flag stay as they were
    ensures bg ==> r == v.(noBg := r.noBg, bg := r.bg)
    ensures !bg ==> r == v.(noFg := r.noFg, fg := r.fg)
  {
    if bg then v.(noBg := false, bg := OrByte(v.bg, index))
    else v.(noFg := false, fg := OrByte(v.fg, index))
  }

  /** The constructor's two steps for a palette index: clear the selected
      colour's "no colour" flag, then OR the index into its byte. */
  method PutIndex(v: Packed, bg: bool, index: Byte) returns (r: Packed)
    ensures r == Put(v, bg, index)
  {
    r := v;
    if bg {
      r := r.(noBg := false);
      r := r.(bg := OrByte(r.bg, index));
    } else {
      r := r.(noFg := false);
      r := r.(fg := OrByte(r.fg, index));
    }
  }

  /** The effect of an understood word on the loop's state. */
  function Apply(st: ParseState, t: Token): (r: ParseState)
    requires !t.Rejected?
    // only `on` moves the words to the background, and nothing moves them back
    ensures r.bg == (st.bg || t.OnWord?)
  {
    var v := st.value;
    var value := match t
      case BoldWord => v.(bold := true, mode256 := false)
      case BrightWord => v.(bright := true, mode256 := false)
      case UnderlineWord => v.(underline := true)
      case OnWord => v
      case Palette(index, m) =>
        var w := Put(v, st.bg, index);
        if m then w.(mode256 := true) else w;
    ParseState(value, st.bg || t.OnWord?)
  }

  /** Modifiers are never cleared, and a present colour never becomes absent. */
  lemma ApplyKeeps(st: ParseState, t: Token)
    requires !t.Rejected?
    ensures var r := Apply(st, t).value;
      && (st.value.bold ==> r.bold)
      && (st.value.bright ==> r.bright)
      && (st.value.underline ==> r.underline)
      && (!st.value.noFg ==> !r.noFg)
      && (!st.value.noBg ==> !r.noBg)
  {
  }

  /** Bold and bright leave 256-colour mode; grey, rgb and color words enter it;
      nothing else changes it. */
  lemma ApplyMode(st: ParseState, t: Token)
    requires !t.Rejected?
    ensures Apply(st, t).value.mode256 == match t
      case BoldWord => false
      case BrightWord => false
      case Palette(_, m) => m || st.value.mode256
      case _ => st.value.mode256
  {
  }

  /** A palette index lands in the selected colour; every other word only
      sets its modifier. */
  lemma ApplyColours(st: ParseState, t: Token)
    requires !t.Rejected?
    ensures var r := Apply(st, t).value.(mode256 := st.value.mode256);
      if t.Palette? then r == Put(st.value, st.bg, t.index)
      else r == st.value.(
        bold := st.value.bold || t.BoldWord?,
        bright := st.value.bright || t.BrightWord?,
        underline := st.value.underline || t.UnderlineWord?)
  {
  }
}
