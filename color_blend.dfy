/** `Color::blend`: the attributes of an overlay are merged into a base by
    rules that depend on whether each side is in 256-colour mode. */
module ColorBlend {
  import opened ColorBits

  /** The two "apply the new colour" blocks of each case: a colour the
      overlay has replaces the base's index and becomes present. */
  function Overlay(v: Packed, o: Packed): Packed
  {
    OverlayFg(OverlayBg(v, o), o)
  }

  /** The background block alone. */
  function OverlayBg(v: Packed, o: Packed): Packed
  {
    if !o.noBg then v.(bg := o.bg, noBg := false) else v
  }

  /** The foreground block alone. */
  function OverlayFg(v: Packed, o: Packed): Packed
  {
    if !o.noFg then v.(fg := o.fg, noFg := false) else v
  }

  /** Two 16-colour values: the base becomes bold or bright when either is. */
  function Inherit(v: Packed, o: Packed): Packed
  {
    v.(bold := v.bold || o.bold, bright := v.bright || o.bright)
  }

  /** A 16-colour base turned into an empty 256-colour value before a
      256-colour overlay is applied: bold, bright and both colours dropped. */
  function Upgrade(v: Packed): Packed
  {
    v.(mode256 := true, bold := false, bright := false, fg := 0, bg := 0, noFg := true, noBg := true)
  }

  /** `base.blend (overlay)` for two different objects. */
  function Blend(v: Packed, o: Packed): Packed
  {
    var c := Merge(v, o);
    c.(underline := c.underline || o.underline)
  }

  /** The four cases of `blend`, before underline is inherited. */
  function Merge(v: Packed, o: Packed): Packed
  {
    if v.mode256 && o.mode256 then Overlay(v, o)
    else if !v.mode256 && !o.mode256 then Overlay(Inherit(v, o), o)
    else if !v.mode256 && o.mode256 then Overlay(Upgrade(v), o)
    else v
  }

  /** Underline is always inherited and never cleared, and 256-colour mode
      wins: the result is in it when either side is. */
  lemma BlendUnderlineMode(v: Packed, o: Packed)
    ensures Blend(v, o).underline == (v.underline || o.underline)
    ensures Blend(v, o).mode256 == (v.mode256 || o.mode256)
  {
    if v.mode256 && o.mode256 {
    } else if !v.mode256 && !o.mode256 {
    } else if !v.mode256 {
    }
  }

  /** In the same mode, each colour the overlay has replaces the base's
      index and is present, and each colour it lacks is the base's. */
  lemma BlendSameMode(v: Packed, o: Packed)
    requires v.mode256 == o.mode256
    ensures var r := Blend(v, o);
      && r.fg == (if o.noFg then v.fg else o.fg)
      && r.noFg == (v.noFg && o.noFg)
      && r.bg == (if o.noBg then v.bg else o.bg)
      && r.noBg == (v.noBg && o.noBg)
  {
  }

  /** Two 256-colour values keep the base's bold and bright; two 16-colour
      values take the OR of them. */
  lemma BlendModifiers(v: Packed, o: Packed)
    ensures v.mode256 && o.mode256 ==> Blend(v, o).bold == v.bold && Blend(v, o).bright == v.bright
    ensures !v.mode256 && !o.mode256 ==>
      Blend(v, o).bold == (v.bold || o.bold) && Blend(v, o).bright == (v.bright || o.bright)
  {
  }

  /** A 256-colour base ignores a 16-colour overlay except for underline. */
  lemma BlendKeeps256(v: Packed, o: Packed)
    requires v.mode256 && !o.mode256
    ensures Blend(v, o) == v.(underline := v.underline || o.underline)
  {
  }

  /** A 16-colour base under a 256-colour overlay is upgraded: bold and bright
      are dropped, and the colours are exactly the overlay's. */
  lemma BlendUpgrade(v: Packed, o: Packed)
    requires !v.mode256 && o.mode256
    ensures var r := Blend(v, o);
      && !r.bold && !r.bright
      && r.noFg == o.noFg && r.fg == (if o.noFg then 0 else o.fg)
      && r.noBg == o.noBg && r.bg == (if o.noBg then 0 else o.bg)
  {
  }

  /** Blending the same overlay twice is blending it once. */
  lemma BlendIdempotent(v: Packed, o: Packed)
    ensures Blend(Blend(v, o), o) == Blend(v, o)
  {
    var r := Blend(v, o);
    BlendUnderlineMode(v, o);
    BlendUnderlineMode(r, o);
    if v.mode256 && !o.mode256 {
      BlendKeeps256(v, o);
      BlendKeeps256(r, o);
    } else {
      if v.mode256 == o.mode256 {
        BlendSameMode(v, o);
      } else {
        BlendUpgrade(v, o);
      }
      BlendSameMode(r, o);
      BlendModifiers(v, o);
      BlendModifiers(r, o);
      FieldsEqual(Blend(r, o), r);
    }
  }

  /** Two values with the same fields are the same value. */
  lemma FieldsEqual(a: Packed, b: Packed)
    requires a.fg == b.fg && a.bg == b.bg && a.noFg == b.noFg && a.noBg == b.noBg
    requires a.bold == b.bold && a.bright == b.bright && a.underline == b.underline && a.mode256 == b.mode256
    ensures a == b
  {
  }

  /** The default value (no colours, no modifiers) is a neutral overlay. */
  lemma BlendDefault(v: Packed)
    ensures Blend(v, Default) == v
  {
  }

  /** Blending a copy of a value into it changes nothing. */
  lemma BlendCopy(v: Packed)
    ensures Blend(v, v) == v
  {
  }

  /** `a.blend (a)`: the source reads `other.value` after each write to
      `value`, so with `other` the same object a present colour's index is
      cleared before it is copied back: it ends up 0. */
  function SelfBlend(v: Packed): (r: Packed)
    ensures r.fg == (if v.noFg then v.fg else 0)
    ensures r.bg == (if v.noBg then v.bg else 0)
    ensures r.(fg := v.fg, bg := v.bg) == v
  {
    ClearFg(ClearBg(v))
  }

  /** The background block with `other` the same object: the byte is read
      back after it was cleared. */
  function ClearBg(v: Packed): Packed
  {
    if !v.noBg then v.(bg := 0) else v
  }

  function ClearFg(v: Packed): Packed
  {
    if !v.noFg then v.(fg := 0) else v
  }

  /** So blending an object into itself differs from blending in a copy
      exactly when a present colour has a non-zero index. */
  lemma SelfBlendDiffers(v: Packed)
    ensures SelfBlend(v) != Blend(v, v) <==> (!v.noFg && v.fg != 0) || (!v.noBg && v.bg != 0)
  {
    BlendCopy(v);
  }
}
