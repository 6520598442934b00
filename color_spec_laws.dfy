/** What the spec constructor promises about whole specs: which specs throw
    and with which word, where a palette index lands, and that case and
    underscores do not matter. */
module ColorSpecLaws {
  import opened Wrappers
  import opened Text
  import opened ColorBits
  import opened ColorState
  import opened ColorSpec

  // ---------------------------------------------------------------------
  // Errors

  /** The position of the first word whose lower case is not understood, or
      the number of words when every word is. */
  function FirstRejected(ws: seq<string>): (k: nat)
    ensures k <= |ws|
    ensures forall j :: 0 <= j < k ==> Accepted(LowerCase(ws[j]))
    ensures k < |ws| ==> !Accepted(LowerCase(ws[k]))
  {
    if ws == [] then 0
    else if !Accepted(LowerCase(ws[0])) then 0
    else 1 + FirstRejected(ws[1..])
  }

  /** A run of words fails exactly when one of them is not understood, and
      then with the error naming the first such word as it was written. */
  lemma {:induction false} FoldError(ws: seq<string>, st: ParseState)
    ensures Fold(ws, st).Err? <==> FirstRejected(ws) < |ws|
    ensures FirstRejected(ws) < |ws| ==> Fold(ws, st) == Err(NotRecognized(ws[FirstRejected(ws)]))
  {
    if ws != [] && Accepted(LowerCase(ws[0])) {
      var next := Apply(st, Classify(LowerCase(ws[0])));
      FoldError(ws[1..], next);
    }
  }

  /** The spec constructor throws exactly when some word is not understood,
      and the message names the first one, with its case kept and its
      underscores already turned into spaces. */
  lemma ParseError(spec: string)
    ensures var ws := Words(spec); var k := FirstRejected(ws);
      && (Parse(spec).Err? <==> exists i :: 0 <= i < |ws| && !Accepted(LowerCase(ws[i])))
      && (k < |ws| ==> Parse(spec) == Err(NotRecognized(ws[k])))
  {
    var ws := Words(spec);
    FoldError(ws, Initial);
  }

  // ---------------------------------------------------------------------
  // Runs of words

  /** Words are processed left to right: a run is its first part, then the
      rest from where the first part left off. */
  lemma {:induction false} FoldAppend(a: seq<string>, b: seq<string>, st: ParseState)
    ensures Fold(a + b, st) == match Fold(a, st)
      case Ok(s) => Fold(b, s)
      case Err(e) => Err(e)
  {
    if a != [] {
      var ab := a + b;
      assert ab[0] == a[0] && ab[1..] == a[1..] + b;
      FoldCons(ab, st);
      FoldCons(a, st);
      var r := Step(st, a[0]);
      if r.Ok? {
        FoldAppend(a[1..], b, r.value);
      }
    } else {
      assert a + b == b;
    }
  }

  /** One step of a non-empty run. */
  lemma FoldCons(ws: seq<string>, st: ParseState)
    requires ws != []
    ensures Fold(ws, st) == match Step(st, ws[0])
      case Ok(next) => Fold(ws[1..], next)
      case Err(e) => Err(e)
  {
  }

  /** After a run of understood words the colour words go to the background
      exactly when the run or what came before it held an `on`. */
  lemma {:induction false} FoldTarget(ws: seq<string>, st: ParseState)
    requires Fold(ws, st).Ok?
    ensures Fold(ws, st).value.bg == (st.bg || exists i :: 0 <= i < |ws| && LowerCase(ws[i]) == "on")
  {
    if ws != [] {
      var next := Step(st, ws[0]).value;
      FoldTarget(ws[1..], next);
      if exists i :: 0 <= i < |ws[1..]| && LowerCase(ws[1..][i]) == "on" {
        var i :| 0 <= i < |ws[1..]| && LowerCase(ws[1..][i]) == "on";
        assert LowerCase(ws[i + 1]) == "on";
      }
      if exists i :: 0 <= i < |ws| && LowerCase(ws[i]) == "on" {
        var i :| 0 <= i < |ws| && LowerCase(ws[i]) == "on";
        if i > 0 {
          assert LowerCase(ws[1..][i - 1]) == "on";
        }
      }
    }
  }

  /** A palette word after the understood words `before`: its index is
      ORed into the background when `before` held an `on`, and into the
      foreground otherwise, and the word selects 256-colour mode when it is
      a grey, rgb or color word. */
  lemma PaletteRouting(before: seq<string>, w: string, after: seq<string>, index: Byte, m: bool)
    requires Fold(before, Initial).Ok?
    requires Classify(LowerCase(w)) == Palette(index, m)
    ensures var st := Fold(before, Initial).value;
      var on := exists i :: 0 <= i < |before| && LowerCase(before[i]) == "on";
      && st.bg == on
      && Fold(before + [w] + after, Initial) == Fold(after, Apply(st, Palette(index, m)))
      && Apply(st, Palette(index, m)).value.mode256 == (m || st.value.mode256)
      && (on ==> !Apply(st, Palette(index, m)).value.noBg
                 && Apply(st, Palette(index, m)).value.bg == OrByte(st.value.bg, index))
      && (!on ==> !Apply(st, Palette(index, m)).value.noFg
                  && Apply(st, Palette(index, m)).value.fg == OrByte(st.value.fg, index))
  {
    var st := Fold(before, Initial).value;
    FoldTarget(before, Initial);
    FoldAppend(before, [w] + after, Initial);
    assert before + [w] + after == before + ([w] + after);
    var ws := [w] + after;
    assert ws[0] == w && ws[1..] == after;
    ApplyMode(st, Palette(index, m));
  }

  // ---------------------------------------------------------------------
  // Case and underscores

  /** The lower case of each word. */
  function LowerAll(ws: seq<string>): (r: seq<string>)
    ensures |r| == |ws|
    ensures forall i :: 0 <= i < |ws| ==> r[i] == LowerCase(ws[i])
  {
    seq(|ws|, i requires 0 <= i < |ws| => LowerCase(ws[i]))
  }

  lemma LowerConcat(a: string, b: string)
    ensures LowerCase(a + b) == LowerCase(a) + LowerCase(b)
  {
  }

  /** Lower-casing a joined text lower-cases each word, when the delimiter
      is not a letter. */
  lemma {:induction false} LowerJoin(ws: seq<string>, d: char)
    requires !IsUpper(d)
    ensures LowerCase(Join(ws, d)) == Join(LowerAll(ws), d)
  {
    if |ws| > 1 {
      LowerJoin(ws[1..], d);
      LowerConcat(ws[0] + [d], Join(ws[1..], d));
      LowerConcat(ws[0], [d]);
      assert LowerAll(ws[1..]) == LowerAll(ws)[1..];
    }
  }

  /** The words of a lower-cased spec are the lower-cased words. */
  lemma WordsLowerCase(spec: string)
    ensures Words(LowerCase(spec)) == LowerAll(Words(spec))
  {
    var t := Replace(spec, '_', ' ');
    LowerCaseReplace(spec, '_', ' ');
    var ws := Split(t, ' ');
    if t != [] {
      LowerJoin(ws, ' ');
      var lw := LowerAll(ws);
      forall i | 0 <= i < |lw|
        ensures ' ' !in lw[i]
      {
        assert ' ' !in ws[i];
      }
      SplitJoin(lw, ' ');
    }
  }

  /** A run of words and its lower-cased copy succeed together and then
      build the same value; only the word an error names keeps its case. */
  lemma {:induction false} FoldLowerAll(ws: seq<string>, st: ParseState)
    ensures Fold(LowerAll(ws), st).Ok? <==> Fold(ws, st).Ok?
    ensures Fold(ws, st).Ok? ==> Fold(LowerAll(ws), st) == Fold(ws, st)
  {
    if ws != [] {
      var lw := LowerAll(ws);
      LowerCaseIdempotent(ws[0]);
      assert lw[0] == LowerCase(ws[0]);
      assert lw[1..] == LowerAll(ws[1..]);
      if Accepted(LowerCase(ws[0])) {
        FoldLowerAll(ws[1..], Apply(st, Classify(LowerCase(ws[0]))));
      }
    }
  }

  /** Case does not matter: `ON RED` and `on red` are the same colour, and
      fail together. */
  lemma ParseLowerCase(spec: string)
    ensures Parse(LowerCase(spec)).Ok? <==> Parse(spec).Ok?
    ensures Parse(spec).Ok? ==> Parse(LowerCase(spec)) == Parse(spec)
  {
    WordsLowerCase(spec);
    FoldLowerAll(Words(spec), Initial);
  }

  /** An underscore separates words like a space: `on_red` is `on red`. */
  lemma ParseUnderscore(a: string, b: string)
    ensures Parse(a + "_" + b) == Parse(a + " " + b)
  {
    var s1, s2 := a + "_" + b, a + " " + b;
    assert Replace(s1, '_', ' ') == Replace(s2, '_', ' ');
  }
}
