/** The spec-string constructor `Color::Color (const std::string&)`: words
    such as `bold red on bright blue`, `grey12`, `rgb345` or `color200` become
    flag and index bits, and an unknown word is an error naming it. */
module ColorSpec {
  import opened Wrappers
  import opened Text
  import opened ColorTable
  import opened ColorBits
  import opened ColorState

  /** The text of the exception thrown for a word that is not understood. */
  function NotRecognized(word: string): string
  {
    "The color '" + word + "' is not recognized."
  }

  /** The words of a spec: underscores count as spaces, then split at spaces. */
  function Words(spec: string): (ws: seq<string>)
    ensures forall i :: 0 <= i < |ws| ==> ' ' !in ws[i] && '_' !in ws[i]
  {
    var t := Replace(spec, '_', ' ');
    FieldsAvoid(t, ' ', '_');
    Split(t, ' ')
  }

  // ---------------------------------------------------------------------
  // The grammar

  const Keywords: seq<string> := ["bold", "bright", "underline", "on"]

  predicate IsGreyWord(word: string) { "grey" <= word || "gray" <= word }
  predicate IsRgbWord(word: string) { "rgb" <= word }
  predicate IsColorWord(word: string) { "color" <= word }

  /** The three prefixes exclude each other and every keyword. */
  lemma PrefixesExclusive(word: string)
    ensures IsRgbWord(word) ==> !IsGreyWord(word) && !IsColorWord(word)
    ensures IsColorWord(word) ==> !IsGreyWord(word)
    ensures IsGreyWord(word) || IsRgbWord(word) || IsColorWord(word) ==> word !in Keywords
  {
    if IsRgbWord(word) { assert word[0] == 'r'; }
    if IsColorWord(word) { assert word[0] == 'c'; }
    if IsGreyWord(word) { assert word[0] == 'g'; }
  }

  /** The lower-cased words the constructor accepts: a modifier, `on`, a table
      name (the empty word included), `grey`/`gray` with an `atoi` value in
      0..23, `rgb` with exactly three more characters whose `atoi` values are
      each in 0..5, or `color` with an `atoi` value in 0..255. */
  predicate Accepted(word: string)
  {
    || word in Keywords
    || Find(word) != -1
    || (IsGreyWord(word) && 0 <= Atoi(word[4..]) <= 23)
    || (IsRgbWord(word) && |word| == 6 && 0 <= Atoi(word[3..]) <= 555
        && 0 <= Atoi(word[3..4]) <= 5 && 0 <= Atoi(word[4..5]) <= 5 && 0 <= Atoi(word[5..6]) <= 5)
    || (IsColorWord(word) && 0 <= Atoi(word[5..]) <= 255)
  }

  // ---------------------------------------------------------------------
  // One word

  /** What one lower-cased word asks for, decided in the order the
      constructor tests it. */
  function Classify(word: string): (t: Token)
    ensures t.Rejected? <==> !Accepted(word)
  {
    PrefixesExclusive(word);
    if word == "bold" then BoldWord
    else if word == "bright" then BrightWord
    else if word == "underline" then UnderlineWord
    else if word == "on" then OnWord
    else if Find(word) != -1 then Palette(Find(word), false)
    else if IsGreyWord(word) then
      var index := Atoi(word[4..]);
      if index < 0 || index > 23 then Rejected else Palette(index + 232, true)
    else if IsRgbWord(word) then
      var index := Atoi(word[3..]);
      if |word| != 6 || index < 0 || index > 555 then Rejected
      else
        var r, g, b := Atoi(word[3..4]), Atoi(word[4..5]), Atoi(word[5..6]);
        if r < 0 || r > 5 || g < 0 || g > 5 || b < 0 || b > 5 then Rejected
        else Palette(16 + r * 36 + g * 6 + b, true)
    else if IsColorWord(word) then
      var index := Atoi(word[5..]);
      if index < 0 || index > 255 then Rejected else Palette(index, true)
    else Rejected
  }

  /** One pass of the constructor's loop over the word `raw`: an error naming
      `raw` exactly when its lower case is not understood. */
  function Step(st: ParseState, raw: string): (r: Result<ParseState, string>)
    ensures r.Err? <==> !Accepted(LowerCase(raw))
    ensures r.Err? ==> r.error == NotRecognized(raw)
    ensures r.Ok? ==> r.value.bg == (st.bg || LowerCase(raw) == "on")
  {
    var t := Classify(LowerCase(raw));
    if t.Rejected? then Err(NotRecognized(raw)) else Ok(Apply(st, t))
  }

  // ---------------------------------------------------------------------
  // The whole spec

  /** The words processed left to right from `st`; the first rejected word
      ends the run with its error. */
  function Fold(words: seq<string>, st: ParseState): Result<ParseState, string>
  {
    if words == [] then Ok(st)
    else
      match Step(st, words[0])
      case Err(e) => Err(e)
      case Ok(next) => Fold(words[1..], next)
  }

  /** The value the spec constructor builds, or the message it throws. */
  function Parse(spec: string): Result<Packed, string>
  {
    match Fold(Words(spec), Initial)
    case Ok(st) => Ok(st.value)
    case Err(e) => Err(e)
  }

  // Each lemma below says what `Classify` decides given the tests that
  // precede its branch in the constructor.

  lemma ClassifyKeyword(word: string)
    requires word in Keywords
    ensures Classify(word) == if word == "bold" then BoldWord
      else if word == "bright" then BrightWord
      else if word == "underline" then UnderlineWord
      else OnWord
  {
  }

  lemma ClassifyName(word: string)
    requires word !in Keywords && Find(word) != -1
    ensures Classify(word) == Palette(Find(word), false)
  {
  }

  lemma ClassifyGrey(word: string)
    requires word !in Keywords && Find(word) == -1 && IsGreyWord(word)
    ensures var n := Atoi(word[4..]);
      Classify(word) == if 0 <= n <= 23 then Palette(n + 232, true) else Rejected
  {
  }

  lemma ClassifyRgb(word: string)
    requires word !in Keywords && Find(word) == -1 && !IsGreyWord(word) && IsRgbWord(word)
    requires |word| == 6 && 0 <= Atoi(word[3..]) <= 555
    ensures var r, g, b := Atoi(word[3..4]), Atoi(word[4..5]), Atoi(word[5..6]);
      Classify(word) ==
        if 0 <= r <= 5 && 0 <= g <= 5 && 0 <= b <= 5 then Palette(16 + r * 36 + g * 6 + b, true)
        else Rejected
  {
  }

  lemma ClassifyColor(word: string)
    requires word !in Keywords && Find(word) == -1 && !IsGreyWord(word) && !IsRgbWord(word) && IsColorWord(word)
    ensures var n := Atoi(word[5..]);
      Classify(word) == if 0 <= n <= 255 then Palette(n, true) else Rejected
  {
  }

  /** Taking one understood word off the front of the remaining words. */
  lemma FoldAccept(words: seq<string>, i: nat, st: ParseState, token: Token)
    requires i < |words| && Classify(LowerCase(words[i])) == token && !token.Rejected?
    ensures Fold(words[i..], st) == Fold(words[i + 1..], Apply(st, token))
  {
    assert words[i..][1..] == words[i + 1..];
  }

  /** A word not understood ends the remaining run with its error. */
  lemma FoldReject(words: seq<string>, i: nat, st: ParseState)
    requires i < |words| && Classify(LowerCase(words[i])).Rejected?
    ensures Fold(words[i..], st) == Err(NotRecognized(words[i]))
  {
  }

  /** One pass of the constructor's loop body on the lower-cased `word`,
      with the value and the `on` flag so far: `ok` is false where the
      constructor throws, and otherwise the new value and flag are what
      `Classify` and `Apply` say. */
  method TakeWord(value: Packed, bg: bool, word: string) returns (ok: bool, value': Packed, bg': bool)
    ensures ok <==> Accepted(word)
    ensures ok ==> ParseState(value', bg') == Apply(ParseState(value, bg), Classify(word))
  {
    var index := Find(word);
    if word in Keywords {
      ClassifyKeyword(word);
    }
    if word == "bold" {
      value' := value.(bold := true);
      value' := value'.(mode256 := false);
      return true, value', bg;
    } else if word == "bright" {
      value' := value.(bright := true);
      value' := value'.(mode256 := false);
      return true, value', bg;
    } else if word == "underline" {
      value' := value.(underline := true);
      return true, value', bg;
    } else if word == "on" {
      return true, value, true;
    } else if index != -1 {
      ClassifyName(word);
      value' := PutIndex(value, bg, index);
      return true, value', bg;
    }
    ok, value' := TakePaletteWord(value, bg, word);
    bg' := bg;
  }

  /** The three 256-colour branches of the loop body, for a word that is
      neither a keyword nor a table name. */
  method TakePaletteWord(value: Packed, bg: bool, word: string) returns (ok: bool, value': Packed)
    requires word !in Keywords && Find(word) == -1
    ensures ok <==> Accepted(word)
    ensures ok ==> ParseState(value', bg) == Apply(ParseState(value, bg), Classify(word))
  {
    PrefixesExclusive(word);
    if IsGreyWord(word) {
      ClassifyGrey(word);
      var index := Atoi(word[4..]);
      if index < 0 || index > 23 {
        return false, value;
      }
      value' := PutIndex(value, bg, index + 232);
      value' := value'.(mode256 := true);
      return true, value';
    } else if IsRgbWord(word) {
      var index := Atoi(word[3..]);
      if |word| != 6 || index < 0 || index > 555 {
        return false, value;
      }
      ClassifyRgb(word);
      var r := Atoi(word[3..4]);
      var g := Atoi(word[4..5]);
      var b := Atoi(word[5..6]);
      if r < 0 || r > 5 || g < 0 || g > 5 || b < 0 || b > 5 {
        return false, value;
      }
      index := 16 + r * 36 + g * 6 + b;
      value' := PutIndex(value, bg, index);
      value' := value'.(mode256 := true);
      return true, value';
    } else if IsColorWord(word) {
      ClassifyColor(word);
      var index := Atoi(word[5..]);
      if index < 0 || index > 255 {
        return false, value;
      }
      value' := PutIndex(value, bg, index);
      value' := value'.(mode256 := true);
      return true, value';
    }
    return false, value;
  }

  /** The spec constructor, on a local copy of `value`: the words are
      processed in order, and the first one not understood ends the loop with
      its error, before any Color exists. */
  method ParseSpec(spec: string) returns (r: Result<Packed, string>)
    ensures r == Parse(spec)
  {
    var words := Words(spec);
    var value := Default;
    var bg := false;
    var i := 0;
    while i < |words|
      invariant 0 <= i <= |words|
      invariant Fold(words, Initial) == Fold(words[i..], ParseState(value, bg))
    {
      var word := LowerCase(words[i]);
      var ok, value', bg' := TakeWord(value, bg, word);
      if !ok {
        FoldReject(words, i, ParseState(value, bg));
        return Err(NotRecognized(words[i]));
      }
      FoldAccept(words, i, ParseState(value, bg), Classify(word));
      value, bg := value', bg';
      i := i + 1;
    }
    return Ok(value);
  }
}
