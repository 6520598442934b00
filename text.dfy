/** The string helpers the colour code leans on: `split` and `lowerCase`
    from text.h, `std::replace` on one character, C's `atoi`, and the
    decimal formatting a `std::stringstream` applies to a number. */
module Text {

  // ---------------------------------------------------------------------
  // Splitting and joining

  /** The position of the first `d` in `s`. */
  function IndexOf(s: string, d: char): (k: nat)
    requires d in s
    ensures k < |s| && s[k] == d && d !in s[..k]
  {
    if s[0] == d then 0 else
      assert s == [s[0]] + s[1..];
      var k := IndexOf(s[1..], d);
      assert s[..k + 1] == [s[0]] + s[1..][..k];
      k + 1
  }

  /** The words of `s` between the occurrences of `d`, keeping empty ones:
      one more word than `s` has delimiters. */
  function Fields(s: string, d: char): (ws: seq<string>)
    ensures |ws| >= 1
    ensures forall i :: 0 <= i < |ws| ==> d !in ws[i]
    ensures Join(ws, d) == s
    decreases |s|
  {
    if d !in s then [s]
    else
      var k := IndexOf(s, d);
      var rest := Fields(s[k + 1..], d);
      assert s == s[..k] + [d] + s[k + 1..];
      [s[..k]] + rest
  }

  /** text.h's `split`: cut at every delimiter; an empty input has no words. */
  function Split(s: string, d: char): (ws: seq<string>)
    ensures ws == [] <==> s == []
    ensures forall i :: 0 <= i < |ws| ==> d !in ws[i]
    ensures s != [] ==> Join(ws, d) == s
  {
    if s == [] then [] else Fields(s, d)
  }

  /** A character missing from `s` is missing from each of its words. */
  lemma {:induction false} FieldsAvoid(s: string, d: char, c: char)
    requires c !in s
    ensures forall i :: 0 <= i < |Fields(s, d)| ==> c !in Fields(s, d)[i]
    decreases |s|
  {
    if d in s {
      var k := IndexOf(s, d);
      assert s == s[..k] + [d] + s[k + 1..];
      FieldsAvoid(s[k + 1..], d, c);
    }
  }

  /** The words of `ws` with one `d` between neighbours. */
  function Join(ws: seq<string>, d: char): string
  {
    if |ws| == 0 then ""
    else if |ws| == 1 then ws[0]
    else ws[0] + [d] + Join(ws[1..], d)
  }

  lemma {:induction false} JoinSnoc(ws: seq<string>, w: string, d: char)
    ensures Join(ws + [w], d) == if ws == [] then w else Join(ws, d) + [d] + w
  {
    if |ws| > 1 {
      assert (ws + [w])[1..] == ws[1..] + [w];
      JoinSnoc(ws[1..], w, d);
    } else if |ws| == 1 {
      assert (ws + [w])[1..] == [w];
    }
  }

  lemma {:induction false} IndexOfPrefix(a: string, b: string, d: char)
    requires d !in a
    ensures d in a + [d] + b && IndexOf(a + [d] + b, d) == |a|
  {
    var s := a + [d] + b;
    assert s[|a|] == d;
    if a != [] {
      assert s[1..] == a[1..] + [d] + b;
      IndexOfPrefix(a[1..], b, d);
    }
  }

  /** Cutting at the first delimiter after a delimiter-free word. */
  lemma FieldsCons(a: string, b: string, d: char)
    requires d !in a
    ensures Fields(a + [d] + b, d) == [a] + Fields(b, d)
  {
    var s := a + [d] + b;
    IndexOfPrefix(a, b, d);
    assert s[..|a|] == a;
    assert s[|a| + 1..] == b;
  }

  /** Splitting undoes joining when no word holds the delimiter. */
  lemma {:induction false} FieldsJoin(ws: seq<string>, d: char)
    requires |ws| >= 1
    requires forall i :: 0 <= i < |ws| ==> d !in ws[i]
    ensures Fields(Join(ws, d), d) == ws
  {
    if |ws| > 1 {
      FieldsCons(ws[0], Join(ws[1..], d), d);
      FieldsJoin(ws[1..], d);
      assert ws == [ws[0]] + ws[1..];
    }
  }

  /** Splitting undoes joining, except for the single empty word, which
      joins to the empty string and so splits into no words at all. */
  lemma SplitJoin(ws: seq<string>, d: char)
    requires forall i :: 0 <= i < |ws| ==> d !in ws[i]
    requires ws != [""]
    ensures Split(Join(ws, d), d) == ws
  {
    if ws != [] {
      if |ws| > 1 {
        assert Join(ws, d)[|ws[0]|] == d;
      } else {
        assert Join(ws, d) == ws[0];
      }
      FieldsJoin(ws, d);
    }
  }

  /** A joined string starts with its first word. */
  lemma JoinHead(ws: seq<string>, d: char)
    requires ws != []
    ensures ws[0] <= Join(ws, d)
  {
  }

  /** A character other than the delimiter and in no word is not in the join. */
  lemma {:induction false} JoinAvoid(ws: seq<string>, d: char, c: char)
    requires c != d
    requires forall i :: 0 <= i < |ws| ==> c !in ws[i]
    ensures c !in Join(ws, d)
  {
    if |ws| > 1 {
      JoinAvoid(ws[1..], d, c);
    }
  }

  // ---------------------------------------------------------------------
  // Character mapping

  /** `std::replace` of one character by another. */
  function Replace(s: string, from: char, to: char): (r: string)
    ensures |r| == |s|
    ensures forall i :: 0 <= i < |s| ==> r[i] == (if s[i] == from then to else s[i])
  {
    seq(|s|, i requires 0 <= i < |s| => if s[i] == from then to else s[i])
  }

  /** Replacing a character that does not occur changes nothing. */
  lemma ReplaceAbsent(s: string, from: char, to: char)
    requires from !in s
    ensures Replace(s, from, to) == s
  {
  }

  predicate IsUpper(c: char) { 'A' <= c <= 'Z' }

  /** ASCII lower case of one character. */
  function LowerChar(c: char): (r: char)
    ensures !IsUpper(r)
    ensures !IsUpper(c) ==> r == c
    ensures IsUpper(c) ==> r as int == c as int + 32
  {
    if IsUpper(c) then (c as int + 32) as char else c
  }

  /** text.h's `lowerCase`: ASCII upper-case letters become lower case. */
  function LowerCase(s: string): (r: string)
    ensures |r| == |s|
    ensures forall i :: 0 <= i < |s| ==> r[i] == LowerChar(s[i])
  {
    seq(|s|, i requires 0 <= i < |s| => LowerChar(s[i]))
  }

  lemma LowerCaseIdempotent(s: string)
    ensures LowerCase(LowerCase(s)) == LowerCase(s)
  {
  }

  /** A string without upper-case letters is its own lower case. */
  lemma LowerCaseOfLower(s: string)
    requires forall i :: 0 <= i < |s| ==> !IsUpper(s[i])
    ensures LowerCase(s) == s
  {
  }

  /** Lower-casing and replacing one non-letter by another commute. */
  lemma LowerCaseReplace(s: string, from: char, to: char)
    requires !IsUpper(from) && !('a' <= from <= 'z') && !IsUpper(to)
    ensures LowerCase(Replace(s, from, to)) == Replace(LowerCase(s), from, to)
  {
  }

  // ---------------------------------------------------------------------
  // Decimal numbers

  predicate IsDigit(c: char) { '0' <= c <= '9' }

  function DigitValue(c: char): nat
    requires IsDigit(c)
  {
    c as int - '0' as int
  }

  function DigitChar(n: nat): (c: char)
    requires n < 10
    ensures IsDigit(c) && DigitValue(c) == n
  {
    ('0' as int + n) as char
  }

  /** The longest run of digits at the start of `s`. */
  function LeadingDigits(s: string): (r: string)
    ensures r <= s
    ensures forall i :: 0 <= i < |r| ==> IsDigit(r[i])
    ensures |r| < |s| ==> !IsDigit(s[|r|])
  {
    if s == [] || !IsDigit(s[0]) then [] else [s[0]] + LeadingDigits(s[1..])
  }

  /** The number a string of decimal digits spells, most significant first. */
  function DigitsValue(ds: string): nat
    requires forall i :: 0 <= i < |ds| ==> IsDigit(ds[i])
  {
    if ds == [] then 0 else DigitsValue(ds[..|ds| - 1]) * 10 + DigitValue(ds[|ds| - 1])
  }

  /** The characters C's `isspace` accepts in the "C" locale. */
  predicate IsSpace(c: char)
  {
    c == ' ' || c == '\t' || c == '\n' || c == '\r' || c == '\U{0B}' || c == '\U{0C}'
  }

  function SkipSpace(s: string): (r: string)
    ensures r == [] || !IsSpace(r[0])
  {
    if s != [] && IsSpace(s[0]) then SkipSpace(s[1..]) else s
  }

  /** C's `atoi`: leading white space, an optional sign, then the longest run
      of digits; no digits give 0. The value is an unbounded integer. */
  function Atoi(s: string): int
  {
    var t := SkipSpace(s);
    if t != [] && t[0] == '-' then 0 - DigitsValue(LeadingDigits(t[1..]))
    else if t != [] && t[0] == '+' then DigitsValue(LeadingDigits(t[1..]))
    else DigitsValue(LeadingDigits(t))
  }

  /** What `operator<<` writes for a non-negative number: its decimal digits
      without leading zeros. */
  function NatToString(n: nat): (s: string)
    ensures s != []
    ensures forall i :: 0 <= i < |s| ==> IsDigit(s[i])
    ensures DigitsValue(s) == n
    ensures s[0] == '0' ==> n == 0 && |s| == 1
  {
    if n < 10 then [DigitChar(n)]
    else
      var s := NatToString(n / 10) + [DigitChar(n % 10)];
      assert s[..|s| - 1] == NatToString(n / 10);
      s
  }

  lemma {:induction false} LeadingDigitsAll(s: string)
    requires forall i :: 0 <= i < |s| ==> IsDigit(s[i])
    ensures LeadingDigits(s) == s
  {
    if s != [] {
      LeadingDigitsAll(s[1..]);
    }
  }

  /** `atoi` reads back what `operator<<` writes for a non-negative number. */
  lemma AtoiNatToString(n: nat)
    ensures Atoi(NatToString(n)) == n
  {
    var s := NatToString(n);
    assert !IsSpace(s[0]) && s[0] != '-' && s[0] != '+';
    LeadingDigitsAll(s);
  }

  /** `atoi` of a single character: its digit value, or 0 for anything else. */
  lemma AtoiChar(c: char)
    ensures Atoi([c]) == if IsDigit(c) then DigitValue(c) else 0
  {
    var s := [c];
    if IsSpace(c) {
      assert SkipSpace(s) == SkipSpace(s[1..]);
      assert s[1..] == [];
    } else if c == '-' || c == '+' {
      assert s[1..] == [];
    } else if IsDigit(c) {
      assert LeadingDigits(s) == [c] + LeadingDigits(s[1..]);
      assert s[1..] == [];
      assert [c][..0] == [];
    }
  }
}
