# Taskwarrior's `Color` in Dafny

This project models `src/Color.cpp` from taskwarrior. That file is the terminal-colour value type used to paint task lists. A `Color` is one packed integer `value` that holds:

- a foreground index byte and a background index byte;
- the modifiers bright, bold and underline;
- a flag for 256-colour mode;
- two flags that say the foreground or the background is absent.

The operations on it are:

- the constructors: default, integer, spec string and components;
- `blend`, which merges another colour into this one;
- `colorize`, which wraps text in ANSI SGR escape sequences (ECMA-48, section 8.3.117, with the `38;5;N` and `48;5;N` 256-colour extension);
- `operator std::string`, `fg ()` and `bg ()`, which describe a colour in words;
- `operator int`;
- the `allColors` name table and `find`.

The packed integer is modelled as a record, `ColorBits.Packed`, with one field per part. `ColorBits.Pack` and `ColorBits.Unpack` convert between the record and the integer.

- The layout follows the code: foreground in bits 0-7, background in bits 8-15, bright in bit 16, bold in bit 17, underline in bit 18.
- `COLOR_256`, `COLOR_NOFG` and `COLOR_NOBG` are defined in `Color.h`, which is not part of this model. They are put at bits 19, 20 and 21. Some properties depend on that choice: the width bound of `operator int`, and the statements that the integer constructor's mask is the low 20 bits (`ColorClass.FromUnsigned`, `ColorBits.PackLow20`). Those hold because `COLOR_256` sits at bit 19, directly below the two "no colour" flags. `ColorClass.UnsignedOfPack` states the constructor's effect without reference to the positions.
- A palette word ORs its index into a byte without clearing the byte first. `ColorBits.Or` is that bitwise OR: `ColorBits.OrBinaryDigit` proves each binary digit of the result is set exactly when it is set in either operand. So `red blue` gives foreground 2|5 = 7.

## Modules

| file | module | what it covers |
|---|---|---|
| `wrappers.dfy` | `Wrappers` | `Result` for operations that throw |
| `text.dfy` | `Text` | `split`, `lowerCase`, `std::replace`, `atoi`, decimal formatting |
| `color_table.dfy` | `ColorTable` | `allColors`, `find`, the name lookup of `fg`/`bg` |
| `color_bits.dfy` | `ColorBits` | the packed value, bitwise OR, the integer encoding |
| `color_state.dfy` | `ColorState` | the state the spec loop carries, and one word's effect on it |
| `color_spec.dfy` | `ColorSpec` | the spec-string constructor, as functions and as the loop |
| `color_spec_laws.dfy` | `ColorSpecLaws` | errors, routing to the background, case and underscores |
| `color_blend.dfy` | `ColorBlend` | `blend` as a function, and its laws |
| `color_render.dfy` | `ColorRender` | `colorize`, `fg`, `bg`, `operator std::string` |
| `color_roundtrip.dfy` | `ColorRoundTrip` | a description parses back to its colour |
| `color_examples.dfy` | `ColorExamples` | worked specs and escape sequences |
| `color.dfy` | `ColorClass` | `class Color` with the source's methods, the integer and component constructors |

The operations that change `value` step by step are methods of `ColorClass.Color`, each proved equal to the function that specifies it. These are the constructors and `blend`. `colorize` only reads `value`; its output is built by a method, `ColorClass.Color.Colorize`, proved equal to `ColorRender.Render`. The spec constructor's loop is `ColorSpec.ParseSpec`, and `ColorClass.Color.FromSpec` wraps it. The read-only searches `find`, `fg` and `bg` are functions, with the loops of the source as methods beside them.

Where the code and its comments disagree, the model follows the code:

- Red has table index 2, so `red` renders as parameter 31 and `on bright red` as 101.
- The comment above `colorize` (src/Color.cpp:369-380) lists `bold red` as `91`. The code writes bold as its own parameter, which gives `1;31`. `ColorExamples.RenderBoldRed` states this.
- The comment on the table's `index` column (src/Color.cpp:41) says red is 3. The table gives 2.

## Model

| member | source | states |
|---|---|---|
| Text.Split | src/Color.cpp:102-104 | The words contain no delimiter, an empty spec has no words, and joining the words with the delimiter gives the text back |
| Text.SplitJoin | src/Color.cpp:102-104 | Splitting a join of delimiter-free words gives those words back |
| Text.FieldsJoin | src/Color.cpp:102-104 | Splitting a non-empty join of delimiter-free words keeps empty words and returns the list |
| Text.Fields | src/Color.cpp:102-104 | Definition of `split` at every delimiter, keeping empty words. `Split`, `SplitJoin` and `FieldsJoin` state its properties |
| Text.Replace | src/Color.cpp:99-100 | Every `_` becomes a space and every other character is kept, position by position |
| Text.LowerCase | src/Color.cpp:112 | Only the ASCII capitals change, each to its lower-case letter |
| Text.LowerCaseIdempotent | src/Color.cpp:112 | Lower-casing twice is lower-casing once |
| Text.LowerCaseReplace | src/Color.cpp:100-112 | Replacing underscores and lower-casing commute |
| Text.NatToString | src/Color.cpp:396-399 | A number is written as a non-empty run of digits whose value is the number, with no leading zero |
| Text.AtoiNatToString | src/Color.cpp:152 | `atoi` reads back the decimal text of any natural number |
| Text.Atoi | src/Color.cpp:152-204 | Definition of `atoi`: leading white space, an optional sign, then the longest run of digits read as a decimal number, 0 when there are none. `AtoiNatToString` and `AtoiChar` state its properties |
| Text.AtoiChar | src/Color.cpp:178-180 | `atoi` of one character is its digit value, or 0 for a non-digit |
| ColorTable.Ordinal | src/Color.cpp:36-55 | A `color_id`'s number is the table row that holds it |
| ColorTable.TableShape | src/Color.cpp:45-53 | Each row's index is its position, and every row but `nocolor` has a name of at least 3 letters |
| ColorTable.Find | src/Color.cpp:446-453 | The first row with that name, or -1 exactly when no row has it |
| ColorTable.NameOf | src/Color.cpp:471-476 | The name of the row with that index, or empty for an index outside the table |
| ColorTable.NameOfFind | src/Color.cpp:446-453 | Naming the index `find` returns gives the searched name back |
| ColorTable.FindNameOf | src/Color.cpp:446-453 | Finding the name of a row gives the row back |
| ColorTable.NamesHaveNoDigits | src/Color.cpp:45-53 | No word with a digit is a table name |
| ColorBits.Or | src/Color.cpp:139-144 | Its result is at least each operand and at most their sum. `OrBinaryDigit` states that it is bitwise OR |
| ColorBits.OrBinaryDigit | src/Color.cpp:139-144 | Binary digit k of the OR is set exactly when digit k is set in either operand |
| ColorBits.OrByte | src/Color.cpp:139-144 | Bitwise OR of two bytes is a byte, and ORing with 0 gives the other operand |
| ColorBits.OrBelow | src/Color.cpp:139-144 | OR of two numbers below a power of two stays below it |
| ColorBits.OrSelf | src/Color.cpp:139-144 | ORing a number into itself changes nothing |
| ColorBits.Pack | src/Color.cpp:287-290 | The integer of a value is below 2^22 |
| ColorBits.UnpackPack | src/Color.cpp:287-290 | Reading the fields of a value's integer gives the value back |
| ColorBits.Unpack | src/Color.cpp:383-432 | Definition of the bit tests `value & COLOR_...`. `UnpackPack` and `PackUnpack` state that it inverts `Pack` |
| ColorBits.PackUnpack | src/Color.cpp:72-80 | Re-encoding the fields read from an integer gives its low 22 bits |
| ColorBits.PackLow20 | src/Color.cpp:78-79 | With the flag positions chosen here, the low 20 bits of a value's integer keep every field but the two "no colour" flags |
| ColorBits.PackZero | src/Color.cpp:383 | A value's integer is 0 exactly when the value is all zero |
| ColorState.Put | src/Color.cpp:136-145 | A palette index is ORed into the selected byte, that colour becomes present, and nothing else changes |
| ColorState.PutIndex | src/Color.cpp:136-145 | The clear-flag-then-OR steps compute `Put` |
| ColorState.Apply | src/Color.cpp:114-131 | After a word the background is selected exactly when it was already selected or the word is `on` |
| ColorState.ApplyKeeps | src/Color.cpp:114-219 | No word clears a modifier or makes a present colour absent |
| ColorState.ApplyMode | src/Color.cpp:114-219 | `bold` and `bright` leave 256-colour mode, grey/rgb/color words enter it, and other words leave the mode alone |
| ColorState.ApplyColours | src/Color.cpp:114-219 | A palette index lands only in the selected colour, and every other word changes only its own bit |
| ColorSpec.Words | src/Color.cpp:99-104 | No word of a spec contains a space or an underscore |
| ColorSpec.PrefixesExclusive | src/Color.cpp:149-202 | The grey, rgb and color prefixes exclude each other and every keyword |
| ColorSpec.Accepted | src/Color.cpp:112-222 | The words the constructor accepts: keywords, table names, and well-formed grey, rgb and color words. `Classify` and `Step` are stated against it |
| ColorSpec.Classify | src/Color.cpp:112-222 | A lower-cased word is rejected exactly when it is not one the constructor accepts |
| ColorSpec.ClassifyKeyword | src/Color.cpp:114-131 | `bold`, `bright`, `underline` and `on` each make their own token |
| ColorSpec.ClassifyName | src/Color.cpp:134-146 | A table name gives its position as a 16-colour index |
| ColorSpec.ClassifyGrey | src/Color.cpp:149-167 | `greyN`/`grayN` gives index 232+N in 256-colour mode when 0 <= N <= 23, and is rejected otherwise |
| ColorSpec.ClassifyRgb | src/Color.cpp:171-199 | An `rgbRGB` word of length 6 whose suffix is at most 555 gives 16+36R+6G+B in 256-colour mode when every digit is at most 5, and is rejected otherwise |
| ColorSpec.ClassifyColor | src/Color.cpp:202-220 | `colorN` gives index N in 256-colour mode when 0 <= N <= 255, and is rejected otherwise |
| ColorSpec.Step | src/Color.cpp:110-222 | A word fails exactly when its lower case is not accepted, the error names it as written, and otherwise the background flag is set by `on` |
| ColorSpec.FoldAccept | src/Color.cpp:110-111 | An accepted word moves the loop on to the next word with its effect applied |
| ColorSpec.FoldReject | src/Color.cpp:221-222 | A rejected word ends the loop with its error |
| ColorSpec.Fold | src/Color.cpp:110-222 | Definition of the word loop. `FoldAccept`, `FoldReject`, `FoldError`, `FoldAppend` and `FoldTarget` state its properties |
| ColorSpec.Parse | src/Color.cpp:94-224 | Definition of the spec constructor. `ParseSpec`, `ParseError`, `ParseLowerCase`, `ParseUnderscore` and `ParseDescribe` state its properties |
| ColorSpec.TakeWord | src/Color.cpp:112-222 | One pass of the loop body accepts exactly the accepted words and makes the change `Apply` describes |
| ColorSpec.TakePaletteWord | src/Color.cpp:148-222 | The grey, rgb and color branches accept exactly the accepted words and make the change `Apply` describes |
| ColorSpec.ParseSpec | src/Color.cpp:94-224 | The constructor's loop over the words returns the value or the first error that `Parse` defines |
| ColorSpecLaws.FirstRejected | src/Color.cpp:110-222 | Every word before the position is accepted, and the word at it, if any, is not |
| ColorSpecLaws.FoldError | src/Color.cpp:110-222 | A run of words fails exactly when some word is rejected, and the error names the first rejected word |
| ColorSpecLaws.ParseError | src/Color.cpp:110-222 | A spec throws exactly when one of its words is not understood, with the message naming the first such word as written, underscores already replaced |
| ColorSpecLaws.FoldAppend | src/Color.cpp:110-111 | Words are consumed left to right: a split run is its first part, then the rest from that state |
| ColorSpecLaws.FoldCons | src/Color.cpp:110-111 | One step of a non-empty run |
| ColorSpecLaws.FoldTarget | src/Color.cpp:106 | After a run, the background is selected exactly when it was before or some word was `on` |
| ColorSpecLaws.PaletteRouting | src/Color.cpp:128-219 | A palette word goes to the background exactly when an earlier word was `on`. Its index is ORed into that byte, the colour becomes present, and 256-colour mode is set for grey, rgb and color words |
| ColorSpecLaws.LowerAll | src/Color.cpp:112 | Each word is replaced by its lower case |
| ColorSpecLaws.LowerJoin | src/Color.cpp:112 | Lower-casing a joined text lower-cases each word |
| ColorSpecLaws.WordsLowerCase | src/Color.cpp:99-112 | The words of a lower-cased spec are the lower-cased words |
| ColorSpecLaws.FoldLowerAll | src/Color.cpp:112 | A run and its lower-cased copy succeed together and then build the same value |
| ColorSpecLaws.ParseLowerCase | src/Color.cpp:112 | Case does not matter: a spec and its lower case succeed together and give the same colour |
| ColorSpecLaws.ParseUnderscore | src/Color.cpp:98-100 | An underscore separates words exactly as a space does |
| ColorBlend.Overlay | src/Color.cpp:301-313 | Definition of taking the other colour's present colours. `BlendSameMode` states its effect |
| ColorBlend.Upgrade | src/Color.cpp:342-348 | Definition of the 16-to-256 upgrade. `BlendUpgrade` states its effect |
| ColorBlend.Merge | src/Color.cpp:298-363 | Definition of the three mode cases of `blend`. The `Blend...` lemmas below state its effect |
| ColorBlend.Blend | src/Color.cpp:295-366 | Definition of `blend` of another colour: underline is ORed, then the mode cases. `BlendIdempotent`, `BlendDefault` and `BlendCopy` are its laws |
| ColorBlend.BlendUnderlineMode | src/Color.cpp:295-365 | Underline is the OR of both sides, and 256-colour mode is set when either side has it |
| ColorBlend.BlendSameMode | src/Color.cpp:298-336 | In the same mode, each colour the overlay has replaces the base's and is present, and each it lacks is the base's |
| ColorBlend.BlendModifiers | src/Color.cpp:298-322 | 256 with 256 keeps the base's bold and bright, and 16 with 16 ORs them |
| ColorBlend.BlendKeeps256 | src/Color.cpp:295-365 | A 256-colour base under a 16-colour overlay changes only by ORing in underline |
| ColorBlend.BlendUpgrade | src/Color.cpp:338-363 | A 16-colour base under a 256-colour overlay loses bold and bright, and its colours are exactly the overlay's |
| ColorBlend.BlendIdempotent | src/Color.cpp:295-366 | Blending the same overlay twice equals blending it once |
| ColorBlend.BlendDefault | src/Color.cpp:60-61 | Blending in the default colour, which has no colours and no modifiers, changes nothing |
| ColorBlend.BlendCopy | src/Color.cpp:295-366 | Blending an equal copy of a value into it changes nothing |
| ColorBlend.SelfBlend | src/Color.cpp:301-333 | Blending an object into itself keeps every flag and zeroes the present colours' bytes |
| ColorBlend.SelfBlendDiffers | src/Color.cpp:301-333 | So self-blend differs from blending an equal copy whenever a present colour byte is non-zero |
| ColorRender.Params16 | src/Color.cpp:403-432 | Definition of the 16-colour parameters in order bold, underline, background, foreground. `Params16Count` states its length |
| ColorRender.Codes | src/Color.cpp:386-432 | Definition of the escape sequences of both modes. `Render256IgnoresModifiers` states one law |
| ColorRender.Render | src/Color.cpp:381-436 | Definition of `colorize`. `RenderIdentity` states when text comes back unchanged |
| ColorRender.FgName | src/Color.cpp:456-477 | Definition of `fg ()`. `ClassifyFgName` states that it reads back |
| ColorRender.BgName | src/Color.cpp:480-501 | Definition of `bg ()`. `ClassifyBgName` states that it reads back |
| ColorRender.Describe | src/Color.cpp:262-284 | Definition of `operator std::string`. `DescribeJoin` and `ParseDescribe` state its properties |
| ColorRender.RenderIdentity | src/Color.cpp:381-436 | The text comes back unchanged exactly for the all-zero value, and otherwise it is wrapped in the codes and the reset |
| ColorRender.Render256IgnoresModifiers | src/Color.cpp:390-400 | In 256-colour mode bold and bright make no difference to the codes |
| ColorRender.Params16Count | src/Color.cpp:403-432 | The 16-colour sequence has one parameter per set property |
| ColorRoundTrip.Canonical | src/Color.cpp:262-284 | The values the round trip is stated for: no byte set for an absent colour, bright only with a background, some colour present in 256-colour mode, and in 16-colour mode a foreground from 1 to 8 and a background up to 8 |
| ColorRoundTrip.ClassifyFgName | src/Color.cpp:456-477 | The foreground name of a canonical value is a word the spec constructor reads back as that foreground |
| ColorRoundTrip.ClassifyBgName | src/Color.cpp:480-501 | The background name of a canonical value is read back as that background |
| ColorRoundTrip.NameNotKeyword | src/Color.cpp:45-53 | No table name is a modifier keyword |
| ColorRoundTrip.DescribeJoin | src/Color.cpp:262-284 | The description is its words joined by spaces |
| ColorRoundTrip.WordsOfDescribe | src/Color.cpp:262-284 | The constructor splits a canonical description back into exactly its words |
| ColorRoundTrip.FoldDescribe | src/Color.cpp:262-284 | The words of a canonical description rebuild the value |
| ColorRoundTrip.ParseDescribe | src/Color.cpp:262-284 | For every canonical value, the spec constructor applied to `operator std::string` gives the value back. Canonical is sufficient, not necessary |
| ColorExamples.ParseTwoNames | src/Color.cpp:134-146 | Two table names in a row OR their positions into the foreground |
| ColorExamples.ParseOneName | src/Color.cpp:456-477 | A single basic name parses to that foreground, and `fg ()` returns the name |
| ColorExamples.ParseRedBlue | src/Color.cpp:134-146 | `red blue` has foreground 2\|5 = 7 |
| ColorExamples.ParseWhiteRed | src/Color.cpp:134-146 | `white red` has foreground 8\|2 = 10 |
| ColorExamples.DescribeTen | src/Color.cpp:262-284 | Foreground 10 has no name, so its description is empty |
| ColorExamples.BrightForegroundNotRoundTrip | src/Color.cpp:262-284 | A bright foreground-only red describes as `red`, which parses back without bright, so the round trip fails outside canonical values |
| ColorExamples.ParseBoldRed | src/Color.cpp:114-146 | `bold red` is foreground 2 with bold |
| ColorExamples.ParseOnBrightRed | src/Color.cpp:114-146 | `on bright red` is background 2 with bright |
| ColorExamples.ParseRed | src/Color.cpp:134-146 | `red` is foreground 2 |
| ColorExamples.RenderRed | src/Color.cpp:403-434 | `red` renders as ESC `[31m`, the text and the reset |
| ColorExamples.RenderBoldRed | src/Color.cpp:369-434 | `bold red` parses to foreground 2 with bold, which renders as `1;31` |
| ColorExamples.RenderOnBrightRed | src/Color.cpp:114-434 | `on bright red` parses to background 2 with bright, which renders as `101` |
| ColorExamples.ParseColor200 | src/Color.cpp:202-220 | `color200` is foreground 200 in 256-colour mode |
| ColorExamples.RenderColor200 | src/Color.cpp:390-400 | That colour renders as one `38;5;200` sequence |
| ColorExamples.RenderDefault | src/Color.cpp:60-61 | The default colour is not zero and wraps text in ESC `[m` and the reset |
| ColorClass.FromUnsigned | src/Color.cpp:72-80 | With the flag positions chosen here, the integer constructor's mask is the low 20 bits of its argument, and both colours come out present |
| ColorClass.UnsignedIdempotent | src/Color.cpp:72-80 | Re-wrapping `int (Color (c))` gives the same colour |
| ColorClass.UnsignedOfPack | src/Color.cpp:72-80 | Wrapping a value's integer loses exactly the two "no colour" flags |
| ColorClass.UnsignedLosesAbsence | src/Color.cpp:72-80 | `Color (int (Color ()))` is all zero and leaves text alone, where `Color ()` does not |
| ColorClass.FromInt | src/Color.cpp:72-80 | The corrected integer constructor keeps all 22 bits |
| ColorClass.IntRoundTrip | src/Color.cpp:72-80 | With the flags kept, every value survives the trip through its integer |
| ColorClass.Components | src/Color.cpp:226-246 | As written: both colours present, indices equal to the table rows, modifiers as given |
| ColorClass.ComponentsIntended | src/Color.cpp:226-246 | Corrected: a colour given as `nocolor` is absent |
| ColorClass.ComponentsIntendedRoundTrip | src/Color.cpp:226-246 | The corrected component colour parses back from its own description |
| ColorClass.ComponentsNoBackground | src/Color.cpp:226-246 | As written, red on `nocolor` renders `39;31` and describes as `red on `. The corrected version renders `31` and describes as `red` |
| ColorClass.Color.constructor | src/Color.cpp:60-63 | The default colour has no colours and no modifiers |
| ColorClass.Color.FromBits | src/Color.cpp:72-80 | The staged assignments leave the value of `FromUnsigned` |
| ColorClass.Color.FromComponents | src/Color.cpp:226-246 | The staged assignments leave the value of `Components` |
| ColorClass.Color.FromSpec | src/Color.cpp:94-224 | A fresh colour holding the parsed value is made exactly when parsing succeeds, and otherwise the error message is returned |
| ColorClass.Color.AsInt | src/Color.cpp:287-290 | `operator int` is below 2^22 and holds every field of the value |
| ColorClass.Color.TakeBackground | src/Color.cpp:301-306 | Takes another object's background. When the other object is this one, the byte is cleared |
| ColorClass.Color.TakeForeground | src/Color.cpp:308-313 | Takes another object's foreground. When the other object is this one, the byte is cleared |
| ColorClass.Color.Merge256 | src/Color.cpp:298-313 | The 256/256 case is the overlay |
| ColorClass.Color.Merge16 | src/Color.cpp:316-336 | The 16/16 case inherits bold and bright, then overlays |
| ColorClass.Color.Upgrade | src/Color.cpp:342-348 | Sets 256-colour mode, clears bold and bright, and leaves both colours absent and zero |
| ColorClass.Color.MergeUpgrade | src/Color.cpp:338-363 | The 16/256 case upgrades, then overlays |
| ColorClass.Color.Blend | src/Color.cpp:295-366 | For another object the new value is `ColorBlend.Blend` of the old values, and for this object it is `SelfBlend` |
| ColorClass.Color.AddParam | src/Color.cpp:405-428 | Each parameter comes after a `;` unless it is the first |
| ColorClass.Color.Codes16 | src/Color.cpp:403-432 | The counted sequence is ESC `[`, the parameters joined by `;`, then `m` |
| ColorClass.Color.Codes256 | src/Color.cpp:390-400 | The 256-colour sequences are underline, foreground, then background |
| ColorClass.Color.Colorize | src/Color.cpp:381-436 | The rendered text of the value |
| ColorClass.Color.ColorizeSpec | src/Color.cpp:439-443 | Parses the spec and then colorizes, or returns the spec's error |
| ColorClass.Color.FindName | src/Color.cpp:446-453 | The search loop returns `Find` |
| ColorClass.Color.NameOfIndex | src/Color.cpp:471-474 | The name loop returns `NameOf` |
| ColorClass.Color.Fg | src/Color.cpp:456-477 | `fg ()` gives `colorN` for a present 256-colour foreground, nothing for an absent one, and the table name in 16-colour mode |
| ColorClass.Color.Bg | src/Color.cpp:480-501 | `bg ()`, the same for the background |
| ColorClass.Color.Description | src/Color.cpp:262-284 | `operator std::string` builds `Describe` of the value |

## Left out

- The copy constructor, `operator=` and the destructor (src/Color.cpp:66-69, 248-259) only copy the value and are not modelled.
- The `string_id` column of `allColors` is unused and is not modelled.
- `atoi` is modelled on unbounded integers. C's overflow on very long digit runs is undefined and is not modelled.
- `Color.h` is not part of this model. The bits of `COLOR_256`, `COLOR_NOFG` and `COLOR_NOBG` are chosen (19, 20, 21), and `color_id` is taken as the table's row order, 0 to 8.
- ColorClass.Color.AsInt: the C++ cast to `int` is the identity because every value is below 2^22, so the cast is not modelled.
- ColorClass.Color.FromBits: `unsigned int` is modelled as a natural number below 2^32.
- Stream output is modelled as string concatenation plus decimal formatting of natural numbers.
- Whether a terminal supports or honours the escape sequences is outside this file.
- `text.h` is not part of this model. `split` and `lowerCase` are small definitions here: split at every space, keeping empty words, with no words for an empty spec; and ASCII lower case.
- ColorClass.Color.FromSpec: the thrown `std::string` is modelled as an `Err` result, and no object is made in that case.
- ColorRoundTrip.ParseDescribe: the round trip is stated for canonical values only. `operator std::string` writes `bright` only inside the background part (src/Color.cpp:273-281), and writes nothing for a 16-colour index without a table name: foreground 10, from `white red`, or foreground 200 after `color200 bold`, where `bold` leaves 256-colour mode. Such values describe as text that parses to a different colour; `ColorExamples.BrightForegroundNotRoundTrip` and `ColorExamples.DescribeTen` show two of them.
- Strings are modelled as sequences of characters, while `std::string` counts bytes. The rgb test `word.length () != 6` and the `substr` calls at src/Color.cpp:174-180 therefore agree with the model on ASCII words only: `rgbé1` is six bytes in UTF-8, so the code accepts it (as index 17), but it has five characters and the model rejects it.
- ColorClass.Color.Blend: for `other` the same object, the model gives what the code does when it reads the colour byte after clearing it. It does not say that this case was meant.

## Findings

The class constructors `ColorClass.Color.FromBits` and `ColorClass.Color.FromComponents` follow the code as written. The corrected definitions beside them carry the property the code evidently aims at.

| source | as written | input that shows it | evidently intended | confidence | as-written member | corrected member |
|---|---|---|---|---|---|---|
| src/Color.cpp:72-80 | Line 78 assigns the masked argument over the initial "no colour" flags, and the mask leaves out `COLOR_NOFG`/`COLOR_NOBG`. So every colour built from an integer has both colours present. | `Color (int (Color ()))` renders text unchanged, while `Color ()` wraps it in ESC `[m` and the reset | An integer taken with `operator int` rebuilds the same colour | not executed; medium | ColorClass.UnsignedLosesAbsence | ColorClass.IntRoundTrip |
| src/Color.cpp:226-246 | Line 230 assigns the modifier bits over the initial `COLOR_NOFG \| COLOR_NOBG`. So a colour given as `nocolor` is still present, with index 0. | `Color (red, nocolor, false, false, false)` renders ESC `[39;31m` and describes itself as `red on ` | `nocolor` leaves that colour absent: ESC `[31m` and `red` | not executed; high | ColorClass.ComponentsNoBackground | ColorClass.ComponentsIntended |
