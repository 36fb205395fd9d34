# Wheel of names: the name pool

A Dafny model of the name pool behind the `WheelOfNames` class of the
wheel-of-names web page (`script.js`). The page keeps three lists and two
flags:

- `names` and `codes`: parallel lists, one name and one optional code per
  entry, in wedge order;
- `selectedNames`: integer positions of ticked entries;
- `spinning`: set while a spin is under way;
- `exactSpins`: the exact-spins checkbox.

The model covers the operations that change them:

- typing entries into the input box and adding them (`addName`);
- ticking and unticking an entry (`toggleNameSelection`);
- clearing everything (`clearAllNames`);
- starting a spin (`spinWheel`: its guard and the rotation it picks);
- ending a spin (`finishSpin`: which wedge wins, and removing the winner
  from the three lists).

The modules follow the structure of the code:

- `JsText`: the string primitives the parser uses, `trim` and `split` with
  one separator character. `Join` is the reference inverse of `split`.
- `JsArray`: the array primitives the class uses. These are element
  access (`undefined` out of range, modelled as `None`), `indexOf`,
  `splice(i, 1)` with its handling of negative and too-large positions, and
  `filter` with `!==`.
- `NameParsing`: how one line of input becomes a name and a code, and how
  the input text becomes lists of names and codes.
- `Selection`: ticking and unticking on the list of selected positions.
- `Winner`: the pointer angle, the wedge under it, exact mode and the
  selection override, on exact reals. `%` is JavaScript's remainder, whose
  sign follows the dividend.
- `Wheel`: the class `WheelOfNames`. Its fields are updated in place by
  methods with `modifies` frames. Each method states its new state through
  the functions of the other modules. Two scenario methods drive a wheel
  through several spins.

The model follows the code as written, including where a reader might
expect otherwise:

- Blank interior lines are not skipped. Each one becomes an entry with an
  empty name and an empty code, because the filter in `addName` is
  commented out (`MixedInput`, `BlankLineEntry`).
- The pieces between commas are not trimmed. Only the whole line is, so
  `"Carol , C3"` gives the name `"Carol "` and the code `" C3"`
  (`PaddedCommaLine`).
- A line with more than one comma keeps only the text up to the second
  comma as its code (`ParseLine`).
- After a winner is removed, the selected positions above it are not
  shifted down. A selected position can therefore point at a different
  entry or past the end of the list. When such a position is drawn later,
  one of two things happens. If it now points at another entry, that entry
  wins and is removed. If it points past the end, the winner is
  `undefined` and nothing is removed (`StaleSelectionScenario`).
- In exact mode with nothing selected, the winner is always position 0,
  whatever the pointer shows (`ExactModeIgnoresPointer`). A non-empty
  selection overrides exact mode as well.

`finishSpin` is modelled for every state the class can reach, including
calls with fewer than two names. With no names the wedge width `360 / 0`
is `Infinity`, so the computed index is 0.

Randomness enters as parameters:

- `random`, the value of `Math.random()` that sets the number of turns in
  random mode;
- `draw`, the position picked in the selection, which is
  `Math.floor(Math.random() * selectedNames.length)` in the page.

## Model

| member | source | states |
|---|---|---|
| JsText.TrimStart | script.js:78 | drops the leading whitespace of `trim`; characterised by `TrimStartSuffix` |
| JsText.TrimEnd | script.js:78 | drops the trailing whitespace of `trim`; characterised by `TrimEndPrefix` |
| JsText.Trim | script.js:78 | `s.trim()`, leading then trailing whitespace dropped; characterised by `TrimIsInfix`, `TrimEmptyIffBlank` and `TrimIdempotent` |
| JsText.TrimStartSuffix | script.js:78 | the result is the suffix of the text that starts at its first non-whitespace character; everything dropped is whitespace |
| JsText.TrimEndPrefix | script.js:78 | the result is the prefix of the text that ends at its last non-whitespace character; everything dropped is whitespace |
| JsText.TrimIsInfix | script.js:78 | `trim` keeps one contiguous stretch of the text, drops only whitespace on both sides, and the stretch neither starts nor ends with whitespace |
| JsText.TrimEmptyIffBlank | script.js:78-79 | the trimmed input is empty exactly when the input is whitespace only, which is when `addName` returns early |
| JsText.TrimIdempotent | script.js:82 | trimming a line that was already trimmed changes nothing |
| JsText.TrimUnchanged | script.js:78 | a text that neither starts nor ends with whitespace is its own trim |
| JsText.Split | script.js:82 | `s.split(sep)` with a one-character separator gives at least one piece; characterised by `SplitPieces`, `SplitCount` and `SplitJoin` |
| JsText.SplitPieces | script.js:82 | no piece of `split` contains the separator, and joining the pieces with the separator gives back the text |
| JsText.SplitCount | script.js:82 | `split` gives one piece per separator in the text, plus one |
| JsText.SplitNoSeparator | script.js:82 | a text without the separator splits into itself alone |
| JsText.SplitAtFirst | script.js:82 | splitting `a + sep + b`, with no separator in `a`, gives `a` followed by the pieces of `b` |
| JsText.SplitJoin | script.js:82 | splitting the join of separator-free pieces gives back those pieces, so `split` and `join` are inverse |
| JsText.SplitFirstPiece | script.js:82 | the first piece is the text before the first separator, or the whole text when there is none; there is one piece exactly when there is no separator |
| JsText.SplitSecondPiece | script.js:86 | the second piece starts right after the first separator and runs to the next separator or to the end |
| JsArray.At | script.js:319-320 | `a[i]`: the element at `i`, or `undefined` (`None`) when `i` is outside the list; used where `finishSpin` reads the winner and its code |
| JsArray.IndexOf | script.js:107 | the result is -1 exactly when the value is absent; otherwise it is the position of the first occurrence |
| JsArray.SpliceOne | script.js:330-331 | `splice(start, 1)` removes the element at `start` when it is in range, counts a negative `start` from the end and clamps it at 0, and removes nothing when `start` is at or past the end |
| JsArray.FilterOut | script.js:333-335 | filtering leaves no occurrence of the value and keeps every other value as often as it was there; a list without the value is returned unchanged |
| JsArray.FilterOutKeepsOrder | script.js:333-335 | the surviving elements keep their order; an element moves down by the number of removed occurrences before it |
| JsArray.FilterOutUnique | script.js:333-335 | on a list with no duplicates, filtering a value out is removing the one position that holds it |
| JsArray.FilterOutNoDuplicates | script.js:333-335 | filtering keeps a list free of duplicates |
| Selection.Select | script.js:100-104 | after ticking, the index is in the list; a list that already holds it is unchanged; the members are the old ones plus the index; the old list is a prefix; the list grows by at most one and never gains a duplicate |
| Selection.Deselect | script.js:105-111 | unticking an absent index changes nothing; unticking a present one shortens the list by one and keeps every other index; on a duplicate-free list the index is gone |
| Selection.SelectIdempotent | script.js:100-104 | ticking twice is ticking once |
| Selection.DeselectRemovesFirst | script.js:105-111 | unticking removes exactly the first occurrence and keeps the other indices in order |
| Selection.DeselectUndoesSelect | script.js:99-111 | unticking an index that was just ticked for the first time restores the list |
| Selection.SelectAfterDeselect | script.js:99-111 | on a duplicate-free list, unticking and ticking again gives the same members and length, with the index moved to the end |
| Selection.DeselectIsFilterOut | script.js:105-111 | on a duplicate-free list, unticking an index and the filter that removes a winner from the selection agree |
| NameParsing.FirstPiece | script.js:82 | `t.split(",")[0]`; placed in the text by `FirstTwoPieces` |
| NameParsing.SecondPiece | script.js:86 | `t.split(",")[1]`, or `""` when that piece is missing or empty; placed in the text by `FirstTwoPieces` |
| NameParsing.ParseName | script.js:82 | the name of a line, its trimmed text up to the first comma; characterised by `ParseLine` |
| NameParsing.ParseCode | script.js:86 | the code of a line, the trimmed text between its first and second comma or `""`; characterised by `ParseLine` |
| NameParsing.Lines | script.js:82-85 | `input.split("\n")` of the trimmed input |
| NameParsing.NamesOfLines | script.js:82 | the `map` of the line list: one name per line, the i-th from the i-th line |
| NameParsing.CodesOfLines | script.js:84-86 | the `map` of the line list: one code per line, the i-th from the i-th line |
| NameParsing.NamesOf | script.js:82 | `newNames` of `addName`; characterised by `EntriesPerLine` |
| NameParsing.CodesOf | script.js:84-86 | `codes` of `addName`; characterised by `EntriesPerLine` |
| NameParsing.ParseLine | script.js:82-86 | the name is the trimmed line up to its first comma, or all of it when there is none; the code lies between the first comma and the second comma or the end, and is empty when there is no comma; neither contains a comma |
| NameParsing.FirstTwoPieces | script.js:82-86 | the same positions of the first and second comma-separated pieces, for a line that is already trimmed |
| NameParsing.BlankLineEntry | script.js:82-86 | a whitespace-only line gives an empty name and an empty code; it is not skipped |
| NameParsing.ParseIgnoresSurroundingWhitespace | script.js:82-86 | whitespace around a line never reaches its name or its code |
| NameParsing.EntriesPerLine | script.js:82-86 | the input gives exactly one name and one code per newline plus one, in input order; the i-th name and code come from the i-th line; joining the lines gives back the text |
| NameParsing.EntriesOfLines | script.js:82-86 | lines without newlines, joined by newlines, parse line by line |
| NameParsing.PlainLine | script.js:82-86 | a line without commas or surrounding whitespace is a name with an empty code |
| NameParsing.CodedLine | script.js:82-86 | `name,code` with no whitespace at its two ends gives that name and that code |
| NameParsing.PaddedCommaLine | script.js:82-86 | spaces on both sides of the comma stay in the name and in the code |
| NameParsing.MixedInput | script.js:77-86 | a coded line, a plain line, a blank line and a line with a padded comma, plus a trailing space, give four entries: the blank line as an empty entry and the padding kept |
| NameParsing.PlainLines | script.js:82-86 | plain lines joined by newlines give those lines as names, each with an empty code |
| NameParsing.PlainInput | script.js:77-86 | plain lines typed one per line are not blank input and give those lines as names, each with an empty code |
| Winner.Trunc | script.js:312-313 | the integer part truncated toward zero that JavaScript's `%` divides by |
| Winner.Rem360 | script.js:312-313 | for a non-negative angle the remainder lies in [0, 360) and is the angle less its whole turns; for a negative angle it lies in (-360, 0] and is the angle plus its whole turns, so its sign follows the angle |
| Winner.PointerAngle | script.js:312-313 | `(270 + totalRotation % 360) % 360`, the angle under the pointer |
| Winner.GeometricIndex | script.js:314-318 | `Math.floor(pointerAngle / (360 / n))`, 0 with no names; characterised by `WedgeInRange`, `GeometricIndexInRange`, `GeometricIndexPeriodic` and `NegativeRotationGivesNegativeIndex` |
| Winner.ResolveWinner | script.js:312-327 | a non-empty selection gives its drawn member; otherwise exact mode gives 0 and random mode the wedge under the pointer; the result is an existing position when the rotation is non-negative, there is a name and every selected index is in range |
| Winner.WedgeInRange | script.js:314-318 | for an angle in [0, 360), `floor(p / (360 / n))` equals `floor(p * n / 360)` and is a wedge in [0, n) |
| Winner.GeometricIndexInRange | script.js:312-318 | a non-negative rotation with at least one name lands on a wedge in [0, n) |
| Winner.GeometricIndexPeriodic | script.js:312-318 | whole turns do not change the wedge: the rotation plus 360·k and the rotation modulo 360 give the same wedge as the rotation |
| Winner.FourWedges | script.js:312-318 | with four names, whole turns stop on the last wedge and a further quarter turn on the first |
| Winner.QuarterTurnGivesFirstWedge | script.js:312-318 | whole turns plus a quarter turn stop on wedge 0, whatever the number of names |
| Winner.ExactModeIgnoresPointer | script.js:278-318 | after the five turns of exact mode the pointer is over wedge `floor(3n / 4)`, which is never 0 once there are two names, while exact mode picks 0 |
| Winner.NegativeRotationGivesNegativeIndex | script.js:312-318 | a backward rotation can give a negative index: a rotation of -300 degrees on four names gives -1 |
| Wheel.WheelOfNames.constructor | script.js:2-32 | a new wheel has no names, codes or selection, and neither spins nor is in exact mode |
| Wheel.WheelOfNames.SetExactSpins | script.js:60-62 | the flag takes the checkbox value |
| Wheel.WheelOfNames.AddName | script.js:77-97 | input that is empty once trimmed changes nothing; otherwise one name and one code per line of the trimmed input are appended in order after the existing ones, and the two lists stay parallel; the selection and both flags are left alone |
| Wheel.WheelOfNames.ToggleNameSelection | script.js:99-113 | the selection becomes the ticked list (`Select`) or the unticked list (`Deselect`) of the old one, and stays free of duplicates |
| Wheel.WheelOfNames.ClearAllNames | script.js:115-118 | names, codes and selection are all empty |
| Wheel.WheelOfNames.SpinWheel | script.js:268-290 | a spin starts exactly when none is running and there are at least two names; it sets `spinning` and turns the wheel by 5 turns in exact mode or `5 + 3·random` turns otherwise, between 1800 and 2880 degrees |
| Wheel.WheelOfNames.FinishSpin | script.js:305-335 | `spinning` is cleared; the winner and its code are read at the resolved position before removal (`None` outside the lists); that position is spliced out of both lists and the index filtered out of the selection, the other selected indices unchanged |
| Wheel.WheelWithInput | script.js:77-97 | a fresh wheel after non-blank input holds that input's names and codes, with nothing selected |
| Wheel.WheelWithNames | script.js:77-97 | a fresh wheel after plain names typed one per line holds exactly those names |
| Wheel.WheelWithFourNames | script.js:77-97 | a fresh wheel after four plain names typed one per line holds exactly those four names, with nothing selected, not spinning and not in exact mode |
| Wheel.FourNamesScenario | script.js:268-335 | with four names and no selection, a five-turn spin wins the fourth name and a following five-and-a-quarter-turn spin wins the first |
| Wheel.FourNamesSteps | script.js:312-331 | the rotations, winners and removals the two spins of that scenario compute |
| Wheel.TickFirstAndThird | script.js:99-104 | ticking the first and then the third name of an unticked wheel gives the selection `[0, 2]` |
| Wheel.StaleSelectionScenario | script.js:305-335 | with the first and third of three names selected, the first spin wins the first name; the selection keeps index 2, which now points past the end; the second spin reports no winner and removes nothing |
| Wheel.StaleSelectionSteps | script.js:322-335 | the winners, removals and filtered selections the two spins of that scenario compute |

## Left out

- Canvas drawing (`drawWheel`): trigonometry and floating-point graphics with no effect on the lists.
- DOM rendering and controls: `updateNamesList`, `updateNamesTable`, `updateUI`, `toggleControls`, `showResult` and `hideResult`, the spin button's label, and clearing the input box after adding. These only display the state modelled here.
- Event wiring and `initializeElements`. `SetExactSpins` models only what the checkbox handler writes.
- Confetti: decoration with no state.
- `setTimeout`, the spin duration and the CSS animation variables. The timer only delays `finishSpin`; the scenarios call it directly with the angle `SpinWheel` returned.
- `console.log` calls: output only.
- `Math.random()`: it becomes the parameters `random` and `draw`.
- JavaScript number rounding: angles, `%` and `/` are exact reals, so the model does not capture float rounding of the rotation or the wedge width.
- String length in UTF-16 code units: strings are sequences of characters, so characters outside the basic plane count once rather than twice. Nothing in the modelled code depends on string lengths.
- Winner.GeometricIndexInRange: states the range only for non-negative rotations, the only ones `spinWheel` produces; `NegativeRotationGivesNegativeIndex` shows why.
- Winner.GeometricIndexPeriodic: states periodicity only for non-negative rotations, because the truncated remainder is not periodic across 0.
- Winner.ResolveWinner: the range bound also needs every selected index to be in range, because the code does not keep them so.
