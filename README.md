# SvgDecoder, modelled in Dafny

This project models the SVG engine of the animated wallpaper: the class
`SvgDecoder` in `src/com/android/mm3/wallpaper/animated/SvgDecoder.java`.
It covers:

- the parser that turns an XML event stream into a tree of SVG elements,
  with the `tags` whitelist, `skip`, `parseAttrs`, `parseElements` and
  `getElementByTag`;
- the number scanner `ParserHelper` (`parseFloat`, `buildFloat`,
  `nextFloat` and the skipping helpers);
- the splitter `parseNumbers`, the path interpreter `parsePath` and the
  transform parser `parseTransform` / `parseTransformItem`;
- the style machinery: `StyleSet`, `getStyleAttr`, `attrToFloat` and
  `getFloatAttr`;
- the colour logic: the fill and stroke paints, `hex3Tohex6`, `getColor`,
  the stop colour and the keyword table;
- the document root: `setBounds`, the searches behind `getElementById`,
  `getGradientRefById` and `getGradientById`, and `getDelay` with
  `searchAnimation`;
- `init` of every element class, including linear and radial gradients
  and `Gradient.createChild`;
- the `draw` traversal, which records the Canvas calls;
- the decoder's own `getWidth`, `getHeight`, `getScale`, `setScale`,
  `setScaling`, `parse` and `draw`.

## How it is modelled

- **Floats.** A Java `float` is `Float`: NaN, the two infinities, or an
  exact real. Arithmetic is exact. Overflow to an infinity and underflow to
  zero are modelled (`ToFloat`); rounding to 24 bits is not.
- **Colours.** An ARGB colour is a `bv32`. Java's `int` casts,
  `Math.round` and `<< 24` are written out.
- **Float.parseFloat** is a parameter `parse: string -> Option<Float>`.
  `JavaNumbers.JavaParseFloat` is one concrete instance, used where a
  property depends on what parseFloat rejects.
- **Matrices and paths.**
  - An `android.graphics.Matrix` is the sequence of factors
    pre-concatenated onto it. The factors are `Affine`, `Translate`,
    `Scale`, `SkewX`, `SkewY` and `Rotate`.
  - An `android.graphics.Path` is the sequence of calls made on it.
    `drawArc` becomes one `Arc` operation.
  - `Path.computeBounds` is the parameter `Env.pathBounds`.
- **The element tree.** It is an arena `seq<Node>`. Node 0 is the root
  `svg` element. A node records its tag, its class, its parent, its
  children and its attribute map.
- **Element fields.** The fields `init` sets on each element are a
  `Derived` value per node. Together with the root's box they form a
  `Pass`.
- **Functional specification.** `init` and `draw` are recursive functions
  over the arena: `InitNode`/`InitKids` and `DrawNode`/`DrawKids`.
  `parseElements` is specified by `Elements`/`Scan`.
- **Imperative code.** The class `Decoding.Decoder` holds the decoder's
  state: the nodes, their fields, the box, the animation vector, the scale
  and the scaling flag. Its methods are proved to compute exactly those
  functions, loop by loop.
- **The canvas.** `Drawing.Canvas` is a class holding the list of calls
  recorded on it. The draw methods (`Drawing.DrawElement` and its helpers)
  read the arena and its fields and append to that list; they are proved
  to record exactly `DrawNode`'s calls.
- **ParserHelper.** `Tokenizer.ParserHelper` is a class over the text
  and its cursor. Its loops are proved against the scanner function
  `Lex`.
- **Exceptions.** Java exceptions are the `Err` side of `Result`. The
  cases are: `UnexpectedChar` (the RuntimeException of
  `reportUnexpectedCharacterError`), `NumberFormat`, `IndexOutOfBounds`,
  `NullPointer` (unboxing a null `Float`) and `Structural` (the XML
  parser's own exceptions, and `skip`'s IllegalStateException).

Where the code and its documentation differ, the model follows the code:

- `SVG.init` never resets the root's box, so a second `init` (after
  `setScaling`) keeps the old extremes.
- `skewX`/`skewY` take the tangent of the raw value, read as radians.
- Every number of a transform, angles and scale factors included, is
  multiplied by `getScale()` in `parseNumbers`.
- A polyline splits the literal text `"points"`, so a polyline with points
  always throws (`Figures.PolylineAlwaysThrows`).
- The fill keyword lookup is case-sensitive. `getColor` (stops) ignores
  case for its seven keywords and does not expand `#rgb`.
- A stop's opacity is OR-ed into its colour.
- `createChild` is applied twice, so a linked gradient gets the referenced
  transform twice (`Document.LookupRepeatsTransform`).
- A rectangle reports the box `(x, y, x + width, y + width)`.

## Model

| member | source | states |
|---|---|---|
| Floats.BuildFloat | src/com/android/mm3/wallpaper/animated/SvgDecoder.java:2374-2394 | 0 for an exponent below -125 or a zero mantissa; an infinity of the mantissa's sign from exponent 128; the mantissa itself at exponent 0; never NaN |
| Tokenizer.ParserHelper.constructor | src/com/android/mm3/wallpaper/animated/SvgDecoder.java:2140-2145 | the helper holds the text and starts at the given position, which must hold a character |
| Tokenizer.ParserHelper.Read | src/com/android/mm3/wallpaper/animated/SvgDecoder.java:2147-2156 | the cursor moves one step unless at the end; the answer is the character now under it, '\0' at the end |
| Tokenizer.ParserHelper.Advance | src/com/android/mm3/wallpaper/animated/SvgDecoder.java:2184-2186 | one step forward unless at the end |
| Tokenizer.ParserHelper.SkipWhitespace | src/com/android/mm3/wallpaper/animated/SvgDecoder.java:2158-2166 | the cursor ends at the first non-whitespace position, every character passed being whitespace |
| Tokenizer.ParserHelper.SkipNumberSeparator | src/com/android/mm3/wallpaper/animated/SvgDecoder.java:2168-2182 | the cursor ends after the run of space, comma, newline and tab |
| Tokenizer.ParserHelper.SkipZeros | src/com/android/mm3/wallpaper/animated/SvgDecoder.java:2217-2231 | the loop over leading zeros ends at the first character that is not '0' |
| Tokenizer.ParserHelper.ReadDigits | src/com/android/mm3/wallpaper/animated/SvgDecoder.java:2236-2250 | the digit loop leaves the mantissa DigitsFrom computes; kept plus dropped digits equal the digits read |
| Tokenizer.ParserHelper.ParseFloat | src/com/android/mm3/wallpaper/animated/SvgDecoder.java:2191-2364 | parseFloat returns the value, error and end position of the scanner ScanFloat |
| Tokenizer.ParserHelper.ParseFraction | src/com/android/mm3/wallpaper/animated/SvgDecoder.java:2253-2299 | the fraction code computes LexFraction's outcome |
| Tokenizer.ParserHelper.ParseFractionZeros | src/com/android/mm3/wallpaper/animated/SvgDecoder.java:2264-2281 | the leading-zero loop of the fraction computes LexFractionZeros's outcome |
| Tokenizer.ParserHelper.ParseExponent | src/com/android/mm3/wallpaper/animated/SvgDecoder.java:2301-2364 | the exponent code and buildFloat compute LexExponent's outcome |
| Tokenizer.ParserHelper.ParseExponentDigits | src/com/android/mm3/wallpaper/animated/SvgDecoder.java:2302-2364 | the exponent's sign and digits, from the marker, compute LexExponent's outcome |
| Tokenizer.ParserHelper.ReadExponentDigits | src/com/android/mm3/wallpaper/animated/SvgDecoder.java:2323-2351 | the exponent digit loops compute ExponentDigits: leading zeros skipped, at most three digits counted |
| Tokenizer.ParserHelper.NextFloat | src/com/android/mm3/wallpaper/animated/SvgDecoder.java:2407-2413 | nextFloat returns NextFloatSpec: whitespace skipped, a float scanned and scaled, separators skipped |
| Tokenizer.WhitespaceEnd | src/com/android/mm3/wallpaper/animated/SvgDecoder.java:2158-2166 | the end of the whitespace run: everything before it is whitespace, the character at it is not |
| Tokenizer.SeparatorEnd | src/com/android/mm3/wallpaper/animated/SvgDecoder.java:2168-2182 | the end of the separator run: everything before it is a separator, the character at it is not |
| Tokenizer.PushRangeKeepsPrefix | src/com/android/mm3/wallpaper/animated/SvgDecoder.java:2236-2250 | a run of digits offered to an empty mantissa keeps exactly its first min(n, cap) digits as the value |
| Tokenizer.PushRangeGrows | src/com/android/mm3/wallpaper/animated/SvgDecoder.java:2237-2242 | digits kept never exceed the cap and the value stays below 10 to the number of digits |
| Tokenizer.DigitsFrom | src/com/android/mm3/wallpaper/animated/SvgDecoder.java:2236-2250 | the run ends at the first non-digit |
| Tokenizer.ExponentDigits | src/com/android/mm3/wallpaper/animated/SvgDecoder.java:2323-2351 | the end position lies within the text, after the start |
| Tokenizer.Lex | src/com/android/mm3/wallpaper/animated/SvgDecoder.java:2191-2299 | the scan ends within the text, at or after its start |
| Tokenizer.LexExponent | src/com/android/mm3/wallpaper/animated/SvgDecoder.java:2301-2351 | the exponent part yields a number or an unexpected character, ending within the text |
| Tokenizer.LexExponentAbsent | src/com/android/mm3/wallpaper/animated/SvgDecoder.java:2301-2354 | without an 'e' or 'E' the number is complete, with the mantissa and adjustment unchanged |
| Tokenizer.LexExponentBad | src/com/android/mm3/wallpaper/animated/SvgDecoder.java:2304-2318 | a marker not followed by a digit, or a sign not followed by one, is an unexpected character at that position |
| Tokenizer.LexExponentDigits | src/com/android/mm3/wallpaper/animated/SvgDecoder.java:2302-2359 | a well-formed exponent adds its signed value, read by ExponentDigits, to the adjustment |
| Tokenizer.LexFraction | src/com/android/mm3/wallpaper/animated/SvgDecoder.java:2253-2299 | the fraction scan ends within the text (LexFractionDigits gives its value) |
| Tokenizer.LexFractionZeros | src/com/android/mm3/wallpaper/animated/SvgDecoder.java:2264-2281 | the leading-zero scan ends within the text (LexFractionZerosDigits gives its value) |
| Tokenizer.LexFractionDigits | src/com/android/mm3/wallpaper/animated/SvgDecoder.java:2282-2298 | with no exponent after it, the fraction digit run appends digits to the mantissa until it holds 9, and each digit kept lowers the exponent adjustment by one; the scan stops at the first non-digit |
| Tokenizer.LexFractionZerosDigits | src/com/android/mm3/wallpaper/animated/SvgDecoder.java:2264-2298 | with no mantissa digit yet, each leading fraction zero lowers the adjustment by one and is not stored; the digits after them are kept as in LexFractionDigits; zeros followed by no digit give the value 0 when an integer part was read |
| Tokenizer.LexDecimalLiteral | src/com/android/mm3/wallpaper/animated/SvgDecoder.java:2191-2299 | "n.k" starting with 1-9 and without exponent reads the integer digits, then the fraction digits, into one 9-digit mantissa, with adjustment (integer digits dropped) minus (fraction digits kept) |
| Tokenizer.LexLeadingFractionZeros | src/com/android/mm3/wallpaper/animated/SvgDecoder.java:2253-2299 | ".0…0k…" reads only the digits after the zeros, with adjustment minus (number of zeros) minus (digits kept) |
| Tokenizer.LexNoNumber | src/com/android/mm3/wallpaper/animated/SvgDecoder.java:2210-2212 | a character other than a digit or '.' after the sign is no number (NaN) |
| Tokenizer.LexEarlyZero | src/com/android/mm3/wallpaper/animated/SvgDecoder.java:2217-2228 | zeros followed by anything but a digit, '.', 'e' or 'E' give 0 at the end of the zeros |
| Tokenizer.LexIntegerPart | src/com/android/mm3/wallpaper/animated/SvgDecoder.java:2233-2253 | after the integer part the scan continues with the fraction from where the digits end |
| Tokenizer.LexMantissaBound | src/com/android/mm3/wallpaper/animated/SvgDecoder.java:2236-2297 | every mantissa handed to buildFloat is below 10^9 |
| Tokenizer.LexIntegerLiteral | src/com/android/mm3/wallpaper/animated/SvgDecoder.java:2233-2250 | n integer digits with nothing after them give the mantissa of their first min(n, 9) digits, and each digit beyond the ninth adds one to the exponent |
| Tokenizer.ExponentNeedsDigit | src/com/android/mm3/wallpaper/animated/SvgDecoder.java:2301-2321 | "1e" and "2E+x" are rejected at the character after the marker or the sign |
| Tokenizer.DotWithoutDigits | src/com/android/mm3/wallpaper/animated/SvgDecoder.java:2253-2262 | ".x" is rejected at 'x'; "7." is the number 7 |
| Tokenizer.ScanFloat | src/com/android/mm3/wallpaper/animated/SvgDecoder.java:2191-2364 | parseFloat's end position lies within the text |
| Tokenizer.NextFloatSpec | src/com/android/mm3/wallpaper/animated/SvgDecoder.java:2407-2413 | nextFloat's end position lies within the text, at or after its start |
| Tokenizer.LexAdvances | src/com/android/mm3/wallpaper/animated/SvgDecoder.java:2202-2251 | a scan that starts on a digit, '.' or '-' consumes at least one character |
| Tokenizer.NextFloatAdvances | src/com/android/mm3/wallpaper/animated/SvgDecoder.java:2407-2413 | nextFloat at a digit, '.' or '-' moves the cursor forward |
| Numbers.TrailingNumber | src/com/android/mm3/wallpaper/animated/SvgDecoder.java:425-436 | the last fragment adds one number exactly when it is non-empty and parses |
| Numbers.NumbersFrom | src/com/android/mm3/wallpaper/animated/SvgDecoder.java:378-424 | the loop only appends to the numbers found so far, and its only error is NumberFormat |
| Numbers.ParseNumbers | src/com/android/mm3/wallpaper/animated/SvgDecoder.java:372-438 | the loop computes ParseNumbersSpec |
| Numbers.ParseNumbersSound | src/com/android/mm3/wallpaper/animated/SvgDecoder.java:372-438 | every number in the result is the scaled value of a fragment of the text that parseFloat accepts |
| Numbers.AfterTerminatorIgnored | src/com/android/mm3/wallpaper/animated/SvgDecoder.java:386-401 | once the scan reaches a path command letter or ')' (one not right after a separator), whatever text follows it leaves the result unchanged |
| Numbers.JoinWith | src/com/android/mm3/wallpaper/animated/SvgDecoder.java:372-438 | the fragments joined by a separator start with the first fragment, and a single fragment is the whole text |
| Numbers.SeparatedTokens | src/com/android/mm3/wallpaper/animated/SvgDecoder.java:372-438 | on non-blank fragments joined by single separators, the result is the scaled values of all fragments in order, an error when an inner fragment is rejected, and the last fragment dropped when it is rejected (NumbersOfTokens) |
| Numbers.DoubleSeparatorDropsRest | src/com/android/mm3/wallpaper/animated/SvgDecoder.java:403-421 | "1,,2" yields only 1: the character after a separator that ended a number is skipped, so ",2" is rejected and dropped |
| Numbers.StopsAtTerminator | src/com/android/mm3/wallpaper/animated/SvgDecoder.java:386-401 | "3 4)5" yields 3 and 4; ')' ends the list |
| Numbers.TrailingFragmentDropped | src/com/android/mm3/wallpaper/animated/SvgDecoder.java:405-436 | a rejected last fragment is dropped silently, while a rejected fragment ended by a separator throws |
| Paths.Start | src/com/android/mm3/wallpaper/animated/SvgDecoder.java:550-559 | the loop starts within the text, with an empty Path and no command |
| Paths.ReadFloats | src/com/android/mm3/wallpaper/animated/SvgDecoder.java:580-691 | k nextFloat calls give k numbers and move forward from a number's start |
| Paths.CommandAt | src/com/android/mm3/wallpaper/animated/SvgDecoder.java:561-571 | a letter is consumed; a number start consumes nothing |
| Paths.Apply | src/com/android/mm3/wallpaper/animated/SvgDecoder.java:577-708 | applying a command keeps the cursor and the command |
| Paths.CommandEffect | src/com/android/mm3/wallpaper/animated/SvgDecoder.java:578-708 | the effect of each command on the current point, the remembered control point and the Path, with relative forms added to the current point |
| Paths.Step | src/com/android/mm3/wallpaper/animated/SvgDecoder.java:560-710 | an iteration never moves back, and it moves forward unless it is the stalled case |
| Paths.PathFrom | src/com/android/mm3/wallpaper/animated/SvgDecoder.java:560-711 | the loop only appends to the Path |
| Paths.PathFromStep | src/com/android/mm3/wallpaper/animated/SvgDecoder.java:560-710 | the loop is its first iteration followed by the loop, or ends on the iteration's exception |
| Paths.ParsePath | src/com/android/mm3/wallpaper/animated/SvgDecoder.java:549-712 | empty path data throws IndexOutOfBounds; otherwise the method computes PathFrom |
| Paths.NextCommand | src/com/android/mm3/wallpaper/animated/SvgDecoder.java:561-571 | the head of an iteration computes CommandAt on the helper's cursor |
| Paths.Iterate | src/com/android/mm3/wallpaper/animated/SvgDecoder.java:560-710 | one iteration on the helper computes Step, and the cursor is where Step says |
| Paths.ReadOperands | src/com/android/mm3/wallpaper/animated/SvgDecoder.java:580-691 | k nextFloat calls compute ReadFloats |
| Paths.ImpliedLineTo | src/com/android/mm3/wallpaper/animated/SvgDecoder.java:565-566 | a number after M becomes an implied L and draws lineTo |
| Paths.ImpliedRLineTo | src/com/android/mm3/wallpaper/animated/SvgDecoder.java:567-568 | a number after m becomes an implied l and draws rLineTo |
| Paths.UnhandledCommandSkips | src/com/android/mm3/wallpaper/animated/SvgDecoder.java:701-703 | an unknown letter skips itself and the next character, leaving the Path unchanged |
| Paths.RunAsWritten | src/com/android/mm3/wallpaper/animated/SvgDecoder.java:560-710 | at most n iterations of the loop as written stay within the text |
| Paths.StallRepeats | src/com/android/mm3/wallpaper/animated/SvgDecoder.java:593-597 | a number after Z closes the Path again and leaves cursor and command unchanged |
| Paths.StallIsForever | src/com/android/mm3/wallpaper/animated/SvgDecoder.java:560-597 | once stalled, every further iteration adds one Close at the same position, so the loop never ends |
| Paths.CloseThenNumber | src/com/android/mm3/wallpaper/animated/SvgDecoder.java:560-597 | "z1" stalls at '1' after any number of iterations; the corrected loop yields one Close |
| Paths.SmoothReflectsControl | src/com/android/mm3/wallpaper/animated/SvgDecoder.java:637-682 | S takes as first control point the reflection of the previous curve's second control point about the current point |
| Paths.SmoothAfterLineStartsAtCursor | src/com/android/mm3/wallpaper/animated/SvgDecoder.java:705-708 | after a command that is not a curve, S starts its control point at the current point |
| Transform.DelimEnd | src/com/android/mm3/wallpaper/animated/SvgDecoder.java:452 | replaceFirst removes exactly the leading run of whitespace and commas |
| Transform.TransformItem | src/com/android/mm3/wallpaper/animated/SvgDecoder.java:461-526 | an item appends at most three factors to the matrix and keeps the ones before; its only error is NumberFormat |
| Transform.NextItem | src/com/android/mm3/wallpaper/animated/SvgDecoder.java:450-452 | the rest after ')' is strictly shorter, so the loop ends |
| Transform.TransformFrom | src/com/android/mm3/wallpaper/animated/SvgDecoder.java:447-456 | the loop only appends factors; its only error is NumberFormat |
| Transform.ItemTexts | src/com/android/mm3/wallpaper/animated/SvgDecoder.java:447-456 | the item texts the loop visits start with the whole attribute and each is shorter than the one before; the attribute is the only one exactly when the loop stops after it |
| Transform.TransformIsFold | src/com/android/mm3/wallpaper/animated/SvgDecoder.java:447-456 | the loop is parseTransformItem folded left to right over the item texts, stopping at the first error |
| Transform.OperandsIgnoreRest | src/com/android/mm3/wallpaper/animated/SvgDecoder.java:461-463 | an item's operands end at its ')': text after name(a) leaves them unchanged when a does not end in a separator |
| Transform.ParseTransform | src/com/android/mm3/wallpaper/animated/SvgDecoder.java:444-459 | the method computes TransformFrom from the identity |
| Transform.NextStep | src/com/android/mm3/wallpaper/animated/SvgDecoder.java:447-452 | after an item with text after its ')' the loop continues on that text |
| Transform.LastItem | src/com/android/mm3/wallpaper/animated/SvgDecoder.java:450-455 | without ')' past index 0, or with nothing after it, the loop ends after the item |
| Transform.UnknownItemIgnored | src/com/android/mm3/wallpaper/animated/SvgDecoder.java:522-524 | an unknown item leaves the matrix as it was |
| Transform.MatrixItem | src/com/android/mm3/wallpaper/animated/SvgDecoder.java:462-475 | matrix(a b c d e f) pre-concatenates [a c e; b d f; 0 0 1] only with exactly six numbers |
| Transform.TranslateItem | src/com/android/mm3/wallpaper/animated/SvgDecoder.java:476-485 | translate(tx) moves by (tx, 0), translate(tx ty) by (tx, ty), translate() does nothing |
| Transform.ScaleItem | src/com/android/mm3/wallpaper/animated/SvgDecoder.java:486-495 | scale(s) is (s, s), scale(sx sy) is (sx, sy), scale() does nothing |
| Transform.RotateItem | src/com/android/mm3/wallpaper/animated/SvgDecoder.java:508-521 | rotate(a cx cy) is translate, rotate, translate back; with fewer than three numbers the centre is the origin |
| Transform.TwoItems | src/com/android/mm3/wallpaper/animated/SvgDecoder.java:444-459 | "translate(1,2) scale(3)" pre-concatenates the translation, then the scaling |
| Style.Entry | src/com/android/mm3/wallpaper/animated/SvgDecoder.java:2119-2123 | an item contributes a pair only when it splits on ':' into two pieces, neither holding ':' |
| Style.LastSetting | src/com/android/mm3/wallpaper/animated/SvgDecoder.java:2117-2125 | the index of the last item setting a name, and no later item sets it |
| Style.StyleMapLastWins | src/com/android/mm3/wallpaper/animated/SvgDecoder.java:2117-2125 | a property is present exactly when some well-formed item names it, with the last such item's value |
| Style.StyleSet.constructor | src/com/android/mm3/wallpaper/animated/SvgDecoder.java:2117-2125 | the map is built from the ';'-separated items of the text |
| Style.StyleSet.GetStyle | src/com/android/mm3/wallpaper/animated/SvgDecoder.java:2127-2129 | the value is present exactly when the name is in the map, and is the map's value |
| Style.StyleAttr | src/com/android/mm3/wallpaper/animated/SvgDecoder.java:1232-1238 | with a style attribute only the StyleSet answers, otherwise the plain attribute |
| Style.StyleHidesAttributes | src/com/android/mm3/wallpaper/animated/SvgDecoder.java:1232-1238 | a fill attribute is ignored next to a style that does not set fill |
| Style.AttrToFloat | src/com/android/mm3/wallpaper/animated/SvgDecoder.java:839-860 | a plain number is parsed and scaled; a failed parse is null |
| Style.PixelsAreBareNumbers | src/com/android/mm3/wallpaper/animated/SvgDecoder.java:843-845 | "Npx" reads as N |
| Style.PercentOfBound | src/com/android/mm3/wallpaper/animated/SvgDecoder.java:846-853 | "N%" reads as N * bound / 100, then scaled |
| Style.FloatAttr | src/com/android/mm3/wallpaper/animated/SvgDecoder.java:1994-2000 | a missing attribute reads as 0, a present one through attrToFloat |
| Style.ReplaceAll | src/com/android/mm3/wallpaper/animated/SvgDecoder.java:337-344 | the replaced character is gone unless the replacement holds it; text without it is unchanged |
| Style.EscapeRemovesMarkup | src/com/android/mm3/wallpaper/animated/SvgDecoder.java:337-344 | the escaped text has no quote, apostrophe or angle bracket |
| Style.EscapeKeepsPlainText | src/com/android/mm3/wallpaper/animated/SvgDecoder.java:337-344 | text without markup characters or '&' is unchanged |
| Style.EscapeDoublesAmpersand | src/com/android/mm3/wallpaper/animated/SvgDecoder.java:338-343 | "<" becomes "&amp;lt;", because '&' is replaced last |
| Colors.KeywordsAreLowercase | src/com/android/mm3/wallpaper/animated/SvgDecoder.java:2416-2565 | every colour keyword starts with a lower-case letter |
| Colors.ParseHexBits | src/com/android/mm3/wallpaper/animated/SvgDecoder.java:1264-1268 | the bits are defined exactly when Integer.parseInt(s, 16) accepts s |
| Colors.TopByte | src/com/android/mm3/wallpaper/animated/SvgDecoder.java:1770 | n << 24 leaves the low 24 bits clear |
| Colors.Hex3To6 | src/com/android/mm3/wallpaper/animated/SvgDecoder.java:1289-1293 | each of the three nibbles of 0xRGB is doubled into 0xRRGGBB, with the top byte clear |
| Colors.PaintColorValue | src/com/android/mm3/wallpaper/animated/SvgDecoder.java:1261-1269 | a keyword gives its value; otherwise the text after the first character read as hex, doubled nibble by nibble (hex3Tohex6) when the text has four characters; an unparseable hex number gives 0; the empty string throws |
| Colors.OpaqueBytes | src/com/android/mm3/wallpaper/animated/SvgDecoder.java:1270 | the colour handed to setColor has alpha byte 0xFF and keeps the low 24 bits of the value |
| Colors.OpacityValue | src/com/android/mm3/wallpaper/animated/SvgDecoder.java:820-827 | null stays null, otherwise the parsed float |
| Colors.Opacity | src/com/android/mm3/wallpaper/animated/SvgDecoder.java:1272-1277 | opacity when it parses, otherwise the paint's own fill-opacity or stroke-opacity |
| Colors.AlphaOf | src/com/android/mm3/wallpaper/animated/SvgDecoder.java:1278-1282 | 255 without an opacity, and an opacity in [0, 1] gives an alpha in [0, 255] |
| Colors.UrlId | src/com/android/mm3/wallpaper/animated/SvgDecoder.java:1248 | the id is six characters shorter than the fill: the prefix "url(#" and the last character are dropped |
| Colors.FillPaint | src/com/android/mm3/wallpaper/animated/SvgDecoder.java:1240-1286 | without fill a fresh paint; "none" gives no colour set; url(#id) takes the root's shader; otherwise the colour is PaintColorValue of the fill made opaque, with alpha from fill-opacity, and no shader; the style is always FILL; an empty fill and a "url(#" too short for substring(5, length - 1) throw IndexOutOfBounds |
| Colors.ScaledValue | src/com/android/mm3/wallpaper/animated/SvgDecoder.java:829-837 | a value exactly when the text parses |
| Colors.StrokePaintAsWritten | src/com/android/mm3/wallpaper/animated/SvgDecoder.java:1296-1351 | no stroke without a stroke property; an empty stroke throws IndexOutOfBounds from substring(1); any non-empty stroke gives a STROKE paint whose colour is PaintColorValue of the stroke made opaque, whose width is stroke-width scaled, and whose cap and join follow stroke-linecap and stroke-linejoin |
| Colors.FillColorKeepsValue | src/com/android/mm3/wallpaper/animated/SvgDecoder.java:1270 | the fill colour set has alpha byte 0xFF and the low 24 bits of the parsed value |
| Colors.StrokeColorKeepsValue | src/com/android/mm3/wallpaper/animated/SvgDecoder.java:1307-1308 | the stroke colour set has alpha byte 0xFF and the low 24 bits of the parsed value |
| Colors.StrokePaint | src/com/android/mm3/wallpaper/animated/SvgDecoder.java:1296-1351 | as written, except that "none" gives no stroke |
| Colors.GetColor | src/com/android/mm3/wallpaper/animated/SvgDecoder.java:862-886 | null is black; "#h…" is the value of the hex digits after "#" (NumberFormat when they do not parse), with no three-digit expansion; black, green, red, blue, white, gray and darkgray in any case are their fixed colours; any other text is read as a hex number itself (NumberFormat when it does not parse) |
| Colors.KeywordsExclusive | src/com/android/mm3/wallpaper/animated/SvgDecoder.java:867-880 | no colour keyword begins with "#" and no text matches two keywords, so the if-chain picks exactly one branch |
| Colors.StopColor | src/com/android/mm3/wallpaper/animated/SvgDecoder.java:1760-1774 | 0 without a style; an error from getColor on stop-color is passed on; without stop-opacity the colour gets top byte 0xFF; an unparseable stop-opacity is NumberFormat; otherwise the top byte is round(255 * opacity) |
| Colors.StopColorStored | src/com/android/mm3/wallpaper/animated/SvgDecoder.java:1764-1766 | the colour field as getColor leaves it before stop-opacity is read: 0 without a style |
| Colors.ShortHexSpellsLong | src/com/android/mm3/wallpaper/animated/SvgDecoder.java:1289-1293 | hex3Tohex6 of #rgb is the word #rrggbb spells |
| Colors.FillShortHexMatchesLong | src/com/android/mm3/wallpaper/animated/SvgDecoder.java:1264-1265 | a fill "#rgb" has the colour of "#rrggbb" |
| Colors.UnparseableFillIsBlack | src/com/android/mm3/wallpaper/animated/SvgDecoder.java:1262-1271 | a fill that is no keyword, not none and no hex number paints opaque black |
| Colors.FillKeywordIsCaseSensitive | src/com/android/mm3/wallpaper/animated/SvgDecoder.java:1261-1265 | "red" is 0xFF0000, while "Red" misses the table and reads "ed" as 0xED |
| Colors.GetColorIgnoresCase | src/com/android/mm3/wallpaper/animated/SvgDecoder.java:867-880 | getColor reads "RED" as red |
| Colors.StopShortHexNotExpanded | src/com/android/mm3/wallpaper/animated/SvgDecoder.java:865-866 | "#rgb" in a stop is 0x00000RGB |
| Colors.StopOpacityOnlyAddsBits | src/com/android/mm3/wallpaper/animated/SvgDecoder.java:1766-1773 | stop-opacity keeps the low 24 bits, cannot make an opaque colour transparent, and is 0xFF when absent |
| Colors.StrokeNoneIsBlack | src/com/android/mm3/wallpaper/animated/SvgDecoder.java:1300-1312 | as written, stroke "none" paints opaque black; corrected, it paints nothing |
| Gradients.CreateChild | src/com/android/mm3/wallpaper/animated/SvgDecoder.java:2086-2111 | id and geometry from the child, stops from the receiver, link to the receiver, transform the receiver's then the child's |
| Gradients.Xlink | src/com/android/mm3/wallpaper/animated/SvgDecoder.java:1404-1413 | href, else xlink:href, without a leading '#' |
| Gradients.HashIsDropped | src/com/android/mm3/wallpaper/animated/SvgDecoder.java:1408-1410 | href="#id" links to id |
| Gradients.Merge | src/com/android/mm3/wallpaper/animated/SvgDecoder.java:1425-1434 | createChild on the referenced gradient when the link resolves, otherwise the gradient unchanged |
| Gradients.ShaderFor | src/com/android/mm3/wallpaper/animated/SvgDecoder.java:1453-1466 | a shader exactly when there are two or more colours, as many positions, and a positive radius for a radial gradient |
| Gradients.ReadGeometry | src/com/android/mm3/wallpaper/animated/SvgDecoder.java:1394-1397 | a linear gradient reads x1, x2 against the width and y1, y2 against the height, in that order; a radial one reads cx against the width, cy against the height and r against the width; a missing attribute reads as 0, and a present value that does not parse is NullPointer (the unboxing of null) |
| Gradients.RegisterGradient | src/com/android/mm3/wallpaper/animated/SvgDecoder.java:1386-1421 | the registered gradient has the element's id and link, its geometry in the fields of its kind (the rest zero), the gradientTransform matrix when the attribute is present and none otherwise, and the stops' offsets and colours in order; nothing is registered exactly when a radial gradient has radius 0; a missing geometry attribute reads as 0, a present one that does not parse is NullPointer, and a transform that fails to parse is NumberFormat |
| Gradients.LinkTakesReferencedStops | src/com/android/mm3/wallpaper/animated/SvgDecoder.java:2086-2111 | a linked gradient takes the referenced gradient's stops and keeps its own id and geometry |
| Gradients.SecondMergeRepeatsTransform | src/com/android/mm3/wallpaper/animated/SvgDecoder.java:1425-1456 | two merges apply the referenced transform twice |
| Gradients.UnlinkedShaderUsesOwnStops | src/com/android/mm3/wallpaper/animated/SvgDecoder.java:1423-1466 | without a link the shader uses the gradient's own stops |
| Gradients.OneStopNoShader | src/com/android/mm3/wallpaper/animated/SvgDecoder.java:1453-1466 | fewer than two stops and no link give no shader |
| Gradients.ZeroRadiusIsNotRegistered | src/com/android/mm3/wallpaper/animated/SvgDecoder.java:1492-1494 | a radial gradient whose radius reads as 0 registers nothing |
| Tree.KindOf | src/com/android/mm3/wallpaper/animated/SvgDecoder.java:788-818 | getElementByTag never builds an SVG root |
| Tree.FactoryChain | src/com/android/mm3/wallpaper/animated/SvgDecoder.java:788-818 | the class chosen is the if-chain of case-insensitive tag comparisons |
| Tree.KindOfTagName | src/com/android/mm3/wallpaper/animated/SvgDecoder.java:125-196 | every element class is reached from its own tag name, which is whitelisted |
| Tree.TextIsPlain | src/com/android/mm3/wallpaper/animated/SvgDecoder.java:186 | "text" is whitelisted but becomes a plain element |
| Tree.UseIsPlain | src/com/android/mm3/wallpaper/animated/SvgDecoder.java:131 | "use" is whitelisted but becomes a plain element |
| Tree.WhitelistIsCaseSensitive | src/com/android/mm3/wallpaper/animated/SvgDecoder.java:194-196 | "Path" is off the whitelist although the factory would make it a path |
| Tree.CloseFrom | src/com/android/mm3/wallpaper/animated/SvgDecoder.java:304-319 | the end tag found is an end tag within the events |
| Tree.CloseBalances | src/com/android/mm3/wallpaper/animated/SvgDecoder.java:308-318 | the depth stays positive before the end tag found and reaches zero at it |
| Tree.CloseCompose | src/com/android/mm3/wallpaper/animated/SvgDecoder.java:308-318 | a closed nested element leaves the enclosing depth unchanged |
| Tree.CloseDeeper | src/com/android/mm3/wallpaper/animated/SvgDecoder.java:308-318 | more open levels cannot close where fewer could not |
| Tree.Skip | src/com/android/mm3/wallpaper/animated/SvgDecoder.java:304-319 | skip throws off a start tag, otherwise returns the index of the matching end tag, and throws if the events end first |
| Tree.RootIsTheDocument | src/com/android/mm3/wallpaper/animated/SvgDecoder.java:1978-1984 | getRoot of every element is the document root |
| Tree.FirstInMeaning | src/com/android/mm3/wallpaper/animated/SvgDecoder.java:1855-1887 | FirstIn finds a match exactly when one exists, and the first one |
| Tree.Search | src/com/android/mm3/wallpaper/animated/SvgDecoder.java:1855-1887 | whatever the search returns matches the test |
| Tree.SearchIsFirstInPreorder | src/com/android/mm3/wallpaper/animated/SvgDecoder.java:1855-1887 | the search returns the first matching descendant in pre-order |
| Tree.FilterMeaning | src/com/android/mm3/wallpaper/animated/SvgDecoder.java:1914-1923 | Filter keeps exactly the elements passing the test |
| Tree.CollectAnimations | src/com/android/mm3/wallpaper/animated/SvgDecoder.java:1914-1923 | searchAnimation appends every animate descendant, in pre-order |
| Tree.AnimationsOfChild | src/com/android/mm3/wallpaper/animated/SvgDecoder.java:1916-1922 | one iteration contributes the child, then its subtree, then the rest |
| Markup.LastKey | src/com/android/mm3/wallpaper/animated/SvgDecoder.java:346-353 | the last pair naming the key, and no later pair names it |
| Markup.PutAllLastWins | src/com/android/mm3/wallpaper/animated/SvgDecoder.java:346-353 | a repeated attribute keeps its later value; an absent one keeps the map's |
| Markup.KeptSplit | src/com/android/mm3/wallpaper/animated/SvgDecoder.java:355-370 | scanning a range in two pieces keeps the same elements |
| Markup.SkippedIsDropped | src/com/android/mm3/wallpaper/animated/SvgDecoder.java:304-319 | everything up to the end tag closing a skip is dropped |
| Markup.NextTag | src/com/android/mm3/wallpaper/animated/SvgDecoder.java:272 | nextTag stops at the first event that is not text |
| Arena.AddNode | src/com/android/mm3/wallpaper/animated/SvgDecoder.java:1970-1976 | a new element of the tag's class is appended to its parent's children |
| Arena.SkipTo | src/com/android/mm3/wallpaper/animated/SvgDecoder.java:304-319 | skip returns an index after the start tag |
| Arena.Elements | src/com/android/mm3/wallpaper/animated/SvgDecoder.java:355-370 | the arena only grows and the stop lies after the start |
| Arena.Scan | src/com/android/mm3/wallpaper/animated/SvgDecoder.java:360-369 | the loop only grows the arena and stops after where it started |
| Arena.ElementsFacts | src/com/android/mm3/wallpaper/animated/SvgDecoder.java:355-370 | a wrong start tag throws with nothing changed; otherwise the element gets its attributes and its children are exactly the whitelisted elements outside skipped subtrees, in document order |
| Arena.ScanFacts | src/com/android/mm3/wallpaper/animated/SvgDecoder.java:360-369 | the loop stops on the element's end tag, fails exactly when the events end first, and adds the kept elements in order |
| Arena.ChildFailed | src/com/android/mm3/wallpaper/animated/SvgDecoder.java:362-368 | a child that never closes leaves its parent unclosed |
| Arena.ElementsKeepTree | src/com/android/mm3/wallpaper/animated/SvgDecoder.java:355-370 | parsing keeps a well-formed tree of factory-made elements |
| Arena.AppendWellFormed | src/com/android/mm3/wallpaper/animated/SvgDecoder.java:2015-2017 | an element appended under an existing parent keeps the tree well formed |
| Figures.Blank | src/com/android/mm3/wallpaper/animated/SvgDecoder.java:1195-1207 | a freshly built element has figure fields exactly when it is a figure |
| Figures.PolyOps | src/com/android/mm3/wallpaper/animated/SvgDecoder.java:982-1000 | moveTo the first point, lineTo each further one, close for a polygon; an odd count throws IndexOutOfBounds |
| Figures.BuildPoly | src/com/android/mm3/wallpaper/animated/SvgDecoder.java:988-1000 | the point loop computes PolyOps |
| Figures.BoxOf4 | src/com/android/mm3/wallpaper/animated/SvgDecoder.java:908 | a box exactly when all four values are non-null, otherwise NullPointer |
| Figures.PolyGeometry | src/com/android/mm3/wallpaper/animated/SvgDecoder.java:982-1006 | without points nothing changes |
| Figures.PolylineGeometry | src/com/android/mm3/wallpaper/animated/SvgDecoder.java:932-957 | without points nothing changes |
| Figures.LineGeometry | src/com/android/mm3/wallpaper/animated/SvgDecoder.java:901-911 | all four values are stored, and the box is reported exactly when none is null |
| Figures.CircleGeometry | src/com/android/mm3/wallpaper/animated/SvgDecoder.java:1035-1047 | cx, cy and r are stored |
| Figures.RectGeometry | src/com/android/mm3/wallpaper/animated/SvgDecoder.java:1121-1134 | width and height are stored as read |
| Figures.PointsLiteralIsNoList | src/com/android/mm3/wallpaper/animated/SvgDecoder.java:936 | the text "points" throws NumberFormat as a list of numbers |
| Figures.PolylineAlwaysThrows | src/com/android/mm3/wallpaper/animated/SvgDecoder.java:932-957 | a polyline with points always throws NumberFormat |
| Figures.PolygonIsClosedPath | src/com/android/mm3/wallpaper/animated/SvgDecoder.java:982-1006 | an even count of points gives a closed path that reports its bounds; an odd count throws |
| Figures.RectBoxIgnoresHeight | src/com/android/mm3/wallpaper/animated/SvgDecoder.java:1130-1131 | the box is (x, y, x + width, y + width), whatever the height |
| Figures.RectNeedsOrigin | src/com/android/mm3/wallpaper/animated/SvgDecoder.java:1121-1131 | a null x, y or width throws after storing every field read |
| Figures.CircleBoxIsCentred | src/com/android/mm3/wallpaper/animated/SvgDecoder.java:1041-1044 | the box is the centre minus and plus the radius; a null radius throws |
| Figures.EllipseNeverThrows | src/com/android/mm3/wallpaper/animated/SvgDecoder.java:1072-1085 | an ellipse never throws; it reports its oval exactly when all four values are present |
| Figures.ParamsInit | src/com/android/mm3/wallpaper/animated/SvgDecoder.java:1214-1230 | the transform, the StyleSet, display none, then the fill paint FillPaint computes and the stroke paint getStrokePaint computes as written, both read through the element's style |
| Figures.FigureInit | src/com/android/mm3/wallpaper/animated/SvgDecoder.java:1209-1230 | a completed figure init always has a fill paint |
| Figures.StopInit | src/com/android/mm3/wallpaper/animated/SvgDecoder.java:1758-1776 | a stop reports no box; a missing offset reads as 0; an offset that does not parse throws NullPointer and stores nothing; otherwise it stores the offset and the colour StopColor computes, or, when StopColor fails, the colour getColor left and StopColor's error |
| Figures.StopOpacityErrorKeepsColor | src/com/android/mm3/wallpaper/animated/SvgDecoder.java:1764-1768 | a stop-opacity parse error leaves the offset and getColor's colour stored and throws NumberFormat |
| Figures.StopOpacityInTopByte | src/com/android/mm3/wallpaper/animated/SvgDecoder.java:1764-1771 | a stop with an offset, a stop-color and a parseable stop-opacity stores the colour with top byte round(255 * opacity) |
| Figures.StopWithoutOpacityIsOpaque | src/com/android/mm3/wallpaper/animated/SvgDecoder.java:1764-1773 | a stop with an offset and a stop-color but no stop-opacity stores the colour with top byte 0xFF |
| Figures.RootInit | src/com/android/mm3/wallpaper/animated/SvgDecoder.java:1946-1956 | without width and height the size is 0 by 0 |
| Figures.RootSizeIsCeiling | src/com/android/mm3/wallpaper/animated/SvgDecoder.java:1949-1952 | the size is the smallest whole number at or above each length |
| Figures.GroupInit | src/com/android/mm3/wallpaper/animated/SvgDecoder.java:1793-1803 | the group is shown exactly when it was and its display is not "none" |
| Drawing.Canvas.constructor | src/com/android/mm3/wallpaper/animated/SvgDecoder.java:1355-1371 | a canvas with no calls recorded |
| Drawing.Canvas.Record | src/com/android/mm3/wallpaper/animated/SvgDecoder.java:1355-1371 | the calls are appended in order |
| Drawing.RectCmd | src/com/android/mm3/wallpaper/animated/SvgDecoder.java:1136-1158 | drawRect or drawRoundRect with the given paint; a null radius throws |
| Drawing.ShapeCmd | src/com/android/mm3/wallpaper/animated/SvgDecoder.java:913-1193 | one draw call with the given paint |
| Drawing.WithPaint | src/com/android/mm3/wallpaper/animated/SvgDecoder.java:1049-1060 | at most one call, with that paint, and none on an exception |
| Drawing.DrawData | src/com/android/mm3/wallpaper/animated/SvgDecoder.java:913-1193 | at most two calls, the fill one first, and a line uses only the stroke |
| Drawing.DrawsAreFlat | src/com/android/mm3/wallpaper/animated/SvgDecoder.java:913-1193 | draw calls neither save nor restore |
| Drawing.WrappedNested | src/com/android/mm3/wallpaper/animated/SvgDecoder.java:1355-1371 | save, concat, the figure's calls and restore leave the depth balanced |
| Drawing.DrawNodeNested | src/com/android/mm3/wallpaper/animated/SvgDecoder.java:1355-1371 | the canvas is never restored more than saved, and a completed draw restores every save |
| Drawing.HiddenDrawsNothing | src/com/android/mm3/wallpaper/animated/SvgDecoder.java:1806-1812 | a hidden group or figure draws nothing, itself or below |
| Drawing.ChildrenOutsideTransform | src/com/android/mm3/wallpaper/animated/SvgDecoder.java:1355-1371 | a transformed figure draws itself between save and restore and its children after |
| Drawing.OthersDrawChildren | src/com/android/mm3/wallpaper/animated/SvgDecoder.java:2060-2065 | other elements draw exactly their children |
| Drawing.CircleRadiusChecks | src/com/android/mm3/wallpaper/animated/SvgDecoder.java:1049-1060 | a null radius throws, a zero radius draws nothing |
| Drawing.RectDrawUsesHeight | src/com/android/mm3/wallpaper/animated/SvgDecoder.java:1136-1150 | with both radii at most 0 the rectangle is drawn with its height |
| Drawing.RectNeedsRadii | src/com/android/mm3/wallpaper/animated/SvgDecoder.java:1136-1158 | a missing radius throws once a paint is used |
| Document.WidenGrows | src/com/android/mm3/wallpaper/animated/SvgDecoder.java:1926-1939 | setBounds never shrinks the box, never stores NaN, covers the report, and takes each side from the box or the report |
| Document.BoundsAreExtremes | src/com/android/mm3/wallpaper/animated/SvgDecoder.java:1926-1939 | the box is the componentwise minimum and maximum of everything reported |
| Document.ElementById | src/com/android/mm3/wallpaper/animated/SvgDecoder.java:1851-1870 | the element found has that id |
| Document.RefLookupIsFirst | src/com/android/mm3/wallpaper/animated/SvgDecoder.java:1841-1887 | the gradient found has that id and is the first registered in pre-order; none exactly when none is registered |
| Document.ElementByIdIsFirst | src/com/android/mm3/wallpaper/animated/SvgDecoder.java:1851-1870 | the first element in pre-order with that id; none exactly when none has it |
| Document.LookupRepeatsTransform | src/com/android/mm3/wallpaper/animated/SvgDecoder.java:1425-1456 | a linked gradient gets the referenced transform twice |
| Document.DocWidth | src/com/android/mm3/wallpaper/animated/SvgDecoder.java:204-210 | the document's width, or the decoder's own when that is 0 |
| Document.DocHeight | src/com/android/mm3/wallpaper/animated/SvgDecoder.java:213-219 | the document's height, or the decoder's own when that is 0 |
| Document.OwnStep | src/com/android/mm3/wallpaper/animated/SvgDecoder.java:1209-1230 | an element keeps its class's fields; only figures report boxes; groups and gradients never throw in their own step |
| Document.GradientStep | src/com/android/mm3/wallpaper/animated/SvgDecoder.java:1386-1468 | the gradient read from the element's own attributes and stops is what it registers: its error is thrown with the prior state kept, no gradient keeps the prior state, and a gradient becomes gradientRef with the shader built from it under the document's links when it has an id; the box is unchanged |
| Document.RegisteredBeforeMerge | src/com/android/mm3/wallpaper/animated/SvgDecoder.java:1419-1421 | the gradientRef a gradient registers is the gradient read from its own attributes and stops, before any merge; with an id the shader is the one built from it, without an id no shader is built |
| Document.InitNodeShaped | src/com/android/mm3/wallpaper/animated/SvgDecoder.java:2053-2058 | init leaves every element with its class's fields |
| Document.InitNodeWidens | src/com/android/mm3/wallpaper/animated/SvgDecoder.java:2002-2005 | init only widens the root's box and never stores NaN |
| Document.InitNodeFrame | src/com/android/mm3/wallpaper/animated/SvgDecoder.java:2053-2058 | init of an element leaves every element created before it unchanged |
| Document.SizeFixedBelowRoot | src/com/android/mm3/wallpaper/animated/SvgDecoder.java:1889-1895 | the size elements measure against does not change below the root |
| Decoding.Blanks | src/com/android/mm3/wallpaper/animated/SvgDecoder.java:1970-1976 | each new element starts with its class's blank fields |
| Decoding.Parsed | src/com/android/mm3/wallpaper/animated/SvgDecoder.java:267-292 | no tag throws, leaving everything as it was |
| Decoding.ElementsKeepKinds | src/com/android/mm3/wallpaper/animated/SvgDecoder.java:355-370 | parseElements never changes an existing element's class |
| Decoding.ParsedIsShaped | src/com/android/mm3/wallpaper/animated/SvgDecoder.java:267-292 | parse keeps a well-formed tree whose elements have their class's fields |
| Decoding.ParsedWidens | src/com/android/mm3/wallpaper/animated/SvgDecoder.java:267-292 | parse never shrinks the root's box |
| Decoding.DelayOf | src/com/android/mm3/wallpaper/animated/SvgDecoder.java:1908-1911 | the delay is 300 or Integer.MAX_VALUE |
| Decoding.DelayMeansAnimated | src/com/android/mm3/wallpaper/animated/SvgDecoder.java:1903-1923 | 300 exactly when some descendant of the root is an animate element |
| Decoding.FitScale | src/com/android/mm3/wallpaper/animated/SvgDecoder.java:238-241 | NaN exactly when one of the two ratios is |
| Decoding.FitScaleFits | src/com/android/mm3/wallpaper/animated/SvgDecoder.java:238-241 | for a box at positive coordinates, the scale is the largest that fits it within width and height |
| Decoding.Decoder.constructor | src/com/android/mm3/wallpaper/animated/SvgDecoder.java:1827-1829 | a lone svg root, an empty box, scale 1, scaling off |
| Decoding.Decoder.GetScale | src/com/android/mm3/wallpaper/animated/SvgDecoder.java:226-228 | the scale while scaling is on, otherwise 1 |
| Decoding.Decoder.SetScale | src/com/android/mm3/wallpaper/animated/SvgDecoder.java:230-232 | the stored scale changes; what init reads changes only while scaling is on |
| Decoding.Decoder.SetScaling | src/com/android/mm3/wallpaper/animated/SvgDecoder.java:234-245 | the same flag changes nothing; a new flag sets the fitting scale and runs init again over the whole document, with the box not reset |
| Decoding.Decoder.Width | src/com/android/mm3/wallpaper/animated/SvgDecoder.java:204-210 | getWidth is DocWidth |
| Decoding.Decoder.Height | src/com/android/mm3/wallpaper/animated/SvgDecoder.java:213-219 | getHeight is DocHeight |
| Decoding.Decoder.AddElement | src/com/android/mm3/wallpaper/animated/SvgDecoder.java:788-818 | the element is appended with AddNode |
| Decoding.Decoder.SetAttr | src/com/android/mm3/wallpaper/animated/SvgDecoder.java:2011-2013 | HashMap.put on the element's attributes |
| Decoding.Decoder.ParseAttrs | src/com/android/mm3/wallpaper/animated/SvgDecoder.java:346-353 | setAttr for each attribute in order |
| Decoding.Decoder.ParseElements | src/com/android/mm3/wallpaper/animated/SvgDecoder.java:355-370 | the method computes Elements |
| Decoding.Decoder.ParseChild | src/com/android/mm3/wallpaper/animated/SvgDecoder.java:362-367 | a whitelisted child start tag is appended under the element and parsed with parseElements; any other is skipped to its end tag |
| Decoding.Decoder.SetBounds | src/com/android/mm3/wallpaper/animated/SvgDecoder.java:1926-1939 | the box becomes Widen of the report |
| Decoding.Decoder.CollectStops | src/com/android/mm3/wallpaper/animated/SvgDecoder.java:1415-1424 | the stops' offsets and colours in child order |
| Decoding.Decoder.InitElement | src/com/android/mm3/wallpaper/animated/SvgDecoder.java:2053-2058 | init computes InitNode |
| Decoding.Decoder.InitGradientElement | src/com/android/mm3/wallpaper/animated/SvgDecoder.java:1479-1565 | a gradient's own init computes GradientStep |
| Decoding.Decoder.InitChildren | src/com/android/mm3/wallpaper/animated/SvgDecoder.java:2053-2058 | SVGElement.init computes InitKids |
| Decoding.Decoder.Parse | src/com/android/mm3/wallpaper/animated/SvgDecoder.java:267-292 | parse computes Parsed |
| Decoding.Decoder.GetDelay | src/com/android/mm3/wallpaper/animated/SvgDecoder.java:1903-1912 | the animation vector is filled once, with every animate descendant, and the delay follows from it |
| Drawing.DrawElement | src/com/android/mm3/wallpaper/animated/SvgDecoder.java:1355-1371 | draw records on the canvas exactly the calls DrawNode lists and ends with its outcome |
| Drawing.DrawShownFigure | src/com/android/mm3/wallpaper/animated/SvgDecoder.java:1359-1370 | a displayed figure records its own save/concat, drawData and restore, then its children's calls; an exception in drawData stops it before the restore |
| Drawing.DrawFigure | src/com/android/mm3/wallpaper/animated/SvgDecoder.java:1359-1367 | the figure's own calls are save and concat when it has a matrix, drawData's calls, and restore only when drawData did not throw |
| Drawing.DrawChildren | src/com/android/mm3/wallpaper/animated/SvgDecoder.java:2060-2065 | SVGElement.draw records DrawKids's calls |
| Decoding.Decoder.Draw | src/com/android/mm3/wallpaper/animated/SvgDecoder.java:286-288 | draw records the root's calls |

## Left out

- `AnimatedWallpaperService` and the wallpaper engine are not part of this
  model. Neither are the frame counter and `getFramePicture`, which records
  into an `android.graphics.Picture`.
- XmlPullParser is replaced by the event sequence it would deliver:
  start tags with their attributes, end tags, and text. Namespaces,
  `require`'s namespace argument and the closing of the input stream are
  not modelled.
- `drawArc` (trigonometry in double precision) is not computed. An arc
  command appends one `Arc` operation with its operands.
- `Rotate`, `SkewX` and `SkewY` are symbolic matrix factors. The tangent
  and the matrix products are not computed.
- Floats are exact reals with IEEE special values. Rounding to 24 bits,
  negative zero and double intermediates are not modelled. The `mant++`
  step of `buildFloat` is modelled (Floats.BuildFloat); the float
  arithmetic after it is exact.
- Floats.JavaToInt: the `(int)` casts in `(int) (255 * opacity)` and
  `(int) ph.nextFloat()` work on the exact product.
- JavaNumbers.JavaParseFloat does not accept hexadecimal floating-point
  literals.
- Base.EqualsIgnoreCase folds case for ASCII letters only. Java's
  `equalsIgnoreCase` also pairs Unicode letters (U+212A KELVIN SIGN matches
  'k'), so text such as "blac\u212A" is a keyword to getColor and to the
  element factory in Java but not in Colors.GetColor or Tree.KindOf.
- `Character.isDigit` is taken over ASCII: the Unicode digits Java also
  accepts are not modelled. `Character.isWhitespace` follows Java's
  definition, Unicode space separators included (Base.IsJavaWhitespace).
- `text` and `use` have classes in the source that `getElementByTag` never
  builds, so their `init` and `drawData` are unreachable and not modelled.
- Logging (`Log.d`, `Log.e`, `Log.i`) is not modelled. The exception
  caught around a shader constructor is modelled as "no shader".
- `clean`, `onDestroy`, `setWidthHeight`'s listener and `getBounds`'s
  fresh RectF are not modelled beyond the fields they read.
- The `p.computeBounds(r, true)` call inside the `parsePath` loop only
  fills a local that is never read, so it is dropped.
- `Path.computeBounds` belongs to the graphics library. It is the
  parameter `Env.pathBounds`.
- Paint, Shader, LinearGradient and RadialGradient are records of what
  they are given. Anti-aliasing flags and the tile mode are not kept.
- Paths.PathFrom stops at the iteration where the code as written would
  loop forever (see Findings). The code itself never returns there.
- Colors.StrokePaint: the document model (Figures.ParamsInit) follows
  getStrokePaint as written, so stroke="none" still paints opaque black
  there. The corrected definition is stated and proved beside it, but
  the decoder does not use it.
- Tree.CollectAnimations returns the vector it appends to rather than
  mutating a shared `Vector`, so the aliasing of that vector is not
  modelled.

## Findings

| source | as written | input that shows it | evidently intended | confidence | as-written member | corrected member |
|---|---|---|---|---|---|---|
| src/com/android/mm3/wallpaper/animated/SvgDecoder.java:560-597 | after Z or z, a number keeps the command Z: the iteration closes the path without consuming anything, so `while (ph.pos < n)` never ends | path data "z1" (or "M0 0z 5") | a number after a close command is either rejected or skipped, and parsing ends | not executed | Paths.CloseThenNumber | Paths.ParsePath |
| src/com/android/mm3/wallpaper/animated/SvgDecoder.java:1296-1312 | getStrokePaint has no branch for "none": it reads "one" as a hexadecimal number, fails, takes 0 and forces it opaque | stroke="none" on any figure | "none" means no stroke, as it does for fill | not executed | Colors.StrokeNoneIsBlack | Colors.StrokePaint |
