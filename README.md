# color2png core in Dafny

color2png is a small HTTP service that renders solid or two-colour-gradient images on demand.
All of its parameters come from the URL path. This project models the logic behind the routes:

- reading a colour from hex digits (`parseHexColor`);
- reading a colour from decimal channel parameters (`getUint8Param`, `parseRGB`, `parseRGBA`, and
  the colour assembly of the `/rgb` and `/rgba` handlers);
- reading the image dimensions (`parseDimension`, `getWH`);
- the generic `clamp`;
- the pixel-fill loops that build the image (`createSolidImage`, `createGradientImage`).

Modules, leaf first:

- `Wrappers`: `Option` and `Result`, standing for Go's `(value, error)` pairs.
- `Utils`: `clamp`, over the integers.
- `Colours`: `uint8`, `color.RGBA`, the truncating `uint8(v)` conversion, and the wrapping `*= 17`.
- `Decimal`: `strconv.Atoi`. It accepts an optional sign and one or more ASCII digits, and the value must fit
  a 64-bit `int`. `Itoa` is its inverse, used only to state the round trip.
- `HexColour`: `parseHexColor`. It includes a model of `fmt.Sscanf` with `%02x`/`%1x` verbs into
  `uint8` operands. Each verb takes the leading hex digits, up to its width. No digit is an error.
  Operands are filled in order until the first failure. Input left after the last verb is ignored.
  Go's `len(s)`, which counts UTF-8 bytes, is `Utf8Length`.
- `Params`: `getUint8Param`, `parseRGB` and `parseRGBA` over the request's path parameters. These are a
  `map<string, string>`, where an absent name reads as `""`.
- `Dimensions`: `parseDimension`, `getWH`.
- `Routes`: the `/rgb` and `/rgba` handlers of main.go, with the integer lookup `c.ParamsInt` as a
  function parameter.
- `Raster`: `image.NewRGBA` as a class over an `array2`, with `Set` and the two nested fill loops.

main.go and image_utils.go both define `parseHexColor` and `createSolidImage` with the same code.
Only the error text for a bad length differs: main.go's message does not mention the length.
Each is modelled once. The table cites both files.

## Behaviour of the code worth knowing

- Channel values wrap modulo 256 and never saturate. `uint8(v)` is taken before `clamp`, so the
  clamp never changes anything. `"300"` gives 44 and `"-1"` gives 255.
- The 6- and 8-digit hex forms accept any last character. Their last `%02x` verb stops at the first
  non-hex character, and `Sscanf` ignores what follows. Any string of the right byte length whose
  first 5 (or 7) characters are hex digits is accepted: `"ffff0z"` is `{255, 255, 0, 255}`. The 3-
  and 4-digit forms are strict.
- `createSolidImage` and `createGradientImage` never fail. With `w <= 0` or `h <= 0`, `image.Rect`
  puts the corners in order and the loops write nothing. The result is a `|w|` by `|h|` image of zero
  pixels.

## Model

| member | source | states |
|---|---|---|
| `Utils.Clamp` | utils.go:5-15 | on a range with min <= max the result lies in [min, max]; below min it is min; above max (and not below min) it is max; inside the range it is v unchanged |
| `Utils.ClampIsNearest` | utils.go:5-15 | on a well-formed range the clamp is the point of [min, max] closest to v |
| `Utils.ClampIdempotent` | utils.go:5-15 | clamping a clamped value changes nothing |
| `Utils.ClampEmptyRange` | utils.go:5-15 | with min > max every value not below min comes out as max |
| `Colours.ToUint8` | image_utils.go:103 | `uint8(v)` keeps v modulo 256 (its low 8 bits), and a value already in [0, 255] unchanged |
| `Colours.Mul17` | image_utils.go:32-35 | `x *= 17` on a uint8 is 17x modulo 256 |
| `Colours.Mul17Nibble` | image_utils.go:43-45 | on a single hex digit d, 17d does not wrap and puts d in both nibbles |
| `Decimal.Atoi` | image_utils.go:98-101 | a parsed value lies in the 64-bit range, the text is non-empty and ends in a digit, and unsigned text gives a non-negative value |
| `Decimal.AtoiItoa` | image_utils.go:107 | Atoi reads back every 64-bit integer from its decimal rendering |
| `Decimal.AtoiExamples` | image_utils.go:98 | leading zeros and '+' are accepted; "", a lone sign, letters, '.' and a leading space are errors |
| `Decimal.AtoiOutOfRange` | image_utils.go:98 | one past either end of the 64-bit range is an error |
| `Decimal.DigitsValueLeadingZeros` | image_utils.go:98 | leading zeros do not change the value of a digit string |
| `Decimal.AtoiSignDigits` | image_utils.go:98-101 | a sign "", "+" or "-" followed by digits gives their value, negated after "-", when it fits 64 bits, and an error otherwise |
| `Decimal.AtoiSignedDecimal` | image_utils.go:98-101 | for sign "", "+" or "-" and k leading zeros, the text sign, zeros, digits of n gives +n or -n when that fits 64 bits, and an error otherwise |
| `Decimal.AtoiAcceptedForm` | image_utils.go:98-101 | every text Atoi accepts is a sign "", "+" or "-", some leading zeros and the digits of the magnitude of the result, and the result is negative only after "-" |
| `HexColour.Utf8LengthBounds` | image_utils.go:17 | the byte length Go switches on is at least the character count, and equals it exactly on ASCII text |
| `HexColour.HexRun` | image_utils.go:19 | a verb takes the longest run of leading hex digits that fits its width |
| `HexColour.ScanUint8` | image_utils.go:19 | a successful verb uses between 1 and width characters; with a width of 1 or 2 it fails only on a non-hex first character |
| `HexColour.Sscanf` | image_utils.go:23 | no more operands are filled than verbs, and the scan completes exactly when all are filled |
| `HexColour.FromOperands` | image_utils.go:19 | the scanned values go to R, G, B, A in order: none gives all zeros, one sets only R, two only R and G, three R, G and B, four all channels |
| `HexColour.SscanfSingleDigits` | image_utils.go:28 | `%1x` verbs complete exactly when the first `count` characters are hex digits, and operand k is digit k |
| `HexColour.SscanfPairsComplete` | image_utils.go:23 | `%02x` verbs complete exactly when the first 2·count−1 characters are hex digits |
| `HexColour.SscanfPairs` | image_utils.go:19 | on all-hex text, `%02x` operand k is the byte of characters 2k and 2k+1 |
| `HexColour.ParseHexColor` | image_utils.go:16-52 | success only for byte lengths 3, 4, 6, 8; any other length is an error carrying the length; a 3- or 4-character scan failure returns the zero colour; lengths 3 and 6 give alpha 255 |
| `HexColour.ParseEightDigits` | main.go:15-17 | RRGGBBAA: the four byte pairs are R, G, B, A in order (same code at image_utils.go:18-20) |
| `HexColour.ParseSixDigits` | main.go:19-22 | RRGGBB: the three byte pairs are R, G, B and alpha is 255 (same code at image_utils.go:22-25) |
| `HexColour.ParseFourDigits` | main.go:24-33 | RGBA shorthand: every channel is 17 times its digit (same code at image_utils.go:27-36) |
| `HexColour.ParseThreeDigits` | main.go:35-44 | RGB shorthand: R, G, B are 17 times their digit, alpha 255 (same code at image_utils.go:38-47) |
| `HexColour.ShortFormsAreStrict` | image_utils.go:27-47 | at byte length 3 or 4, success exactly when the text is all hex digits |
| `HexColour.LongFormsIgnoreLastCharacter` | image_utils.go:18-25 | at byte length 6 or 8, success exactly when all characters but the last are hex digits |
| `HexColour.HexByte` | image_utils.go:19 | the two lower-case digits of a byte scan back to that byte |
| `HexColour.ParseFormatHex8` | image_utils.go:18-20 | parsing the 8-digit rendering of any colour gives that colour back |
| `HexColour.ParseFormatHex6` | image_utils.go:22-25 | parsing the 6-digit rendering gives the colour back with alpha 255 |
| `HexColour.ParseHexExampleFour` | image_utils.go:27-36 | "f0a1" is {255, 0, 170, 17} |
| `HexColour.ParseHexExampleSix` | image_utils.go:22-25 | "ff0000" is {255, 0, 0, 255} |
| `HexColour.ParseHexExampleEight` | image_utils.go:18-20 | "ff0000ff" is {255, 0, 0, 255} |
| `HexColour.ParseHexExampleThree` | image_utils.go:38-47 | "fff" is {255, 255, 255, 255} |
| `HexColour.ParseHexErrorExamples` | main.go:46-47 | "abcde" is a length error; "zz0000" fails and returns the colour with only alpha set to 255 (image_utils.go:22-25) |
| `HexColour.ParseHexLenientExample` | image_utils.go:22-25 | "ffff0z" is accepted as {255, 255, 0, 255} |
| `Params.GetUint8Param` | image_utils.go:92-104 | an empty or absent parameter gives 0; otherwise it succeeds exactly when Atoi does, the result is Atoi's value modulo 256, and an error carries the text |
| `Params.GetUint8ParamTruncates` | image_utils.go:103 | the result is exactly uint8(v): the clamp never changes it |
| `Params.GetUint8ParamWraps` | image_utils.go:103 | "300" gives 44, "256" gives 0, "-1" gives 255 |
| `Params.GetUint8ParamDefaults` | image_utils.go:94-101 | absent and "" give 0; "abc" is an error |
| `Params.ParseRgb` | image_utils.go:54-76 | reads r, then g, then b, stopping at the first failure with that error and the partly filled colour; on success the colour is the three channels with alpha 255 |
| `Params.ParseRgba` | image_utils.go:78-90 | the same R, G, B, with alpha from a; a failure in r, g or b returns before a is read; a failing a leaves alpha 0 |
| `Dimensions.ParseDimension` | image_utils.go:106-117 | fails exactly on Atoi failures and values <= 0; a result lies in [1, 512] and is v when v <= 512, else 512 |
| `Dimensions.GetWH` | image_utils.go:119-131 | succeeds exactly when both w and h parse, with the pair of their values, each in [1, 512] |
| `Dimensions.WidthFailureIgnoresHeight` | image_utils.go:120-123 | once w is invalid the outcome does not depend on h |
| `Dimensions.ParseDimensionExamples` | image_utils.go:106-117 | "0", "-5" and "" fail; "32" is 32; "9999" is capped to 512 |
| `Routes.Uint8Param` | main.go:51-58 | a lookup error is passed on; an integer is kept modulo 256 |
| `Routes.RgbRouteColour` | main.go:113-131 | r, g, b are read in that order, the first failure is the handler's error, and success gives the three channels with alpha 255 |
| `Routes.RgbaRouteColour` | main.go:145-167 | succeeds exactly when the /rgb colour does and a parses, giving that colour with alpha a; a failing r, g or b returns the /rgb handler's error, and otherwise a failing a returns a's error |
| `Routes.RgbaStopsBeforeAlpha` | main.go:145-156 | when r, g or b fails the /rgba handler returns that error, whatever a holds |
| `Raster.Canvas.constructor` | image_utils.go:134 | the image covers Rect(0, 0, w, h) with corners put in order, and starts with all pixels zero |
| `Raster.Canvas.Set` | image_utils.go:137 | writes the one pixel (x, y) when it lies in the image, and nothing else |
| `Raster.CreateSolidImage` | image_utils.go:133-142 | every pixel of [0, w) × [0, h) is c and every other pixel is zero (same code at main.go:74-83) |
| `Raster.CreateGradientImage` | image_utils.go:144-156 | pixel (x, y) of [0, w) × [0, h) is the gradient's colour for column x, so all its rows are identical |

## Left out

- HTTP plumbing is not modelled: Fiber routing, `app.Listen`, `c.SendStream` and `c.SendStatus`. The handlers are modelled only where they assemble a colour.
- `png.Encode` and the `bytes.Buffer` it writes to are not modelled. They are an external encoder and I/O.
- `c.Params` is a map lookup where an absent name gives `""`. `c.ParamsInt` is an opaque function parameter, since Fiber's code is not part of this model.
- main.go's `getWH` (main.go:60-72) only wraps `c.ParamsInt` and is not modelled.
- Colour interpolation is not modelled: `colorgrad.Gradient.At` and the `float64(x) / float64(w)` arithmetic are floating point and a foreign library. `Raster.CreateGradientImage` takes the column's colour as a function `g` of x.
- `HexColour.ParseHexColor`: does not model `Sscanf` skipping whitespace before a verb, or its error on a newline. The model treats a space like any other non-hex character.
- `Decimal.Atoi`: does not tell a syntax error from a range error (`strconv.ErrSyntax` and `strconv.ErrRange`). It assumes Go's `int` is 64 bits wide.
- `Raster.Canvas.constructor`: does not model `image.NewRGBA` panicking when w·h·4 overflows or memory runs out.
- `Raster.Canvas`: holds one `RGBA` per pixel, not Go's four bytes per pixel with a row stride.
- `Params.ParseRgb` and `Params.ParseRgba` return the colour by value. Go returns a pointer to a freshly allocated `color.RGBA`, which nothing else shares.
- The RAL colour lookup is not modelled, since it does not appear in these files.
