# TextOverlay in Dafny

A model of the `TextOverlay` node of ComfyUI-TextOverlay (`nodes.py`), the
node that writes a block of text onto an image, with proofs about it.

- **Colour parsing.** `hex_to_rgba` and `hex_to_rgb` become total functions
  that return `Ok(colour)` or `Err(error)`. Python's `ValueError` becomes an
  error value.
- **Word wrap.** The greedy loop in `draw_text` becomes an imperative method,
  `WrapLines`. It is proved equal to a fold, `Run`, over the tokens of
  `text.replace("\n", "\n ").split(" ")`. The font's `textlength` is an
  abstract function `measure: string -> int`.
- **Placement.** The origin of the text block is a function of the canvas
  size, the bounding box `multiline_textbbox` returns, the padding, the two
  alignments and the two shifts.
- **The object.** `TextOverlay` is a class whose fields `loadedFont`,
  `fullText`, `x` and `y` are the four cached fields `_loaded_font`,
  `_full_text`, `_x` and `_y`. `DrawText` updates them as the function
  `Refresh` says. It returns the arguments of the final `draw.text` call, or
  the colour error.
- **The batch driver.** `BatchProcess` handles a single image and a stack of
  images, as the code is written. The stack loop is also modelled as
  evidently intended, in `DrawStackIntended` and `BatchProcessIntended` (see
  Findings).

The font backend is a datatype of three functions: `loadFont` (font lookup
with its fallback), `textLength` and `textBBox`. The values of those
functions are parameters of the model. An image is only its width and height.

There are two files:
- `pystr.dfy` (module `PyStr`) holds the Python string built-ins the code
  uses, `lstrip`, `strip`, `split(" ")`, `replace` and `join`, with the
  facts the proofs need. It also defines `isspace` (the whitespace set
  `strip` uses) and `split()` (the whitespace-separated words). The code
  calls neither; they serve to state that the wrap keeps the words.
- `overlay.dfy` (module `Overlay`) holds everything else.

The model follows the code in its edge cases. For example, an empty text
does not wrap to "no lines" or to a single empty line in every case. It
wraps to `[""]`, or to `["", ""]` when even `measure("")` reaches the limit,
because the only token is the empty one and the final buffer is always
appended.

## Model

| member | source | states |
|---|---|---|
| PyStr.LStrip | nodes.py:113 | the result is no longer than the input and does not start with the stripped character |
| PyStr.LStripDrops | nodes.py:113 | `lstrip("#")` keeps a suffix of the input and drops only `#` characters |
| PyStr.StripLeft | nodes.py:195 | the leading-whitespace half of `strip()`: the result is no longer than the input and starts with no whitespace; with `StripLeftDrops` it is the suffix left after dropping only whitespace |
| PyStr.StripRight | nodes.py:195 | the trailing-whitespace half of `strip()`: the result is no longer than the input, keeps its first character and ends with no whitespace; with `StripRightDrops` it is the prefix left after dropping only whitespace |
| PyStr.Strip | nodes.py:195 | the result has no whitespace at either end and is no longer than the input |
| PyStr.StripFixes | nodes.py:195-202 | `strip` leaves a string without outer whitespace unchanged, and gives `""` exactly for an all-whitespace string |
| PyStr.ReplaceNewlines | nodes.py:190 | `replace("\n", "\n ")`, defined without a contract; `ReplaceNewlinesCounts`, `ReplaceNewlinesConcat`, `ReplaceNoNewline` and `WordsReplaceNewlines` state what it does |
| PyStr.Split | nodes.py:190 | `split(" ")`, defined without a contract; `SplitPieces`, `JoinSplit`, `SplitAtSpace` and `SplitNoSpace` state what it does |
| PyStr.JoinWith | nodes.py:208 | `"\n".join(...)`, defined without a contract; `JoinSplit` (its inverse on `split(" ")`) and `WordsJoin` state what it does |
| PyStr.ReplaceNewlinesCounts | nodes.py:190 | `replace("\n", "\n ")` adds exactly one character, a space, per line break |
| PyStr.SplitPieces | nodes.py:190 | `split(" ")` gives one piece more than there are spaces, and no piece holds a space |
| PyStr.JoinSplit | nodes.py:190 | joining the pieces of `split(" ")` with a space gives back the string |
| PyStr.WordsReplaceNewlines | nodes.py:190 | the rewrite of line breaks keeps the whitespace-separated words |
| Overlay.DoubleNibbles | nodes.py:118-119 | the short-form expansion is twice as long and holds each digit at positions `2i` and `2i+1` |
| Overlay.PairAt | nodes.py:122 | a pair of hex digits decodes to a byte in [0, 255] |
| Overlay.HexVal | nodes.py:122 | one hex digit as `int(_, 16)` reads it: a value in [0, 16); `PairAt` builds a pair's byte from two of them |
| Overlay.Trunc | nodes.py:125 | `int()` on a float truncates toward zero: the result is within 1 of `x` and on the side of 0 |
| Overlay.HexToRgba | nodes.py:108-127 | fails exactly when the string, after every leading `#` is stripped, has a length other than 3, 4, 6 or 8 (an `InvalidLength` error carrying it) or holds a non-hex digit; otherwise r, g and b lie in [0, 255], and alpha lies in [0, 255] when alpha digits are given and is `int(255 * opacity)` otherwise |
| Overlay.DecodePairs | nodes.py:121-125 | on an expanded 6- or 8-digit string of hex digits, r, g and b lie in [0, 255]; alpha lies in [0, 255] for 8 digits and is `int(255 * opacity)` otherwise |
| Overlay.HexToRgb | nodes.py:103-106 | defined without a contract as `hex_to_rgba` at opacity 1 without its alpha; `HexToRgbIsRgbaPrefix` states that it fails exactly when `hex_to_rgba` fails and otherwise gives its red, green and blue at any opacity |
| Overlay.ExpandedHex | nodes.py:118-119 | doubling the nibbles keeps a string all-hex exactly when it was |
| Overlay.HexToRgbIsRgbaPrefix | nodes.py:103-106 | `hex_to_rgb` fails on the same strings as `hex_to_rgba` and returns its first three components, whatever the opacity |
| Overlay.ShortFormIsDoubled | nodes.py:117-119 | a 3- or 4-digit form decodes exactly as its nibble-doubled 6- or 8-digit form |
| Overlay.ShortFormComponents | nodes.py:117-125 | in a short form each component is 17 times its digit's value; without an alpha digit, alpha is `int(255 * opacity)` |
| Overlay.LongFormComponents | nodes.py:121-125 | in a 6- or 8-digit form r, g and b are the big-endian pairs at offsets 0, 2 and 4, and alpha is the pair at 6 or else `int(255 * opacity)` |
| Overlay.AlphaDigitsIgnoreOpacity | nodes.py:125 | with 4 or 8 digits the opacity argument makes no difference |
| Overlay.OpacityAlphaInRange | nodes.py:125 | an opacity in [0, 1] gives an alpha in [0, 255] |
| Overlay.ValidHexParses | nodes.py:113-127 | every 3-, 4-, 6- or 8-digit hex string parses, after any number of leading `#` |
| Overlay.LongColourExample | nodes.py:121-127 | `"#11223344"` is (17, 34, 51, 68) at any opacity |
| Overlay.ShortColourExample | nodes.py:117-127 | `"#fff"` is white with alpha `int(255 * opacity)` |
| Overlay.ShortColourOpacityExample | nodes.py:125 | `"#fff"` at opacity 0.4 has alpha 102 |
| Overlay.ShortFormExamples | nodes.py:113-119 | `"#fff"` decodes as `"#ffffff"`, and `"##fff"` as `"#fff"` |
| Overlay.BadLengthExample | nodes.py:113-115 | `"#ab"` fails with a length error carrying `"ab"` |
| Overlay.Tokens | nodes.py:190 | the tokens `words`, defined without a contract; `HardBreakTokens`, `TwoWordTokens` and `WrapLineCount` state what they are |
| Overlay.PlaceWord | nodes.py:196-203 | the fit test, defined without a contract; `PlaceWordWords`, `FirstPlace` and `SecondPlace` state what it does |
| Overlay.FitStep | nodes.py:194-206 | one iteration of the loop, defined without a contract; `StepWords`, `StepGood`, `WordStep` and `BreakStep` state what it does |
| Overlay.Flush | nodes.py:202-207 | `text_lines.append(line.strip())` followed by `line = ""`, defined without a contract; `FlushWords` and `FlushGood` state what it does |
| Overlay.FlushWords | nodes.py:202-207 | a flush keeps the earlier lines as a prefix, appends the stripped buffer as one new line, empties the buffer, and keeps the words held in lines and buffer |
| Overlay.FlushGood | nodes.py:202-207 | a flush keeps every flushed line stripped and the buffer empty or ending in a space |
| Overlay.Run | nodes.py:193-206 | the loop over the tokens, defined without a contract; `WrapLines` is proved equal to it, and `RunConcat`, `RunWords`, `RunGood` and `RunCount` state what it does |
| Overlay.WrappedLines | nodes.py:192-207 | the final `text_lines`, defined without a contract; `WrapKeepsWords`, `WrapLineCount`, `HardBreak`, `SingleWord` and `TwoWords` state what it is |
| Overlay.WrapText | nodes.py:208 | the value stored in `_full_text`, defined without a contract; `WrapKeepsWords` states that it holds the input's words |
| Overlay.WrapLines | nodes.py:190-207 | the loop's `text_lines` is the fold `Run` of one step per token, followed by the final append of the stripped buffer |
| Overlay.RunConcat | nodes.py:193-206 | running over two token lists is running over the first, then the second |
| Overlay.RunKeepsPrefix | nodes.py:193-206 | lines flushed before a run stay in front, untouched |
| Overlay.StepWords | nodes.py:193-206 | one step adds exactly the words of its token; it flushes at most two lines, and at least one when the token held a line break |
| Overlay.RunGood | nodes.py:193-206 | every flushed line stays stripped, and the buffer stays empty or ends in the space the loop appended |
| Overlay.RunWords | nodes.py:193-206 | the run holds the words of every token, in order |
| Overlay.RunCount | nodes.py:193-206 | a run flushes at least one line per token with a line break and at most two lines per token |
| Overlay.WrapKeepsWords | nodes.py:190-208 | words are never split, dropped or reordered: the words of the joined output are those of the input, and every output line is stripped |
| Overlay.WrapLineCount | nodes.py:190-207 | the output has at least one more line than the input has line breaks, and at most two per token plus one |
| Overlay.FirstTokenTooWide | nodes.py:196-203 | when the first word does not fit, the first line of the output is empty |
| Overlay.NonPositiveLimitFirstLineEmpty | nodes.py:196-203 | with a limit of 0 or less and a non-negative measure, the first line is always empty |
| Overlay.SingleWord | nodes.py:190-207 | a text without whitespace is one line when it fits and otherwise follows an empty line |
| Overlay.TwoWords | nodes.py:192-207 | two words give one line exactly when `measure(a + " " + b)` (no trailing space) is under the limit, preceded by an empty line when `a` alone does not fit |
| Overlay.BreakStep | nodes.py:194-206 | a token ending in a line break places its word, then flushes |
| Overlay.HardBreakTokens | nodes.py:190 | the tokens of `a + "\n" + b` are those of `a`, with the line break glued to the last one, then those of `b` |
| Overlay.HardBreak | nodes.py:190-207 | a line break is a hard boundary: the text before it and the text after it wrap independently, and their lines are concatenated |
| Overlay.Place | nodes.py:220-233 | before the shifts are added, the origin is `padding` for left and top; for center and middle it plus half the box's width (height) is half the canvas width (height); for right and bottom it plus the box's width (height) is the canvas width (height) minus `padding`; the shifts are then added and nothing is clamped |
| Overlay.PlaceTranslationInvariant | nodes.py:212-233 | translating the bounding box leaves the origin unchanged |
| Overlay.PlaceNearEdgeIgnoresSize | nodes.py:220-230 | left alignment does not depend on the canvas width, and top alignment does not depend on its height |
| Overlay.PlaceExamples | nodes.py:220-226 | worked cases, including a block wider than the canvas that starts left of it |
| Overlay.StrokeWidth | nodes.py:216 | `int(font_size * stroke_thickness * 0.5)`, defined without a contract; `BatchCallSameLayout` uses that it does not depend on the stroke opacity |
| Overlay.OriginOf | nodes.py:212-233 | `Place` applied to the box the backend measures for the text at (0, 0), defined without a contract; its meaning is `Place`'s contract |
| Overlay.Measure | nodes.py:197 | `draw.textlength(_, font=self._loaded_font)`: the backend's width of a string in the loaded font, defined without a contract; the wrap lemmas take it as an arbitrary measure |
| Overlay.Refresh | nodes.py:171-211 | after a call every cached field is set |
| Overlay.Paint | nodes.py:235-249 | the draw fails exactly when one of the two colours fails; otherwise it draws the cached text at the cached origin in the cached font, with the fill colour at opacity 1, the stroke colour at `stroke_opacity`, the stroke width, the alignment and the line spacing of the style |
| Overlay.Render | nodes.py:129-250 | what one `draw_text` call with `use_cache` false draws, defined without a contract; `ReuseMatchesRecompute` and `RenderErrorOnlyFromColours` state what it does |
| Overlay.NoCacheRecomputesAll | nodes.py:171-211 | with `use_cache` false the previous cache plays no part |
| Overlay.CacheKeptWhenFilled | nodes.py:171-211 | with `use_cache` true and every field set, nothing is recomputed |
| Overlay.ReuseMatchesRecompute | nodes.py:129-249 | reusing the layout of an identical previous call draws what recomputing it would |
| Overlay.RenderErrorOnlyFromColours | nodes.py:235-237 | whether a draw fails depends only on the two colour strings |
| Overlay.BatchCallStyle | nodes.py:320-335 | the arguments the batch loop passes, with the flag as `stroke_opacity`, defined without a contract; `BatchCallSameLayout` and `BatchStrokeAlphaAsWritten` state its effect |
| Overlay.BoolAsOpacity | nodes.py:334 | the flag `use_cache` read as the number `stroke_opacity`, as `255 * True` and `255 * False` do at nodes.py:125: 1.0 or 0.0, defined without a contract; `BatchStrokeAlphaAsWritten` states the alphas it gives |
| Overlay.BatchCallSameLayout | nodes.py:320-335 | the flag that lands in `stroke_opacity` leaves the cache exactly as a correct call would |
| Overlay.PaintStrokeAlpha | nodes.py:236-237 | for a stroke colour without alpha digits, the stroke alpha is `int(255 * stroke_opacity)` |
| Overlay.BatchStrokeAlphaAsWritten | nodes.py:318-337 | as written, the stroke alpha is 0 for the first image and 255 for every later one, whatever `stroke_opacity` says; the fill colour is unaffected |
| Overlay.BatchStrokeAlphaIntended | nodes.py:318-337 | with the flag bound to `use_cache`, the stroke alpha is `int(255 * stroke_opacity)` for every image |
| Overlay.DrawnAsWrittenSnoc | nodes.py:319-336 | one more drawn image extends the record of the loop's draws |
| Overlay.TextOverlay.constructor | nodes.py:18-30 | keeps the device and leaves every cached field unset |
| Overlay.TextOverlay.UpdateLayout | nodes.py:170-233 | the new cache is `Refresh` of the old: each field is recomputed when it is unset or `use_cache` is false, and kept otherwise |
| Overlay.TextOverlay.DrawText | nodes.py:129-250 | the cache is updated as `Refresh` says, and the result is `Paint` of the new cache; a colour error is raised after the cache is updated |
| Overlay.TextOverlay.BatchProcess | nodes.py:292-340 | a single image is drawn once with `use_cache` false and the cache is fresh; a stack is drawn by the stack loop as written (`StackOutcome`): every image from scratch with the flag in `stroke_opacity`, the first image's colour error raised, an empty stack failing, and the cache left by the last image |
| Overlay.TextOverlay.DrawSingle | nodes.py:293-314 | one draw with every argument in place and `use_cache` false: the cache is fresh and the result is that draw, or its colour error |
| Overlay.TextOverlay.BatchProcessIntended | nodes.py:292-340 | `batch_process` with the stack loop corrected: a stack draws every image as a fresh draw of the first and leaves the first image's cache; a failing stack returns the first image's colour error; an empty stack fails and leaves the cache untouched |
| Overlay.TextOverlay.DrawStack | nodes.py:315-340 | the stack loop as written: an empty stack fails in `np.stack` and leaves the cache alone; otherwise the first image's colour error, if there is one, is raised; or else image `i` is drawn as a fresh call whose stroke opacity is the flag `i > 0`, and the cache is what the last image left |
| Overlay.TextOverlay.DrawStackIntended | nodes.py:315-340 | the stack loop with `use_cache=use_cache` and `stroke_opacity` passed: the first image fills the cache, and every image gets the first image's draw call; a failure is the first image's colour error; an empty stack fails and leaves the cache untouched |

## Left out

- Font loading (nodes.py:171-184) looks fonts up in a directory and falls back to the default font in PIL. Both become `backend.loadFont`, a parameter.
- `draw.textlength`, `draw.multiline_textbbox` and `draw.text` rasterise text in PIL. The first two become parameters of the backend. The third is modelled only by its arguments, the `DrawCall` value.
- `textlength` returns a float in PIL. The model takes an integer measure.
- Placement and the stroke width use reals, so there is no floating-point rounding. This matters for `int(font_size * stroke_thickness * 0.5)`, which feeds only the backend.
- Overlay.HexToRgba: the alpha `int(255 * opacity)` (nodes.py:125) is `Trunc` of the exact real product, not of a rounded float product. When the exact product lies just below an integer, the float product can round up to that integer. Python's alpha is then one more than the model's, or one less for a negative opacity.
- Overlay.Trunc: truncates an exact real, not a float, so the same difference applies.
- Overlay.BBox: the model takes the coordinates `multiline_textbbox` returns as integers. A backend that returns fractional coordinates is not covered.
- In `batch_process`, the torch/numpy/PIL conversion of the image is not modelled (nodes.py:293-295, 312-317, 336-340). That includes `squeeze(0)` on the 3-D path and the tensor that is returned. An image is its width and height, and the result is the list of draw calls.
- `get_font_list` (nodes.py:342-358) lists a directory. `INPUT_TYPES` (nodes.py:32-96) is a declarative schema. Neither is modelled.
- `int(s, 16)` also accepts a sign, surrounding whitespace and non-ASCII digits. The model treats every character outside `0-9a-fA-F` as an `InvalidDigit` error.
- Alignment strings outside the three listed values are excluded by the enumerations `HAlign` and `VAlign`. With such a string the code keeps the previous `_x` (`_y`) and adds the shift to it again, or raises `TypeError` when the field is still `None` (nodes.py:226, 233).
- The error message text of `ValueError` is not modelled. The error carries a string instead: a length error carries the stripped string, and a digit error carries the expanded one (`"#ggg"` gives `InvalidDigit("gggggg")`).
- Overlay.TextOverlay.DrawStackIntended: gives every image the first image's cached layout, as the corrected loop with `use_cache=True` does whatever the sizes. That this reuse equals a fresh draw of each image holds only because all images of one tensor stack have the same size.

## Findings

| source | as written | input that shows it | evidently intended | confidence | as-written member | corrected member |
|---|---|---|---|---|---|---|
| nodes.py:320-335 | the stack loop passes its per-image flag `use_cache` as the fourteenth positional argument of `draw_text`. That argument is `stroke_opacity`, so `use_cache` stays `False` and the real `stroke_opacity` is never passed | a stack of two images with stroke colour `"#000000"` and `stroke_opacity` 0.5: the stroke alpha is 0 for the first image and 255 for the second, instead of 127 for both, and the layout is recomputed for every image | `stroke_opacity` is passed through and the flag is given as `use_cache=use_cache`, so the second and later images reuse the cached font, text and origin | high, not executed | Overlay.TextOverlay.DrawStack, Overlay.BatchStrokeAlphaAsWritten | Overlay.TextOverlay.DrawStackIntended, Overlay.TextOverlay.BatchProcessIntended, Overlay.BatchStrokeAlphaIntended |
