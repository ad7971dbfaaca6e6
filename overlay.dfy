/** The text overlay node: hex colour parsing, greedy word wrap, placement
    of the wrapped block on the canvas, and the `TextOverlay` object whose
    layout cache `draw_text` fills and the batch driver runs over a stack of
    images. The font backend (loading, measuring, bounding box, drawing) is a
    set of opaque functions passed in as a `Backend`. */
module Overlay {
  import opened PyStr

  datatype Option<T> = None | Some(value: T)

  datatype Result<T, E> = Ok(value: T) | Err(error: E)

  // =====================================================================
  // Colours (hex_to_rgb, hex_to_rgba)

  /** The `ValueError`s `hex_to_rgba` raises: a length other than 3, 4, 6
      or 8 once the leading `#`s are gone, or a pair `int(_, 16)` rejects. */
  datatype ColorError = InvalidLength(stripped: string) | InvalidDigit(expanded: string)

  datatype Rgba = Rgba(red: int, green: int, blue: int, alpha: int)

  datatype Rgb = Rgb(red: int, green: int, blue: int)

  predicate IsHexDigit(c: char) {
    ('0' <= c <= '9') || ('a' <= c <= 'f') || ('A' <= c <= 'F')
  }

  predicate AllHex(s: string) {
    forall i :: 0 <= i < |s| ==> IsHexDigit(s[i])
  }

  predicate InByteRange(n: int) {
    0 <= n <= 255
  }

  /** The lengths `hex_to_rgba` accepts. */
  predicate ValidHexLength(n: nat) {
    n == 3 || n == 4 || n == 6 || n == 8
  }

  /** The value of one hexadecimal digit. */
  function HexVal(c: char): (v: int)
    requires IsHexDigit(c)
    ensures 0 <= v < 16
  {
    if '0' <= c <= '9' then c as int - '0' as int
    else if 'a' <= c <= 'f' then c as int - 'a' as int + 10
    else c as int - 'A' as int + 10
  }

  /** `int(e[i:i+2], 16)`: the big-endian byte at offset `i`. */
  function PairAt(e: string, i: nat): (v: int)
    requires i + 1 < |e| && IsHexDigit(e[i]) && IsHexDigit(e[i + 1])
    ensures InByteRange(v)
  {
    16 * HexVal(e[i]) + HexVal(e[i + 1])
  }

  /** `''.join(c * 2 for c in s)`: every character written twice. */
  function DoubleNibbles(s: string): (r: string)
    ensures |r| == 2 * |s|
    ensures forall i :: 0 <= i < |s| ==> r[2 * i] == s[i] && r[2 * i + 1] == s[i]
  {
    if s == [] then [] else [s[0], s[0]] + DoubleNibbles(s[1..])
  }

  /** Python's `int(x)` on a float: truncation toward zero. */
  function Trunc(x: real): (n: int)
    ensures x >= 0.0 ==> n >= 0 && n as real <= x < n as real + 1.0
    ensures x < 0.0 ==> n <= 0 && n as real - 1.0 < x <= n as real
  {
    if x >= 0.0 then x.Floor else -((-x).Floor)
  }

  /** The bytes of an expanded 6- or 8-digit string: pairs at offsets 0, 2
      and 4, and the alpha from offset 6 or else from `int(255 * opacity)`. */
  function DecodePairs(e: string, opacity: real): (c: Rgba)
    requires (|e| == 6 || |e| == 8) && AllHex(e)
    ensures InByteRange(c.red) && InByteRange(c.green) && InByteRange(c.blue)
    ensures if |e| == 8 then InByteRange(c.alpha) else c.alpha == Trunc(255.0 * opacity)
  {
    var alpha := if |e| == 8 then PairAt(e, 6) else Trunc(255.0 * opacity);
    Rgba(PairAt(e, 0), PairAt(e, 2), PairAt(e, 4), alpha)
  }

  /** `hex_to_rgba(hex_color, opacity)`. */
  function HexToRgba(hexColor: string, opacity: real): (r: Result<Rgba, ColorError>)
    ensures var h := LStrip(hexColor, '#');
      r.Err? <==> !ValidHexLength(|h|) || !AllHex(h)
    ensures !ValidHexLength(|LStrip(hexColor, '#')|) ==> r == Err(InvalidLength(LStrip(hexColor, '#')))
    ensures r.Ok? ==> InByteRange(r.value.red) && InByteRange(r.value.green) && InByteRange(r.value.blue)
    ensures var n := |LStrip(hexColor, '#')|;
      r.Ok? ==> if n == 4 || n == 8 then InByteRange(r.value.alpha) else r.value.alpha == Trunc(255.0 * opacity)
  {
    var h := LStrip(hexColor, '#');
    if !ValidHexLength(|h|) then Err(InvalidLength(h))
    else
      var e := if |h| == 3 || |h| == 4 then DoubleNibbles(h) else h;
      ExpandedHex(h);
      if !AllHex(e) then Err(InvalidDigit(e)) else Ok(DecodePairs(e, opacity))
  }

  /** Doubling the nibbles keeps a string all-hex exactly when it was. */
  lemma ExpandedHex(h: string)
    ensures AllHex(DoubleNibbles(h)) <==> AllHex(h)
  {
  }

  /** `hex_to_rgb(hex_color)`: the colour of `hex_to_rgba` at full opacity,
      without its alpha. */
  function HexToRgb(hexColor: string): (r: Result<Rgb, ColorError>)
  {
    match HexToRgba(hexColor, 1.0)
    case Ok(c) => Ok(Rgb(c.red, c.green, c.blue))
    case Err(e) => Err(e)
  }

  /** The red, green and blue of `hex_to_rgb` are those of `hex_to_rgba`,
      whatever the opacity, and both fail on the same strings. */
  lemma HexToRgbIsRgbaPrefix(hexColor: string, opacity: real)
    ensures HexToRgb(hexColor).Err? <==> HexToRgba(hexColor, opacity).Err?
    ensures HexToRgb(hexColor).Ok? ==>
      var c := HexToRgba(hexColor, opacity).value;
      HexToRgb(hexColor).value == Rgb(c.red, c.green, c.blue)
  {
  }

  /** A short form decodes exactly as its nibble-doubled long form. */
  lemma ShortFormIsDoubled(hexColor: string, opacity: real)
    requires |LStrip(hexColor, '#')| == 3 || |LStrip(hexColor, '#')| == 4
    ensures HexToRgba(hexColor, opacity) == HexToRgba(DoubleNibbles(LStrip(hexColor, '#')), opacity)
  {
  }

  /** In a short form every digit stands for a byte of 17 times its value. */
  lemma ShortFormComponents(hexColor: string, opacity: real)
    requires var h := LStrip(hexColor, '#'); (|h| == 3 || |h| == 4) && AllHex(h)
    ensures var h := LStrip(hexColor, '#');
      var c := HexToRgba(hexColor, opacity);
      && c.Ok?
      && c.value.red == 17 * HexVal(h[0])
      && c.value.green == 17 * HexVal(h[1])
      && c.value.blue == 17 * HexVal(h[2])
      && c.value.alpha == if |h| == 4 then 17 * HexVal(h[3]) else Trunc(255.0 * opacity)
  {
  }

  /** A 6- or 8-digit form decodes the big-endian pairs at offsets 0, 2, 4
      (and 6 for the alpha). */
  lemma LongFormComponents(hexColor: string, opacity: real)
    requires var h := LStrip(hexColor, '#'); (|h| == 6 || |h| == 8) && AllHex(h)
    ensures var h := LStrip(hexColor, '#');
      var c := HexToRgba(hexColor, opacity);
      && c.Ok?
      && c.value.red == 16 * HexVal(h[0]) + HexVal(h[1])
      && c.value.green == 16 * HexVal(h[2]) + HexVal(h[3])
      && c.value.blue == 16 * HexVal(h[4]) + HexVal(h[5])
      && c.value.alpha == if |h| == 8 then 16 * HexVal(h[6]) + HexVal(h[7]) else Trunc(255.0 * opacity)
  {
  }

  /** With an alpha digit (4 or 8 digits) the opacity is ignored. */
  lemma AlphaDigitsIgnoreOpacity(hexColor: string, o1: real, o2: real)
    requires |LStrip(hexColor, '#')| == 4 || |LStrip(hexColor, '#')| == 8
    ensures HexToRgba(hexColor, o1) == HexToRgba(hexColor, o2)
  {
  }

  /** Without alpha digits, an opacity in [0, 1] gives an alpha in [0, 255]. */
  lemma OpacityAlphaInRange(hexColor: string, opacity: real)
    requires 0.0 <= opacity <= 1.0
    requires HexToRgba(hexColor, opacity).Ok?
    ensures InByteRange(HexToRgba(hexColor, opacity).value.alpha)
  {
  }

  /** A 3-, 4-, 6- or 8-digit string of hex digits always parses, after any
      number of leading `#`s. */
  lemma ValidHexParses(hexColor: string, opacity: real)
    requires ValidHexLength(|LStrip(hexColor, '#')|) && AllHex(LStrip(hexColor, '#'))
    ensures HexToRgba(hexColor, opacity).Ok?
  {
  }

  /** Worked case: the 8-digit form is self-describing. */
  lemma LongColourExample(opacity: real)
    ensures HexToRgba("#11223344", opacity) == Ok(Rgba(17, 34, 51, 68))
  {
    var h := "11223344";
    assert LStrip("#11223344", '#') == h;
    assert AllHex(h);
    LongFormComponents("#11223344", opacity);
  }

  /** Worked case: "#fff" is white with alpha int(255 * opacity). */
  lemma ShortColourExample(opacity: real)
    ensures HexToRgba("#fff", opacity) == Ok(Rgba(255, 255, 255, Trunc(255.0 * opacity)))
  {
    assert LStrip("#fff", '#') == "fff";
    assert DoubleNibbles("fff") == "ffffff";
  }

  /** Worked case: "#fff" at opacity 0.4 has alpha int(102.0). */
  lemma ShortColourOpacityExample()
    ensures HexToRgba("#fff", 0.4) == Ok(Rgba(255, 255, 255, 102))
  {
    ShortColourExample(0.4);
  }

  /** Worked cases: "#fff" is "#ffffff", and "##fff" is accepted like
      "#fff". */
  lemma ShortFormExamples(opacity: real)
    ensures HexToRgba("#fff", opacity) == HexToRgba("#ffffff", opacity)
    ensures HexToRgba("##fff", opacity) == HexToRgba("#fff", opacity)
  {
    assert LStrip("#fff", '#') == "fff";
    assert LStrip("##fff", '#') == "fff";
    assert LStrip("#ffffff", '#') == "ffffff";
    assert DoubleNibbles("fff") == "ffffff";
  }

  /** Worked case: a 2-digit string raises. */
  lemma BadLengthExample(opacity: real)
    ensures HexToRgba("#ab", opacity) == Err(InvalidLength("ab"))
  {
    assert LStrip("#ab", '#') == "ab";
  }

  // =====================================================================
  // Greedy word wrap (draw_text, the loop over `words`)

  /** The loop's two accumulators: the flushed `text_lines` and the `line`
      being filled. */
  datatype WrapState = WrapState(textLines: seq<string>, line: string)

  /** `text.replace("\n", "\n ").split(" ")`. */
  function Tokens(text: string): seq<string> {
    Split(ReplaceNewlines(text))
  }

  /** `text_lines.append(line.strip())` followed by `line = ""`. */
  function Flush(st: WrapState): WrapState {
    WrapState(st.textLines + [Strip(st.line)], "")
  }

  /** The fit test for `word`: it joins the buffer when `line + word` (the
      line keeps its trailing space, the word gets none) measures under the
      limit, and otherwise the buffer is flushed and restarts with it. */
  function PlaceWord(measure: string -> int, limit: int, st: WrapState, word: string): WrapState {
    if measure(st.line + word) < limit then WrapState(st.textLines, st.line + word + " ")
    else WrapState(Flush(st).textLines, word + " ")
  }

  /** One iteration of the loop body for the token `token`: its stripped
      word is placed, and a token that held a line break flushes right
      after. */
  function FitStep(measure: string -> int, limit: int, st: WrapState, token: string): WrapState {
    var placed := PlaceWord(measure, limit, st, Strip(token));
    if '\n' in token then Flush(placed) else placed
  }

  /** The loop over `tokens`, from state `st`. */
  function Run(measure: string -> int, limit: int, tokens: seq<string>, st: WrapState): WrapState
    decreases |tokens|
  {
    if tokens == [] then st else Run(measure, limit, tokens[1..], FitStep(measure, limit, st, tokens[0]))
  }

  function Start(): WrapState {
    WrapState([], "")
  }

  /** The `text_lines` list after the loop and the final unconditional append
      of the stripped buffer. */
  function WrappedLines(text: string, measure: string -> int, limit: int): seq<string> {
    Flush(Run(measure, limit, Tokens(text), Start())).textLines
  }

  /** `"\n".join(text_lines)`: the value stored in `_full_text`. */
  function WrapText(text: string, measure: string -> int, limit: int): string {
    JoinWith('\n', WrappedLines(text, measure, limit))
  }

  /** The wrap loop as the source writes it: a `for` over the tokens that
      grows `line` and appends to `text_lines`. `limit` is
      `image.width - 2 * padding`. */
  method WrapLines(text: string, measure: string -> int, limit: int) returns (textLines: seq<string>)
    ensures textLines == WrappedLines(text, measure, limit)
  {
    var words := Split(ReplaceNewlines(text));
    var line := "";
    textLines := [];
    for i := 0 to |words|
      invariant WrapState(textLines, line) == Run(measure, limit, words[..i], Start())
    {
      var extraLine := '\n' in words[i];
      var word := Strip(words[i]);
      if measure(line + word) < limit {
        line := line + word + " ";
      } else {
        textLines := textLines + [Strip(line)];
        line := word + " ";
      }
      if extraLine {
        textLines := textLines + [Strip(line)];
        line := "";
      }
      RunSnoc(measure, limit, words[..i], words[i], Start());
      assert words[..i + 1] == words[..i] + [words[i]];
    }
    assert words[..|words|] == words;
    textLines := textLines + [Strip(line)];
  }

  /** Running over two token lists is running over the first, then the second. */
  lemma {:induction false} RunConcat(measure: string -> int, limit: int, a: seq<string>, b: seq<string>, st: WrapState)
    ensures Run(measure, limit, a + b, st) == Run(measure, limit, b, Run(measure, limit, a, st))
    decreases |a|
  {
    if a == [] {
      assert a + b == b;
    } else {
      assert (a + b)[0] == a[0];
      assert (a + b)[1..] == a[1..] + b;
      RunConcat(measure, limit, a[1..], b, FitStep(measure, limit, st, a[0]));
    }
  }

  /** One more token is one more loop step. */
  lemma RunSnoc(measure: string -> int, limit: int, ts: seq<string>, t: string, st: WrapState)
    ensures Run(measure, limit, ts + [t], st) == FitStep(measure, limit, Run(measure, limit, ts, st), t)
  {
    RunConcat(measure, limit, ts, [t], st);
    assert [t][1..] == [];
  }

  /** Lines flushed before the loop starts stay in front, untouched. */
  lemma {:induction false} RunKeepsPrefix(measure: string -> int, limit: int, ts: seq<string>, prefix: seq<string>, st: WrapState)
    ensures var r := Run(measure, limit, ts, st);
      Run(measure, limit, ts, WrapState(prefix + st.textLines, st.line)) == WrapState(prefix + r.textLines, r.line)
    decreases |ts|
  {
    if ts != [] {
      var s1 := FitStep(measure, limit, st, ts[0]);
      var p1 := FitStep(measure, limit, WrapState(prefix + st.textLines, st.line), ts[0]);
      assert p1 == WrapState(prefix + s1.textLines, s1.line);
      RunKeepsPrefix(measure, limit, ts[1..], prefix, s1);
    }
  }

  /** The buffer is empty or ends with the space the loop appended. */
  predicate LineReady(st: WrapState) {
    st.line == [] || st.line[|st.line| - 1] == ' '
  }

  /** What every loop state satisfies: flushed lines are stripped, and the
      buffer is ready for the next word. */
  predicate GoodState(st: WrapState) {
    && (forall k :: 0 <= k < |st.textLines| ==> Stripped(st.textLines[k]))
    && LineReady(st)
  }

  /** The words held by a loop state, flushed lines first. */
  function HeldWords(st: WrapState): seq<string> {
    WordsOfAll(st.textLines) + Words(st.line)
  }

  /** Appending `word + " "` to a buffer that is empty or ends in a space
      adds exactly the words of `word`. */
  lemma WordsOfAppend(line: string, word: string)
    requires line == [] || line[|line| - 1] == ' '
    ensures Words(line + word + " ") == Words(line) + Words(word)
  {
    WordsSnocSpace(line + word, ' ');
    assert line + word + " " == (line + word) + [' '];
    if line != [] {
      var l := line[..|line| - 1];
      assert line == l + [' '];
      WordsSplitAt(l, ' ', word, []);
      assert l + [' '] + word == line + word;
      WordsSplitAt(l, ' ', [], []);
      assert l + [' '] + [] == line;
    } else {
      assert line + word == word;
    }
  }

  /** The words of a list with one more string. */
  lemma WordsOfAllSnoc(ts: seq<string>, t: string)
    ensures WordsOfAll(ts + [t]) == WordsOfAll(ts) + Words(t)
  {
    WordsOfAllConcat(ts, [t]);
    assert [t][1..] == [];
  }

  /** A flush keeps the held words and adds one line. */
  lemma FlushWords(st: WrapState)
    ensures var f := Flush(st);
      && f.textLines == st.textLines + [Strip(st.line)] && f.line == []
      && LineReady(f) && HeldWords(f) == HeldWords(st) && |f.textLines| == |st.textLines| + 1
  {
    WordsOfAllSnoc(st.textLines, Strip(st.line));
    WordsStrip(st.line);
    assert Words([]) == [];
  }

  /** A flush keeps `GoodState`. */
  lemma FlushGood(st: WrapState)
    requires GoodState(st)
    ensures GoodState(Flush(st))
  {
    var f := Flush(st);
    forall k | 0 <= k < |f.textLines|
      ensures Stripped(f.textLines[k])
    {
      if k < |st.textLines| {
        assert f.textLines[k] == st.textLines[k];
      }
    }
  }

  /** Placing a word adds exactly its words and flushes at most one line. */
  lemma PlaceWordWords(measure: string -> int, limit: int, st: WrapState, word: string)
    requires LineReady(st)
    ensures var p := PlaceWord(measure, limit, st, word);
      && LineReady(p)
      && HeldWords(p) == HeldWords(st) + Words(word)
      && |st.textLines| <= |p.textLines| <= |st.textLines| + 1
  {
    if measure(st.line + word) < limit {
      WordsOfAppend(st.line, word);
    } else {
      FlushWords(st);
      WordsOfAppend([], word);
      assert [] + word + " " == word + " ";
    }
  }

  /** One loop step adds exactly the words of the token, and flushes at
      most two lines, at least one when the token held a line break. */
  lemma StepWords(measure: string -> int, limit: int, st: WrapState, t: string)
    requires LineReady(st)
    ensures var s := FitStep(measure, limit, st, t);
      && LineReady(s)
      && HeldWords(s) == HeldWords(st) + Words(t)
      && |st.textLines| + (if '\n' in t then 1 else 0) <= |s.textLines| <= |st.textLines| + 2
  {
    WordsStrip(t);
    var placed := PlaceWord(measure, limit, st, Strip(t));
    PlaceWordWords(measure, limit, st, Strip(t));
    if '\n' in t {
      FlushWords(placed);
    }
  }

  /** One loop step keeps `GoodState`. */
  lemma StepGood(measure: string -> int, limit: int, st: WrapState, t: string)
    requires GoodState(st)
    ensures GoodState(FitStep(measure, limit, st, t))
  {
    var word := Strip(t);
    var placed := PlaceWord(measure, limit, st, word);
    if measure(st.line + word) >= limit {
      FlushGood(st);
    }
    assert GoodState(placed);
    if '\n' in t {
      FlushGood(placed);
    }
  }

  /** The loop keeps `GoodState`. */
  lemma {:induction false} RunGood(measure: string -> int, limit: int, ts: seq<string>, st: WrapState)
    requires GoodState(st)
    ensures GoodState(Run(measure, limit, ts, st))
    decreases |ts|
  {
    if ts != [] {
      StepGood(measure, limit, st, ts[0]);
      RunGood(measure, limit, ts[1..], FitStep(measure, limit, st, ts[0]));
    }
  }

  /** Regrouping a concatenation, stated over plain variables so that it
      can be used where the pieces are large terms. */
  lemma AppendAssoc<T>(x: seq<T>, y: seq<T>, z: seq<T>, a: seq<T>, b: seq<T>, c: seq<T>)
    requires x == y + c && y == a + b && z == b + c
    ensures x == a + z
  {
    assert (a + b) + c == a + (b + c);
  }

  /** The loop holds the words of every token, in order. */
  lemma {:induction false} RunWords(measure: string -> int, limit: int, ts: seq<string>, st: WrapState)
    requires LineReady(st)
    ensures HeldWords(Run(measure, limit, ts, st)) == HeldWords(st) + WordsOfAll(ts)
    decreases |ts|
  {
    if ts == [] {
      assert HeldWords(st) + [] == HeldWords(st);
    } else {
      var t, tail := ts[0], ts[1..];
      var s1 := FitStep(measure, limit, st, t);
      StepWords(measure, limit, st, t);
      RunWords(measure, limit, tail, s1);
      AppendAssoc(HeldWords(Run(measure, limit, tail, s1)), HeldWords(s1), WordsOfAll(ts),
                  HeldWords(st), Words(t), WordsOfAll(tail));
    }
  }

  /** The loop flushes between one line per token with a break and two
      lines per token. */
  lemma {:induction false} RunCount(measure: string -> int, limit: int, ts: seq<string>, st: WrapState)
    ensures var r := Run(measure, limit, ts, st);
      |st.textLines| + CountWithNewline(ts) <= |r.textLines| <= |st.textLines| + 2 * |ts|
    decreases |ts|
  {
    if ts != [] {
      var s1 := FitStep(measure, limit, st, ts[0]);
      assert |st.textLines| + (if '\n' in ts[0] then 1 else 0) <= |s1.textLines| <= |st.textLines| + 2;
      RunCount(measure, limit, ts[1..], s1);
      assert Run(measure, limit, ts, st) == Run(measure, limit, ts[1..], s1);
      assert CountWithNewline(ts) == (if '\n' in ts[0] then 1 else 0) + CountWithNewline(ts[1..]);
    }
  }

  /** Words are never split, dropped or reordered: the whitespace-separated
      words of the wrapped text are those of the input, and every output line
      is stripped. */
  lemma WrapKeepsWords(text: string, measure: string -> int, limit: int)
    ensures Words(WrapText(text, measure, limit)) == Words(text)
    ensures forall k :: 0 <= k < |WrappedLines(text, measure, limit)| ==> Stripped(WrappedLines(text, measure, limit)[k])
  {
    var st := Run(measure, limit, Tokens(text), Start());
    RunGood(measure, limit, Tokens(text), Start());
    RunWords(measure, limit, Tokens(text), Start());
    WordsJoin('\n', WrappedLines(text, measure, limit));
    FlushWords(st);
    FlushGood(st);
    assert Words([]) == [];
    assert WordsOfAll(WrappedLines(text, measure, limit)) == HeldWords(st);
    WordsOfSplit(ReplaceNewlines(text));
    WordsReplaceNewlines(text, []);
  }

  /** The number of lines: at least one more than there are line breaks in
      the input, at most two per token plus the final buffer. */
  lemma WrapLineCount(text: string, measure: string -> int, limit: int)
    ensures Count('\n', text) + 1 <= |WrappedLines(text, measure, limit)| <= 2 * |Tokens(text)| + 1
  {
    RunCount(measure, limit, Tokens(text), Start());
    NewlinePieces(text, []);
  }

  /** When the first token does not fit, the first flush emits an empty line. */
  lemma FirstTokenTooWide(text: string, measure: string -> int, limit: int)
    requires limit <= measure(Strip(Tokens(text)[0]))
    ensures WrappedLines(text, measure, limit)[0] == ""
  {
    var ts := Tokens(text);
    var s1 := FitStep(measure, limit, Start(), ts[0]);
    assert [] + Strip(ts[0]) == Strip(ts[0]);
    assert s1.textLines[0] == "";
    var rest := WrapState(s1.textLines[1..], s1.line);
    assert s1 == WrapState([""] + rest.textLines, rest.line);
    RunKeepsPrefix(measure, limit, ts[1..], [""], rest);
  }

  /** With a non-positive limit and a non-negative measure nothing fits, so
      the first line is always empty. */
  lemma NonPositiveLimitFirstLineEmpty(text: string, measure: string -> int, limit: int)
    requires limit <= 0
    requires forall s :: measure(s) >= 0
    ensures WrappedLines(text, measure, limit)[0] == ""
  {
    FirstTokenTooWide(text, measure, limit);
  }

  /** A string without whitespace is one token, and `strip` leaves it
      alone, with or without the space the loop appends. */
  lemma WordFacts(w: string)
    requires NoSpace(w)
    ensures ' ' !in w && '\n' !in w
    ensures Split(w) == [w]
    ensures Strip(w) == w && Strip(w + " ") == w
  {
    SplitNoSpace(w, []);
    assert [] + w == w;
    StripFixes(w);
    StripSnocSpace(w, ' ');
    assert w + " " == w + [' '];
  }

  /** A token without whitespace is placed as it is. */
  lemma WordStep(measure: string -> int, limit: int, st: WrapState, w: string)
    requires NoSpace(w)
    ensures FitStep(measure, limit, st, w) == PlaceWord(measure, limit, st, w)
  {
    WordFacts(w);
    assert Strip(w) == w && '\n' !in w;
  }

  /** The loop over one or two tokens. */
  lemma RunShort(measure: string -> int, limit: int, st: WrapState, a: string, b: string)
    ensures Run(measure, limit, [a], st) == FitStep(measure, limit, st, a)
    ensures Run(measure, limit, [a, b], st) == FitStep(measure, limit, FitStep(measure, limit, st, a), b)
  {
    assert [a][1..] == [];
    assert [a, b][0] == a && [a, b][1..] == [b];
    var s1 := FitStep(measure, limit, st, a);
    assert Run(measure, limit, [a, b], st) == Run(measure, limit, [b], s1);
    assert Run(measure, limit, [b], s1) == FitStep(measure, limit, s1, b) by {
      assert [b][1..] == [];
    }
  }

  /** A text without whitespace is one line when it fits and otherwise
      follows an empty line; in particular the empty text gives one or two
      empty lines. */
  lemma SingleWord(text: string, measure: string -> int, limit: int)
    requires NoSpace(text)
    ensures WrappedLines(text, measure, limit) == if measure(text) < limit then [text] else ["", text]
  {
    WordFacts(text);
    ReplaceNoNewline(text);
    assert Tokens(text) == [text];
    RunShort(measure, limit, Start(), text, text);
    WordStep(measure, limit, Start(), text);
    assert [] + text == text;
    assert Strip([]) == [];
  }

  /** `a + " " + b` for two words splits into the tokens `a` and `b`. */
  lemma TwoWordTokens(a: string, b: string)
    requires a != [] && b != [] && NoSpace(a) && NoSpace(b)
    ensures Tokens(a + " " + b) == [a, b]
    ensures Strip(a + " " + b + " ") == a + " " + b
  {
    WordFacts(a);
    WordFacts(b);
    var text := a + " " + b;
    assert '\n' !in text;
    ReplaceNoNewline(text);
    SplitAtSpace(a, b, []);
    assert a + [' '] + b == text;
    assert Stripped(text);
    StripFixes(text);
    StripSnocSpace(text, ' ');
    assert text + " " == text + [' '];
  }

  /** The first word placed from the start state. */
  lemma FirstPlace(measure: string -> int, limit: int, a: string)
    ensures PlaceWord(measure, limit, Start(), a) == WrapState(if measure(a) < limit then [] else [""], a + " ")
  {
    assert [] + a == a;
    assert Strip([]) == [];
  }

  /** The second word placed after the first. */
  lemma SecondPlace(measure: string -> int, limit: int, first: seq<string>, a: string, b: string)
    requires Strip(a + " ") == a
    ensures PlaceWord(measure, limit, WrapState(first, a + " "), b) ==
      if measure(a + " " + b) < limit then WrapState(first, a + " " + b + " ") else WrapState(first + [a], b + " ")
  {
    assert (a + " ") + b == a + " " + b;
    assert (a + " ") + b + " " == a + " " + b + " ";
  }

  /** The loop over the two tokens `a` and `b`. */
  lemma TwoWordsRun(a: string, b: string, measure: string -> int, limit: int, first: seq<string>)
    requires NoSpace(a) && NoSpace(b)
    requires first == if measure(a) < limit then [] else [""]
    ensures Run(measure, limit, [a, b], Start()) ==
      if measure(a + " " + b) < limit then WrapState(first, a + " " + b + " ") else WrapState(first + [a], b + " ")
  {
    WordFacts(a);
    RunShort(measure, limit, Start(), a, b);
    WordStep(measure, limit, Start(), a);
    FirstPlace(measure, limit, a);
    var s1 := WrapState(first, a + " ");
    assert FitStep(measure, limit, Start(), a) == s1;
    WordStep(measure, limit, s1, b);
    SecondPlace(measure, limit, first, a, b);
  }

  /** The fit rule on two words `a b`: the first flush is empty when `a`
      alone does not fit, and `b` joins `a` exactly when `a + " " + b` (with
      no trailing space) measures under the limit. */
  lemma TwoWords(a: string, b: string, measure: string -> int, limit: int)
    requires a != [] && b != [] && NoSpace(a) && NoSpace(b)
    ensures WrappedLines(a + " " + b, measure, limit) ==
      (if measure(a) < limit then [] else [""]) +
      (if measure(a + " " + b) < limit then [a + " " + b] else [a, b])
  {
    var first: seq<string> := if measure(a) < limit then [] else [""];
    TwoWordTokens(a, b);
    TwoWordsRun(a, b, measure, limit, first);
    WordFacts(b);
  }

  /** `replace` around one line break. */
  lemma ReplaceAroundBreak(a: string, b: string)
    ensures ReplaceNewlines(a + "\n" + b) == (ReplaceNewlines(a) + ['\n']) + [' '] + ReplaceNewlines(b)
  {
    var t := ['\n'] + b;
    assert t[0] == '\n' && t[1..] == b;
    assert ReplaceNewlines(t) == ['\n', ' '] + ReplaceNewlines(b);
    ReplaceNewlinesConcat(a, t);
    assert a + "\n" + b == a + t;
    var ra, rb := ReplaceNewlines(a), ReplaceNewlines(b);
    assert ra + (['\n', ' '] + rb) == (ra + ['\n']) + [' '] + rb;
  }

  /** The tokens of `a + "\n" + b`: those of `a` with the line break glued
      to the last one, then those of `b`; the last token of `a` holds no line
      break of its own. */
  lemma HardBreakTokens(a: string, b: string)
    ensures var ta := Tokens(a);
      && |ta| > 0 && '\n' !in ta[|ta| - 1]
      && Tokens(a + "\n" + b) == ta[..|ta| - 1] + [ta[|ta| - 1] + ['\n']] + Tokens(b)
  {
    var ra := ReplaceNewlines(a);
    ReplaceAroundBreak(a, b);
    SplitAtSpace(ra + ['\n'], ReplaceNewlines(b), []);
    SplitSnoc(ra, '\n', []);
    LastPieceNoNewline(a, []);
  }

  /** A token that ends in a line break places its word and flushes. */
  lemma BreakStep(measure: string -> int, limit: int, st: WrapState, t: string)
    requires '\n' !in t
    ensures FitStep(measure, limit, st, t + ['\n']) == Flush(FitStep(measure, limit, st, t))
  {
    StripSnocSpace(t, '\n');
    assert '\n' in t + ['\n'];
  }

  /** A line break in the input is a hard boundary: the text before it and
      the text after it wrap independently. */
  lemma HardBreak(a: string, b: string, measure: string -> int, limit: int)
    ensures WrappedLines(a + "\n" + b, measure, limit) ==
      WrappedLines(a, measure, limit) + WrappedLines(b, measure, limit)
  {
    HardBreakTokens(a, b);
    var ta := Tokens(a);
    var init, last := ta[..|ta| - 1], ta[|ta| - 1];
    BreakSplitsRun(measure, limit, init, last, Tokens(b));
    assert init + [last] == ta;
  }

  /** The loop over tokens with a line break glued to `last`: the lines
      before the break and those after it come from two separate runs. */
  lemma BreakSplitsRun(measure: string -> int, limit: int, init: seq<string>, last: string, tb: seq<string>)
    requires '\n' !in last
    ensures Flush(Run(measure, limit, init + [last + ['\n']] + tb, Start())).textLines ==
      Flush(Run(measure, limit, init + [last], Start())).textLines + Flush(Run(measure, limit, tb, Start())).textLines
  {
    var s0 := Start();
    var wa := Flush(Run(measure, limit, init + [last], s0)).textLines;
    RunConcat(measure, limit, init + [last + ['\n']], tb, s0);
    BrokenLastRun(measure, limit, init, last, s0);
    RunKeepsPrefix(measure, limit, tb, wa, s0);
    assert wa + [] == wa;
  }

  /** Gluing a line break to the last token flushes the state the tokens
      lead to. */
  lemma BrokenLastRun(measure: string -> int, limit: int, init: seq<string>, last: string, st: WrapState)
    requires '\n' !in last
    ensures Run(measure, limit, init + [last + ['\n']], st) == Flush(Run(measure, limit, init + [last], st))
  {
    RunSnoc(measure, limit, init, last + ['\n'], st);
    RunSnoc(measure, limit, init, last, st);
    BreakStep(measure, limit, Run(measure, limit, init, st), last);
  }

  // =====================================================================
  // Placement (draw_text, the origin computed from the bounding box)

  datatype HAlign = Left | Center | Right

  datatype VAlign = Top | Middle | Bottom

  /** `(left, top, right, bottom)` as `multiline_textbbox` returns it. */
  datatype BBox = BBox(left: int, top: int, right: int, bottom: int)

  datatype Origin = Origin(x: real, y: real)

  /** The draw origin, before the shifts are added. Left/top put it at
      `padding`. Centre/middle put it half the box's width (height) before
      the canvas centre, in true division. Right/bottom put it the box's
      width (height) plus `padding` before the far border. The box's own
      offsets (`left`, `top`) play no part, so the drawn block starts at the
      origin plus those offsets. Nothing is clamped. */
  function Place(width: int, height: int, box: BBox, padding: int, h: HAlign, v: VAlign, xShift: int, yShift: int): (o: Origin)
    ensures var tw := (box.right - box.left) as real; var dx := o.x - xShift as real;
      match h
      case Left => dx == padding as real
      case Center => dx + tw / 2.0 == width as real / 2.0
      case Right => dx + tw == (width - padding) as real
    ensures var th := (box.bottom - box.top) as real; var dy := o.y - yShift as real;
      match v
      case Top => dy == padding as real
      case Middle => dy + th / 2.0 == height as real / 2.0
      case Bottom => dy + th == (height - padding) as real
  {
    var tw := box.right - box.left;
    var th := box.bottom - box.top;
    var x := match h
      case Left => padding as real
      case Center => (width - tw) as real / 2.0
      case Right => (width - tw - padding) as real;
    var y := match v
      case Middle => (height - th) as real / 2.0
      case Top => padding as real
      case Bottom => (height - th - padding) as real;
    Origin(x + xShift as real, y + yShift as real)
  }

  /** The origin depends on the bounding box only through its size. */
  lemma PlaceTranslationInvariant(width: int, height: int, box: BBox, dx: int, dy: int, padding: int, h: HAlign, v: VAlign, xShift: int, yShift: int)
    ensures Place(width, height, BBox(box.left + dx, box.top + dy, box.right + dx, box.bottom + dy), padding, h, v, xShift, yShift)
         == Place(width, height, box, padding, h, v, xShift, yShift)
  {
  }

  /** Left alignment ignores the canvas width, top alignment its height. */
  lemma PlaceNearEdgeIgnoresSize(w1: int, w2: int, h1: int, h2: int, box: BBox, padding: int, v: VAlign, xShift: int, yShift: int)
    ensures Place(w1, h1, box, padding, Left, v, xShift, yShift).x == Place(w2, h1, box, padding, Left, v, xShift, yShift).x
    ensures Place(w1, h1, box, padding, Left, Top, xShift, yShift).y == Place(w1, h2, box, padding, Left, Top, xShift, yShift).y
  {
  }

  /** Worked cases: left with padding 10 is at 10 on any canvas; a 20-wide
      block centred on a 100-wide canvas starts at 40; no clamping, so a
      block wider than the canvas starts left of it. */
  lemma PlaceExamples(width: int, v: VAlign)
    ensures Place(width, 50, BBox(0, 0, 20, 10), 10, Left, v, 0, 0).x == 10.0
    ensures Place(100, 50, BBox(3, 0, 23, 10), 16, Center, v, 0, 0).x == 40.0
    ensures Place(100, 50, BBox(0, 0, 300, 10), 16, Right, v, 0, 0).x == -216.0
  {
  }

  // =====================================================================
  // The TextOverlay object: layout cache, draw_text and batch_process

  /** A loaded font, as the backend hands it out. */
  datatype Font = Font(handle: int)

  /** The font backend: font loading with its fallback (`truetype`, then
      `load_default`), `textlength`, and `multiline_textbbox` taking the font,
      the text, the stroke width, the alignment and the line spacing. */
  datatype Backend = Backend(
    loadFont: (string, int) -> Font,
    textLength: (Font, string) -> int,
    textBBox: (Font, string, int, HAlign, real) -> BBox)

  /** The size of an image; its pixels are not modelled. */
  datatype Canvas = Canvas(width: int, height: int)

  /** The styling arguments of `draw_text`, in its parameter order. */
  datatype Style = Style(
    text: string, fontSize: int, font: string,
    fillColorHex: string, strokeColorHex: string, strokeThickness: real,
    padding: int, hAlign: HAlign, vAlign: VAlign,
    xShift: int, yShift: int, lineSpacing: real, strokeOpacity: real)

  /** The arguments of the final `draw.text` call: what lands on the image. */
  datatype DrawCall = DrawCall(
    origin: Origin, text: string, fill: Rgba, strokeFill: Rgba,
    strokeWidth: int, font: Font, align: HAlign, spacing: real)

  /** The four cached fields `_loaded_font`, `_full_text`, `_x`, `_y`. */
  datatype Cache = Cache(loadedFont: Option<Font>, fullText: Option<string>, x: Option<real>, y: Option<real>)

  predicate Filled(c: Cache) {
    c.loadedFont.Some? && c.fullText.Some? && c.x.Some? && c.y.Some?
  }

  function EmptyCache(): Cache {
    Cache(None, None, None, None)
  }

  /** `int(font_size * stroke_thickness * 0.5)`. */
  function StrokeWidth(style: Style): int {
    Trunc(style.fontSize as real * style.strokeThickness * 0.5)
  }

  /** `draw.textlength(_, font=font)`. */
  function Measure(backend: Backend, font: Font): string -> int {
    s => backend.textLength(font, s)
  }

  /** The origin of `text` laid out in `font` on `image`. */
  function OriginOf(image: Canvas, style: Style, backend: Backend, font: Font, text: string): Origin {
    var box := backend.textBBox(font, text, StrokeWidth(style), style.hAlign, style.lineSpacing);
    Place(image.width, image.height, box, style.padding, style.hAlign, style.vAlign, style.xShift, style.yShift)
  }

  /** The cache after one `draw_text` call: each field is recomputed when
      it is unset or `use_cache` is false, and kept otherwise; the origin is
      recomputed when either coordinate is unset. */
  function Refresh(c: Cache, image: Canvas, style: Style, useCache: bool, backend: Backend): (n: Cache)
    ensures Filled(n)
  {
    var font := if c.loadedFont.None? || !useCache then backend.loadFont(style.font, style.fontSize) else c.loadedFont.value;
    var text :=
      if c.fullText.None? || !useCache then WrapText(style.text, Measure(backend, font), image.width - 2 * style.padding)
      else c.fullText.value;
    var o := if c.x.None? || c.y.None? || !useCache then OriginOf(image, style, backend, font, text) else Origin(c.x.value, c.y.value);
    Cache(Some(font), Some(text), Some(o.x), Some(o.y))
  }

  /** The cache a call with `use_cache` false leaves, whatever was there. */
  function FreshCache(image: Canvas, style: Style, backend: Backend): Cache {
    Refresh(EmptyCache(), image, style, false, backend)
  }

  /** The colours (recomputed on every call) and the final draw call from a
      filled cache. The fill colour is parsed first, so its error wins. */
  function Paint(c: Cache, style: Style): (r: Result<DrawCall, ColorError>)
    requires Filled(c)
    ensures r.Err? <==> HexToRgba(style.fillColorHex, 1.0).Err? || HexToRgba(style.strokeColorHex, style.strokeOpacity).Err?
    ensures r.Ok? ==>
      && r.value.fill == HexToRgba(style.fillColorHex, 1.0).value
      && r.value.strokeFill == HexToRgba(style.strokeColorHex, style.strokeOpacity).value
      && r.value.origin == Origin(c.x.value, c.y.value)
      && r.value.text == c.fullText.value
      && r.value.font == c.loadedFont.value
      && r.value.strokeWidth == StrokeWidth(style)
      && r.value.align == style.hAlign
      && r.value.spacing == style.lineSpacing
  {
    match HexToRgba(style.fillColorHex, 1.0)
    case Err(e) => Err(e)
    case Ok(fill) =>
      match HexToRgba(style.strokeColorHex, style.strokeOpacity)
      case Err(e) => Err(e)
      case Ok(stroke) =>
        Ok(DrawCall(Origin(c.x.value, c.y.value), c.fullText.value, fill, stroke,
                    StrokeWidth(style), c.loadedFont.value, style.hAlign, style.lineSpacing))
  }

  /** What one `draw_text` call with `use_cache` false draws. */
  function Render(image: Canvas, style: Style, backend: Backend): Result<DrawCall, ColorError> {
    Paint(FreshCache(image, style, backend), style)
  }

  /** With `use_cache` false the previous cache plays no part. */
  lemma NoCacheRecomputesAll(c: Cache, image: Canvas, style: Style, backend: Backend)
    ensures Refresh(c, image, style, false, backend) == FreshCache(image, style, backend)
  {
  }

  /** With `use_cache` true on a filled cache nothing is recomputed. */
  lemma CacheKeptWhenFilled(c: Cache, image: Canvas, style: Style, backend: Backend)
    requires Filled(c)
    ensures Refresh(c, image, style, true, backend) == c
  {
  }

  /** Reuse is sound for an unchanged call: reusing the layout of the
      previous call with the same image size and style draws what recomputing
      it would. */
  lemma ReuseMatchesRecompute(c: Cache, image: Canvas, style: Style, backend: Backend)
    ensures var prev := Refresh(c, image, style, false, backend);
      Paint(Refresh(prev, image, style, true, backend), style) == Render(image, style, backend)
  {
    var prev := Refresh(c, image, style, false, backend);
    NoCacheRecomputesAll(c, image, style, backend);
    CacheKeptWhenFilled(prev, image, style, backend);
    assert Refresh(prev, image, style, true, backend) == FreshCache(image, style, backend);
  }

  /** Whether a draw fails depends only on the two colour strings. */
  lemma RenderErrorOnlyFromColours(i1: Canvas, i2: Canvas, s1: Style, s2: Style, backend: Backend)
    requires s1.fillColorHex == s2.fillColorHex && s1.strokeColorHex == s2.strokeColorHex
    ensures Render(i1, s1, backend).Err? <==> Render(i2, s2, backend).Err?
  {
  }

  /** Python's `True`/`False` where a number is expected. */
  function BoolAsOpacity(b: bool): real {
    if b then 1.0 else 0.0
  }

  /** The `draw_text` arguments the batch loop really passes: the per-image
      flag in the fourteenth position, `stroke_opacity`. (`use_cache` is left
      at its default, false.) */
  function BatchCallStyle(style: Style, flag: bool): Style {
    style.(strokeOpacity := BoolAsOpacity(flag))
  }

  /** The stroke opacity plays no part in the layout, so the misplaced flag
      leaves the cache as a correct call would. */
  lemma BatchCallSameLayout(image: Canvas, style: Style, flag: bool, backend: Backend)
    ensures FreshCache(image, BatchCallStyle(style, flag), backend) == FreshCache(image, style, backend)
  {
    var s2 := BatchCallStyle(style, flag);
    var a, b := FreshCache(image, s2, backend), FreshCache(image, style, backend);
    assert a.loadedFont == b.loadedFont;
    assert a.fullText == b.fullText;
    assert StrokeWidth(s2) == StrokeWidth(style);
    assert OriginOf(image, s2, backend, a.loadedFont.value, a.fullText.value)
        == OriginOf(image, style, backend, b.loadedFont.value, b.fullText.value);
  }

  /** The stroke alpha of a draw call, for a stroke colour without alpha
      digits: int(255 * stroke_opacity). */
  lemma PaintStrokeAlpha(c: Cache, style: Style)
    requires Filled(c)
    requires var n := |LStrip(style.strokeColorHex, '#')|; n == 3 || n == 6
    requires Paint(c, style).Ok?
    ensures Paint(c, style).value.strokeFill.alpha == Trunc(255.0 * style.strokeOpacity)
  {
    assert Paint(c, style).value.strokeFill == HexToRgba(style.strokeColorHex, style.strokeOpacity).value;
  }

  /** As written, the batch's stroke alpha (for a colour without alpha
      digits) is 0 for the first image and 255 for every later one, whatever
      `stroke_opacity` says, while the fill colour is unaffected. */
  lemma BatchStrokeAlphaAsWritten(image: Canvas, style: Style, flag: bool, backend: Backend)
    requires var n := |LStrip(style.strokeColorHex, '#')|; n == 3 || n == 6
    requires Render(image, BatchCallStyle(style, flag), backend).Ok?
    ensures var d := Render(image, BatchCallStyle(style, flag), backend).value;
      && d.strokeFill.alpha == (if flag then 255 else 0)
      && d.fill == HexToRgba(style.fillColorHex, 1.0).value
  {
    PaintStrokeAlpha(FreshCache(image, BatchCallStyle(style, flag), backend), BatchCallStyle(style, flag));
  }

  /** With the flag bound to `use_cache`, the stroke alpha is
      int(255 * stroke_opacity) for every image. */
  lemma BatchStrokeAlphaIntended(image: Canvas, style: Style, backend: Backend)
    requires var n := |LStrip(style.strokeColorHex, '#')|; n == 3 || n == 6
    requires Render(image, style, backend).Ok?
    ensures Render(image, style, backend).value.strokeFill.alpha == Trunc(255.0 * style.strokeOpacity)
  {
    PaintStrokeAlpha(FreshCache(image, style, backend), style);
  }

  /** A single image or a stack of images (`len(image.shape) == 3` or not). */
  datatype ImageInput = Single(image: Canvas) | Stack(images: seq<Canvas>)

  /** A colour error from `draw_text`, or `np.stack` of an empty list. */
  datatype BatchError = Colour(e: ColorError) | EmptyStack

  /** What the stack loop, as written, produces, with the cache before and
      after: an empty stack fails in `np.stack` and touches nothing;
      otherwise the first image's colour error, if any, is raised; else image
      `i` is drawn exactly as a fresh `draw_text` call whose stroke opacity
      is the flag `i > 0`, and the cache is what the last image left. */
  predicate StackOutcome(images: seq<Canvas>, style: Style, backend: Backend,
                         r: Result<seq<DrawCall>, BatchError>, before: Cache, after: Cache)
  {
    && (|images| == 0 ==> r == Err(EmptyStack) && after == before)
    && (|images| > 0 ==>
        && (r.Err? <==> Render(images[0], BatchCallStyle(style, false), backend).Err?)
        && (r.Err? ==> && r == Err(Colour(Render(images[0], BatchCallStyle(style, false), backend).error))
                       && after == FreshCache(images[0], style, backend))
        && (r.Ok? ==> && |r.value| == |images|
                      && (forall i :: 0 <= i < |images| ==>
                            Render(images[i], BatchCallStyle(style, i > 0), backend) == Ok(r.value[i]))
                      && after == FreshCache(images[|images| - 1], style, backend)))
  }

  /** `out` holds the draw calls of the first `|out|` images, image `k`
      drawn as a fresh call whose stroke opacity is the flag `k > 0`. */
  predicate DrawnAsWritten(images: seq<Canvas>, out: seq<DrawCall>, style: Style, backend: Backend) {
    && |out| <= |images|
    && forall k :: 0 <= k < |out| ==> Render(images[k], BatchCallStyle(style, k > 0), backend) == Ok(out[k])
  }

  lemma DrawnAsWrittenSnoc(images: seq<Canvas>, out: seq<DrawCall>, d: DrawCall, style: Style, backend: Backend)
    requires DrawnAsWritten(images, out, style, backend) && |out| < |images|
    requires Render(images[|out|], BatchCallStyle(style, |out| > 0), backend) == Ok(d)
    ensures DrawnAsWritten(images, out + [d], style, backend)
  {
    var n := out + [d];
    forall k | 0 <= k < |n|
      ensures Render(images[k], BatchCallStyle(style, k > 0), backend) == Ok(n[k])
    {
      if k < |out| {
        assert n[k] == out[k];
      } else {
        assert k == |out| && n[k] == d;
      }
    }
  }

  class TextOverlay {
    var device: string
    var loadedFont: Option<Font>
    var fullText: Option<string>
    var x: Option<real>
    var y: Option<real>

    function State(): Cache
      reads this
    {
      Cache(loadedFont, fullText, x, y)
    }

    /** `TextOverlay(device)`: every cached field unset. */
    constructor (device: string)
      ensures this.device == device
      ensures State() == EmptyCache()
    {
      this.device := device;
      loadedFont, fullText, x, y := None, None, None, None;
    }

    /** `draw_text`: fills the cache as `Refresh` says, then parses both
        colours and returns what `draw.text` is given. A colour error is
        raised after the cache has been updated. */
    method DrawText(image: Canvas, style: Style, useCache: bool, backend: Backend) returns (r: Result<DrawCall, ColorError>)
      modifies this
      ensures device == old(device)
      ensures State() == Refresh(old(State()), image, style, useCache, backend)
      ensures r == Paint(State(), style)
    {
      UpdateLayout(image, style, useCache, backend);
      var font := loadedFont.value;
      var fill := HexToRgba(style.fillColorHex, 1.0);
      if fill.Err? {
        r := Err(fill.error);
      } else {
        var stroke := HexToRgba(style.strokeColorHex, style.strokeOpacity);
        if stroke.Err? {
          r := Err(stroke.error);
        } else {
          r := Ok(DrawCall(Origin(x.value, y.value), fullText.value, fill.value, stroke.value,
                           StrokeWidth(style), font, style.hAlign, style.lineSpacing));
        }
      }
    }

    /** The cached part of `draw_text`: font, wrapped text and origin, each
        recomputed when unset or when `use_cache` is false. */
    method UpdateLayout(image: Canvas, style: Style, useCache: bool, backend: Backend)
      modifies this
      ensures device == old(device)
      ensures State() == Refresh(old(State()), image, style, useCache, backend)
    {
      ghost var n := Refresh(State(), image, style, useCache, backend);
      if loadedFont.None? || !useCache {
        loadedFont := Some(backend.loadFont(style.font, style.fontSize));
      }
      assert loadedFont == n.loadedFont;
      var font := loadedFont.value;
      if fullText.None? || !useCache {
        var textLines := WrapLines(style.text, Measure(backend, font), image.width - 2 * style.padding);
        fullText := Some(JoinWith('\n', textLines));
      }
      assert fullText == n.fullText;
      if x.None? || y.None? || !useCache {
        var o := OriginOf(image, style, backend, font, fullText.value);
        x, y := Some(o.x), Some(o.y);
      }
      assert x == n.x && y == n.y;
    }

    /** `batch_process`: a single image is drawn once with `use_cache`
        false; a stack goes through the stack loop as written. */
    method BatchProcess(input: ImageInput, style: Style, backend: Backend) returns (r: Result<seq<DrawCall>, BatchError>)
      modifies this
      ensures device == old(device)
      ensures input.Single? ==> State() == FreshCache(input.image, style, backend)
      ensures input.Single? ==>
        r == match Render(input.image, style, backend) case Ok(d) => Ok([d]) case Err(e) => Err(Colour(e))
      ensures input.Stack? ==> StackOutcome(input.images, style, backend, r, old(State()), State())
    {
      match input
      case Single(image) =>
        r := DrawSingle(image, style, backend);
      case Stack(images) =>
        r := DrawStack(images, style, backend);
    }

    /** `batch_process` with the stack loop corrected: the flag bound to
        `use_cache` and `stroke_opacity` passed through. */
    method BatchProcessIntended(input: ImageInput, style: Style, backend: Backend) returns (r: Result<seq<DrawCall>, BatchError>)
      modifies this
      ensures device == old(device)
      ensures input.Single? ==> State() == FreshCache(input.image, style, backend)
      ensures input.Single? ==>
        r == match Render(input.image, style, backend) case Ok(d) => Ok([d]) case Err(e) => Err(Colour(e))
      ensures input.Stack? && |input.images| == 0 ==> r == Err(EmptyStack) && State() == old(State())
      ensures input.Stack? && |input.images| > 0 ==>
        && (r.Err? <==> Render(input.images[0], style, backend).Err?)
        && State() == FreshCache(input.images[0], style, backend)
      ensures input.Stack? && |input.images| > 0 && r.Err? ==>
        r == Err(Colour(Render(input.images[0], style, backend).error))
      ensures input.Stack? && r.Ok? ==>
        && |r.value| == |input.images|
        && forall i :: 0 <= i < |input.images| ==> Render(input.images[0], style, backend) == Ok(r.value[i])
    {
      match input
      case Single(image) =>
        r := DrawSingle(image, style, backend);
      case Stack(images) =>
        r := DrawStackIntended(images, style, backend);
    }

    /** The single-image branch of `batch_process`: one `draw_text` call
        with every argument in its place and `use_cache` false. */
    method DrawSingle(image: Canvas, style: Style, backend: Backend) returns (r: Result<seq<DrawCall>, BatchError>)
      modifies this
      ensures device == old(device)
      ensures State() == FreshCache(image, style, backend)
      ensures r == match Render(image, style, backend) case Ok(d) => Ok([d]) case Err(e) => Err(Colour(e))
    {
      ghost var before := State();
      var d := DrawText(image, style, false, backend);
      NoCacheRecomputesAll(before, image, style, backend);
      r := match d case Ok(call) => Ok([call]) case Err(e) => Err(Colour(e));
    }

    /** The stack loop as written: the flag `use_cache` starts false and is
        set after the first image, but reaches `draw_text` as its fourteenth
        positional argument, `stroke_opacity`. */
    method DrawStack(images: seq<Canvas>, style: Style, backend: Backend) returns (r: Result<seq<DrawCall>, BatchError>)
      modifies this
      ensures device == old(device)
      ensures StackOutcome(images, style, backend, r, old(State()), State())
    {
      var imagesOut: seq<DrawCall> := [];
      var useCache := false;
      for i := 0 to |images|
        invariant device == old(device)
        invariant |imagesOut| == i && useCache == (i > 0)
        invariant DrawnAsWritten(images, imagesOut, style, backend)
        invariant i == 0 ==> State() == old(State())
        invariant i > 0 ==> State() == FreshCache(images[i - 1], style, backend)
      {
        ghost var before := State();
        var d := DrawText(images[i], BatchCallStyle(style, useCache), false, backend);
        NoCacheRecomputesAll(before, images[i], BatchCallStyle(style, useCache), backend);
        BatchCallSameLayout(images[i], style, useCache, backend);
        assert d == Render(images[i], BatchCallStyle(style, i > 0), backend);
        if d.Err? {
          if i > 0 {
            // the first image drew, and errors depend on the colours alone
            RenderErrorOnlyFromColours(images[0], images[i], BatchCallStyle(style, false), BatchCallStyle(style, true), backend);
            assert false;
          }
          return Err(Colour(d.error));
        }
        DrawnAsWrittenSnoc(images, imagesOut, d.value, style, backend);
        imagesOut := imagesOut + [d.value];
        useCache := true;
      }
      if |imagesOut| == 0 {
        return Err(EmptyStack);
      }
      r := Ok(imagesOut);
    }

    /** The stack loop with the flag bound to `use_cache` and
        `stroke_opacity` passed through: the first image fills the cache and
        every image gets the same draw call, a fresh draw of the first. */
    method DrawStackIntended(images: seq<Canvas>, style: Style, backend: Backend) returns (r: Result<seq<DrawCall>, BatchError>)
      modifies this
      ensures device == old(device)
      ensures |images| == 0 ==> r == Err(EmptyStack) && State() == old(State())
      ensures |images| > 0 ==> (r.Err? <==> Render(images[0], style, backend).Err?)
      ensures |images| > 0 && r.Err? ==> r == Err(Colour(Render(images[0], style, backend).error))
      ensures |images| > 0 ==> State() == FreshCache(images[0], style, backend)
      ensures r.Ok? ==> && |r.value| == |images|
                        && forall i :: 0 <= i < |images| ==> Render(images[0], style, backend) == Ok(r.value[i])
    {
      var imagesOut: seq<DrawCall> := [];
      var useCache := false;
      for i := 0 to |images|
        invariant device == old(device)
        invariant |imagesOut| == i && useCache == (i > 0)
        invariant i == 0 ==> State() == old(State())
        invariant i > 0 ==> State() == FreshCache(images[0], style, backend)
        invariant forall k :: 0 <= k < i ==> Render(images[0], style, backend) == Ok(imagesOut[k])
      {
        ghost var before := State();
        var d := DrawText(images[i], style, useCache, backend);
        if i == 0 {
          NoCacheRecomputesAll(before, images[i], style, backend);
        } else {
          CacheKeptWhenFilled(before, images[i], style, backend);
        }
        assert d == Render(images[0], style, backend);
        if d.Err? {
          return Err(Colour(d.error));
        }
        imagesOut := imagesOut + [d.value];
        useCache := true;
      }
      if |imagesOut| == 0 {
        return Err(EmptyStack);
      }
      assert Render(images[0], style, backend) == Ok(imagesOut[0]);
      r := Ok(imagesOut);
    }
  }
}
