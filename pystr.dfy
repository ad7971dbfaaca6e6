/** The few Python string built-ins the text overlay calls, on `string`
    (a sequence of Unicode scalar values): `str.lstrip(c)`, `str.strip()`,
    `str.split(" ")`, `str.replace("\n", "\n ")` and `sep.join(...)`,
    together with the facts about them that the wrap proofs need. It also
    defines `str.isspace`, the whitespace set `strip()` uses, and
    `str.split()`, which the overlay does not call and which serves only to
    state that the wrap keeps the words. */
module PyStr {

  /** `c.isspace()`: the characters Python treats as whitespace (bidirectional
      classes WS, B and S, and the Unicode Zs space separators). */
  predicate IsSpace(c: char) {
    || c == ' '
    || ('\t' <= c <= '\r')
    || ('\U{1C}' <= c <= '\U{1F}')
    || c == '\U{85}' || c == '\U{A0}' || c == '\U{1680}'
    || ('\U{2000}' <= c <= '\U{200A}')
    || c == '\U{2028}' || c == '\U{2029}' || c == '\U{202F}'
    || c == '\U{205F}' || c == '\U{3000}'
  }

  /** True when `s` holds no whitespace character at all. */
  predicate NoSpace(s: string) {
    forall i :: 0 <= i < |s| ==> !IsSpace(s[i])
  }

  /** True when `s` holds only whitespace characters. */
  predicate AllSpace(s: string) {
    forall i :: 0 <= i < |s| ==> IsSpace(s[i])
  }

  /** True when `s` neither starts nor ends with whitespace. */
  predicate Stripped(s: string) {
    s == [] || (!IsSpace(s[0]) && !IsSpace(s[|s| - 1]))
  }

  /** Number of occurrences of `c` in `s`. */
  function Count(c: char, s: string): nat {
    if s == [] then 0 else (if s[0] == c then 1 else 0) + Count(c, s[1..])
  }

  /** `s.lstrip(c)`: drops every leading occurrence of `c`. */
  function LStrip(s: string, c: char): (r: string)
    ensures |r| <= |s|
    ensures r == [] || r[0] != c
  {
    if s != [] && s[0] == c then LStrip(s[1..], c) else s
  }

  /** `lstrip(c)` keeps a suffix and drops only `c`s. */
  lemma {:induction false} LStripDrops(s: string, c: char)
    ensures var r := LStrip(s, c);
      r == s[|s| - |r|..] && forall i :: 0 <= i < |s| - |r| ==> s[i] == c
  {
    if s != [] && s[0] == c {
      LStripDrops(s[1..], c);
    }
  }

  /** `s.lstrip()`: drops the leading whitespace. */
  function StripLeft(s: string): (r: string)
    ensures |r| <= |s|
    ensures r == [] || !IsSpace(r[0])
  {
    if s != [] && IsSpace(s[0]) then StripLeft(s[1..]) else s
  }

  /** `s.rstrip()`: drops the trailing whitespace. */
  function StripRight(s: string): (r: string)
    ensures |r| <= |s|
    ensures r == [] || (r[0] == s[0] && !IsSpace(r[|r| - 1]))
  {
    if s != [] && IsSpace(s[|s| - 1]) then StripRight(s[..|s| - 1]) else s
  }

  /** `s.strip()`: drops whitespace at both ends. */
  function Strip(s: string): (r: string)
    ensures Stripped(r) && |r| <= |s|
  {
    StripRight(StripLeft(s))
  }

  /** `lstrip` keeps a suffix and drops only whitespace. */
  lemma {:induction false} StripLeftDrops(s: string)
    ensures var r := StripLeft(s);
      r == s[|s| - |r|..] && forall i :: 0 <= i < |s| - |r| ==> IsSpace(s[i])
  {
    if s != [] && IsSpace(s[0]) {
      StripLeftDrops(s[1..]);
    }
  }

  /** `rstrip` keeps a prefix and drops only whitespace. */
  lemma {:induction false} StripRightDrops(s: string)
    ensures var r := StripRight(s);
      r == s[..|r|] && forall i :: |r| <= i < |s| ==> IsSpace(s[i])
  {
    if s != [] && IsSpace(s[|s| - 1]) {
      StripRightDrops(s[..|s| - 1]);
    }
  }

  /** `strip` leaves a string without whitespace at its ends unchanged, and
      gives the empty string exactly for an all-whitespace one. */
  lemma StripFixes(s: string)
    ensures Stripped(s) ==> Strip(s) == s
    ensures AllSpace(s) <==> Strip(s) == []
  {
    StripLeftDrops(s);
    StripRightDrops(StripLeft(s));
  }

  /** `s.replace("\n", "\n ")`: a space after every line break. */
  function ReplaceNewlines(s: string): string {
    if s == [] then []
    else (if s[0] == '\n' then "\n " else [s[0]]) + ReplaceNewlines(s[1..])
  }

  /** `replace` adds one character, a space, per line break. */
  lemma {:induction false} ReplaceNewlinesCounts(s: string)
    ensures |ReplaceNewlines(s)| == |s| + Count('\n', s)
    ensures Count(' ', ReplaceNewlines(s)) == Count(' ', s) + Count('\n', s)
  {
    if s != [] {
      ReplaceNewlinesCounts(s[1..]);
      var head: string := if s[0] == '\n' then "\n " else [s[0]];
      CountConcat(' ', head, ReplaceNewlines(s[1..]));
    }
  }

  /** Occurrences add up over a concatenation. */
  lemma {:induction false} CountConcat(c: char, a: string, b: string)
    ensures Count(c, a + b) == Count(c, a) + Count(c, b)
  {
    if a == [] {
      assert a + b == b;
    } else {
      assert (a + b)[0] == a[0];
      assert (a + b)[1..] == a[1..] + b;
      CountConcat(c, a[1..], b);
    }
  }

  /** `(cur + s).split(" ")`, where `cur` is the part of the current piece
      already read: cuts at every single space, so two spaces in a row give
      an empty piece. */
  function SplitFrom(s: string, cur: string): (r: seq<string>)
    requires ' ' !in cur
    ensures |r| > 0
  {
    if s == [] then [cur]
    else if s[0] == ' ' then [cur] + SplitFrom(s[1..], [])
    else SplitFrom(s[1..], cur + [s[0]])
  }

  /** `split(" ")` gives one piece more than there are spaces, and no piece
      holds a space. */
  lemma {:induction false} SplitPieces(s: string, cur: string)
    requires ' ' !in cur
    ensures var r := SplitFrom(s, cur);
      |r| == Count(' ', s) + 1 && forall k :: 0 <= k < |r| ==> ' ' !in r[k]
  {
    if s != [] {
      if s[0] == ' ' {
        SplitPieces(s[1..], []);
      } else {
        SplitPieces(s[1..], cur + [s[0]]);
      }
    }
  }

  /** `s.split(" ")`. */
  function Split(s: string): seq<string> {
    SplitFrom(s, [])
  }

  /** `sep.join(ts)` for a one-character separator. */
  function JoinWith(sep: char, ts: seq<string>): string {
    if |ts| == 0 then []
    else if |ts| == 1 then ts[0]
    else ts[0] + [sep] + JoinWith(sep, ts[1..])
  }

  /** The word list a pending (non-empty) word contributes. */
  function Pending(cur: string): seq<string> {
    if cur == [] then [] else [cur]
  }

  /** `(cur + s).split()` with no argument, where `cur` is the word already
      being read: the maximal runs of non-whitespace characters, in order. */
  function WordsFrom(s: string, cur: string): (r: seq<string>)
    requires NoSpace(cur)
  {
    if s == [] then Pending(cur)
    else if IsSpace(s[0]) then Pending(cur) + WordsFrom(s[1..], [])
    else WordsFrom(s[1..], cur + [s[0]])
  }

  /** `s.split()`. */
  function Words(s: string): seq<string> {
    WordsFrom(s, [])
  }

  /** The words of every string of `ts`, one after the other. */
  function WordsOfAll(ts: seq<string>): seq<string> {
    if ts == [] then [] else Words(ts[0]) + WordsOfAll(ts[1..])
  }

  // ---------------------------------------------------------------------
  // Facts about the built-ins

  /** A whitespace character separates the words on its two sides. */
  lemma {:induction false} WordsSplitAt(a: string, c: char, b: string, cur: string)
    requires IsSpace(c) && NoSpace(cur)
    ensures WordsFrom(a + [c] + b, cur) == WordsFrom(a, cur) + Words(b)
  {
    if a == [] {
      assert [c] + b == a + [c] + b;
      assert ([c] + b)[1..] == b;
    } else {
      assert (a + [c] + b)[0] == a[0];
      assert (a + [c] + b)[1..] == a[1..] + [c] + b;
      if IsSpace(a[0]) {
        WordsSplitAt(a[1..], c, b, []);
      } else {
        WordsSplitAt(a[1..], c, b, cur + [a[0]]);
      }
    }
  }

  /** Trailing whitespace adds no word. */
  lemma WordsSnocSpace(a: string, c: char)
    requires IsSpace(c)
    ensures Words(a + [c]) == Words(a)
  {
    WordsSplitAt(a, c, [], []);
    assert a + [c] + [] == a + [c];
  }

  /** Joining with a whitespace separator keeps the words of every piece. */
  lemma {:induction false} WordsJoin(sep: char, ts: seq<string>)
    requires IsSpace(sep)
    ensures Words(JoinWith(sep, ts)) == WordsOfAll(ts)
  {
    if |ts| == 0 {
    } else if |ts| == 1 {
      assert ts[1..] == [];
    } else {
      WordsSplitAt(ts[0], sep, JoinWith(sep, ts[1..]), []);
      WordsJoin(sep, ts[1..]);
    }
  }

  /** `WordsOfAll` distributes over concatenation. */
  lemma {:induction false} WordsOfAllConcat(a: seq<string>, b: seq<string>)
    ensures WordsOfAll(a + b) == WordsOfAll(a) + WordsOfAll(b)
  {
    if a != [] {
      assert (a + b)[0] == a[0];
      assert (a + b)[1..] == a[1..] + b;
      WordsOfAllConcat(a[1..], b);
    } else {
      assert a + b == b;
    }
  }

  /** Leading whitespace adds no word. */
  lemma {:induction false} WordsStripLeft(s: string)
    ensures Words(StripLeft(s)) == Words(s)
  {
    if s != [] && IsSpace(s[0]) {
      WordsStripLeft(s[1..]);
    }
  }

  /** Trailing whitespace adds no word. */
  lemma {:induction false} WordsStripRight(s: string)
    ensures Words(StripRight(s)) == Words(s)
  {
    if s != [] && IsSpace(s[|s| - 1]) {
      WordsStripRight(s[..|s| - 1]);
      WordsSnocSpace(s[..|s| - 1], s[|s| - 1]);
      assert s[..|s| - 1] + [s[|s| - 1]] == s;
    }
  }

  /** Stripping keeps the words. */
  lemma WordsStrip(s: string)
    ensures Words(Strip(s)) == Words(s)
  {
    WordsStripRight(StripLeft(s));
    WordsStripLeft(s);
  }

  /** Putting a space after every line break keeps the words. */
  lemma {:induction false} WordsReplaceNewlines(s: string, cur: string)
    requires NoSpace(cur)
    ensures WordsFrom(ReplaceNewlines(s), cur) == WordsFrom(s, cur)
  {
    if s != [] {
      var rest := ReplaceNewlines(s[1..]);
      WordsReplaceNewlines(s[1..], []);
      if s[0] == '\n' {
        assert ReplaceNewlines(s) == ['\n'] + ([' '] + rest);
        assert (['\n'] + ([' '] + rest))[1..] == [' '] + rest;
        assert ([' '] + rest)[1..] == rest;
      } else {
        assert ReplaceNewlines(s) == [s[0]] + rest;
        assert ([s[0]] + rest)[1..] == rest;
        if !IsSpace(s[0]) {
          WordsReplaceNewlines(s[1..], cur + [s[0]]);
        }
      }
    }
  }

  /** Joining the pieces of a split with a space gives back the string. */
  lemma {:induction false} JoinSplit(s: string, cur: string)
    requires ' ' !in cur
    ensures JoinWith(' ', SplitFrom(s, cur)) == cur + s
  {
    if s == [] {
    } else if s[0] == ' ' {
      JoinSplit(s[1..], []);
      var rest := SplitFrom(s[1..], []);
      assert ([cur] + rest)[1..] == rest;
      assert cur + s == cur + [' '] + s[1..];
    } else {
      JoinSplit(s[1..], cur + [s[0]]);
      assert cur + [s[0]] + s[1..] == cur + s;
    }
  }

  /** The words of a string are the words of its space-separated pieces. */
  lemma WordsOfSplit(s: string)
    ensures WordsOfAll(Split(s)) == Words(s)
  {
    JoinSplit(s, []);
    assert [] + s == s;
    WordsJoin(' ', Split(s));
  }

  /** `replace` distributes over concatenation. */
  lemma {:induction false} ReplaceNewlinesConcat(a: string, b: string)
    ensures ReplaceNewlines(a + b) == ReplaceNewlines(a) + ReplaceNewlines(b)
  {
    if a != [] {
      assert (a + b)[0] == a[0];
      assert (a + b)[1..] == a[1..] + b;
      ReplaceNewlinesConcat(a[1..], b);
    } else {
      assert a + b == b;
    }
  }

  /** Without a line break, `replace` changes nothing. */
  lemma {:induction false} ReplaceNoNewline(s: string)
    requires '\n' !in s
    ensures ReplaceNewlines(s) == s
  {
    if s != [] {
      assert '\n' !in s[1..];
      ReplaceNoNewline(s[1..]);
      assert [s[0]] + s[1..] == s;
    }
  }

  /** Splitting at one space splits the two sides independently. */
  lemma {:induction false} SplitAtSpace(x: string, y: string, cur: string)
    requires ' ' !in cur
    ensures SplitFrom(x + [' '] + y, cur) == SplitFrom(x, cur) + Split(y)
  {
    if x == [] {
      assert ([' '] + y)[1..] == y;
      assert x + [' '] + y == [' '] + y;
    } else {
      assert (x + [' '] + y)[0] == x[0];
      assert (x + [' '] + y)[1..] == x[1..] + [' '] + y;
      if x[0] == ' ' {
        SplitAtSpace(x[1..], y, []);
      } else {
        SplitAtSpace(x[1..], y, cur + [x[0]]);
      }
    }
  }

  /** A string without a space is one piece. */
  lemma {:induction false} SplitNoSpace(x: string, cur: string)
    requires ' ' !in cur && ' ' !in x
    ensures SplitFrom(x, cur) == [cur + x]
  {
    if x != [] {
      assert ' ' !in x[1..];
      SplitNoSpace(x[1..], cur + [x[0]]);
      assert cur + [x[0]] + x[1..] == cur + x;
    } else {
      assert cur + x == cur;
    }
  }

  /** A non-space character appended to the string ends up at the end of the
      last piece. */
  lemma {:induction false} SplitSnoc(x: string, c: char, cur: string)
    requires ' ' !in cur && c != ' '
    ensures var p := SplitFrom(x, cur);
      SplitFrom(x + [c], cur) == p[..|p| - 1] + [p[|p| - 1] + [c]]
  {
    if x == [] {
      assert ([c])[1..] == [];
    } else {
      assert (x + [c])[0] == x[0];
      assert (x + [c])[1..] == x[1..] + [c];
      if x[0] == ' ' {
        SplitSnoc(x[1..], c, []);
        var q := SplitFrom(x[1..], []);
        assert ([cur] + q)[..|q|] == [cur] + q[..|q| - 1];
      } else {
        SplitSnoc(x[1..], c, cur + [x[0]]);
      }
    }
  }

  /** Number of pieces of a split that contain a line break. */
  function CountWithNewline(ts: seq<string>): nat {
    if ts == [] then 0 else (if '\n' in ts[0] then 1 else 0) + CountWithNewline(ts[1..])
  }

  /** After `replace`, every line break is followed by a space, so each one
      ends its own piece of the split: as many pieces hold a line break as the
      string has line breaks. */
  lemma {:induction false} NewlinePieces(s: string, cur: string)
    requires ' ' !in cur && '\n' !in cur
    ensures CountWithNewline(SplitFrom(ReplaceNewlines(s), cur)) == Count('\n', s)
  {
    if s == [] {
    } else {
      var rest := ReplaceNewlines(s[1..]);
      NewlinePieces(s[1..], []);
      if s[0] == '\n' {
        assert ReplaceNewlines(s) == ['\n'] + ([' '] + rest);
        assert (['\n'] + ([' '] + rest))[1..] == [' '] + rest;
        assert ([' '] + rest)[1..] == rest;
        assert '\n' in cur + ['\n'];
        var tail := SplitFrom(rest, []);
        assert ([cur + ['\n']] + tail)[1..] == tail;
      } else if s[0] == ' ' {
        assert ReplaceNewlines(s) == [' '] + rest;
        assert ([' '] + rest)[1..] == rest;
        var tail := SplitFrom(rest, []);
        assert ([cur] + tail)[1..] == tail;
      } else {
        assert ReplaceNewlines(s) == [s[0]] + rest;
        assert ([s[0]] + rest)[1..] == rest;
        NewlinePieces(s[1..], cur + [s[0]]);
      }
    }
  }

  /** After `replace`, the last piece of the split holds no line break. */
  lemma {:induction false} LastPieceNoNewline(s: string, cur: string)
    requires ' ' !in cur && '\n' !in cur
    ensures var p := SplitFrom(ReplaceNewlines(s), cur); '\n' !in p[|p| - 1]
  {
    if s != [] {
      var rest := ReplaceNewlines(s[1..]);
      if s[0] == '\n' {
        assert ReplaceNewlines(s) == ['\n'] + ([' '] + rest);
        assert (['\n'] + ([' '] + rest))[1..] == [' '] + rest;
        assert ([' '] + rest)[1..] == rest;
        LastPieceNoNewline(s[1..], []);
      } else if s[0] == ' ' {
        assert ReplaceNewlines(s) == [' '] + rest;
        assert ([' '] + rest)[1..] == rest;
        LastPieceNoNewline(s[1..], []);
      } else {
        assert ReplaceNewlines(s) == [s[0]] + rest;
        assert ([s[0]] + rest)[1..] == rest;
        LastPieceNoNewline(s[1..], cur + [s[0]]);
      }
    }
  }

  /** `lstrip` of a string followed by one more character. */
  lemma {:induction false} StripLeftSnoc(t: string, c: char)
    ensures StripLeft(t + [c]) ==
      if AllSpace(t) && IsSpace(c) then [] else StripLeft(t) + [c]
  {
    if t == [] {
      assert t + [c] == [c];
      assert [c][1..] == [];
    } else {
      var u := t + [c];
      assert u[0] == t[0];
      assert u[1..] == t[1..] + [c];
      if IsSpace(t[0]) {
        StripLeftSnoc(t[1..], c);
        assert AllSpace(t) <==> AllSpace(t[1..]) by {
          if AllSpace(t[1..]) {
            forall i | 0 <= i < |t| ensures IsSpace(t[i]) {
              if i > 0 { assert t[i] == t[1..][i - 1]; }
            }
          }
        }
      } else {
        assert !AllSpace(t);
      }
    }
  }

  /** Trailing whitespace makes no difference to `strip`. */
  lemma StripSnocSpace(t: string, c: char)
    requires IsSpace(c)
    ensures Strip(t + [c]) == Strip(t)
  {
    StripLeftSnoc(t, c);
    StripLeftDrops(t);
    if !AllSpace(t) {
      var l := StripLeft(t);
      assert (l + [c])[..|l + [c]| - 1] == l;
    }
  }
}
