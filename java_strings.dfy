/**
 * The `String` operations the console commands and the deck builder use:
 * `Integer.toString`, `trim()` and `split("\\s+")`.
 */
module JavaStrings {

  /** The number a string of decimal digits denotes, most significant digit first. */
  function DecimalValue(s: string): int {
    if s == [] then 0 else DecimalValue(s[..|s| - 1]) * 10 + (s[|s| - 1] as int - '0' as int)
  }

  predicate AllDigits(s: string) {
    forall k :: 0 <= k < |s| ==> '0' <= s[k] <= '9'
  }

  /** The decimal digits of a natural number, most significant first, without leading zeros. */
  function Digits(n: nat): (s: string)
    ensures |s| > 0 && AllDigits(s)
    ensures DecimalValue(s) == n
    ensures |s| > 1 ==> s[0] != '0'
  {
    var d := [('0' as int + n % 10) as char];
    if n < 10 then d
    else
      var high := Digits(n / 10);
      assert (high + d)[..|high + d| - 1] == high;
      high + d
  }

  /** `Integer.toString(n)`, which string concatenation `"c" + n` uses: an optional minus sign, then the digits. */
  function IntToString(n: int): (s: string)
    ensures |s| > 0
    ensures n < 0 <==> s[0] == '-'
    ensures n >= 0 ==> AllDigits(s) && DecimalValue(s) == n
    ensures n < 0 ==> |s| > 1 && AllDigits(s[1..]) && DecimalValue(s[1..]) == -n
  {
    if n < 0 then "-" + Digits(-n) else Digits(n)
  }

  /** Different numbers get different texts. */
  lemma IntToStringInjective(a: int, b: int)
    requires IntToString(a) == IntToString(b)
    ensures a == b
  {
    var s := IntToString(a);
    if a < 0 && b < 0 {
      assert DecimalValue(s[1..]) == -a && DecimalValue(s[1..]) == -b;
    }
  }

  /** The characters the regular expression class `\s` matches. */
  predicate IsWhitespace(c: char) {
    c == ' ' || c == '\t' || c == '\n' || c == '\U{000B}' || c == '\U{000C}' || c == '\r'
  }

  /** The characters `trim()` removes: every code point up to U+0020. */
  predicate TrimRemoves(c: char) {
    c <= ' '
  }

  function TrimStart(s: string): (r: string)
    ensures |r| <= |s| && r == s[|s| - |r|..]
    ensures r == [] || !TrimRemoves(r[0])
    ensures forall k :: 0 <= k < |s| - |r| ==> TrimRemoves(s[k])
  {
    if s != [] && TrimRemoves(s[0]) then TrimStart(s[1..]) else s
  }

  function TrimEnd(s: string): (r: string)
    ensures |r| <= |s| && r == s[..|r|]
    ensures r == [] || !TrimRemoves(r[|r| - 1])
    ensures forall k :: |r| <= k < |s| ==> TrimRemoves(s[k])
  {
    if s != [] && TrimRemoves(s[|s| - 1]) then TrimEnd(s[..|s| - 1]) else s
  }

  /** `trim()`: drops the leading and the trailing control characters and spaces. */
  function Trim(s: string): (r: string)
    ensures r == [] || (!TrimRemoves(r[0]) && !TrimRemoves(r[|r| - 1]))
    ensures (forall k :: 0 <= k < |s| ==> TrimRemoves(s[k])) <==> r == []
  {
    TrimEnd(TrimStart(s))
  }

  /** Drops a leading run of `\s` characters. */
  function DropWhitespace(s: string): (r: string)
    ensures |r| <= |s| && r == s[|s| - |r|..]
    ensures r == [] || !IsWhitespace(r[0])
    ensures s != [] && IsWhitespace(s[0]) ==> |r| < |s|
  {
    if s != [] && IsWhitespace(s[0]) then DropWhitespace(s[1..]) else s
  }

  /**
   * The pieces a string falls into around its maximal runs of `\s`
   * characters, `piece` being the part of the first piece already read.
   */
  function Pieces(s: string, piece: string): (ps: seq<string>)
    ensures |ps| > 0
    decreases |s|
  {
    if s == [] then [piece]
    else if IsWhitespace(s[0]) then [piece] + Pieces(DropWhitespace(s), "")
    else Pieces(s[1..], piece + [s[0]])
  }

  /** Drops the empty strings at the end of a list, as `split` does. */
  function DropTrailingEmpty(ps: seq<string>): (r: seq<string>)
    ensures |r| <= |ps| && r == ps[..|r|]
    ensures r == [] || r[|r| - 1] != ""
  {
    if ps != [] && ps[|ps| - 1] == "" then DropTrailingEmpty(ps[..|ps| - 1]) else ps
  }

  predicate HasWhitespace(s: string) {
    exists k :: 0 <= k < |s| && IsWhitespace(s[k])
  }

  /**
   * `split("\\s+")`: a string without a match is returned whole (even when
   * it is empty); otherwise the pieces around the matches, without the
   * trailing empty ones.
   */
  function Split(s: string): seq<string> {
    if !HasWhitespace(s) then [s] else DropTrailingEmpty(Pieces(s, ""))
  }

  /** All characters of a string of strings, in order. */
  function Concat(ss: seq<string>): string {
    if ss == [] then [] else ss[0] + Concat(ss[1..])
  }

  /** The characters of a string that are not `\s`, in order. */
  function NonWhitespace(s: string): string {
    if s == [] then [] else (if IsWhitespace(s[0]) then [] else [s[0]]) + NonWhitespace(s[1..])
  }

  predicate IsToken(t: string) {
    t != [] && forall k :: 0 <= k < |t| ==> !IsWhitespace(t[k])
  }

  /** Dropping leading `\s` characters loses no other character. */
  lemma {:induction false} DropWhitespaceDropsOnlyWhitespace(s: string)
    ensures NonWhitespace(DropWhitespace(s)) == NonWhitespace(s)
  {
    if s != [] && IsWhitespace(s[0]) {
      DropWhitespaceDropsOnlyWhitespace(s[1..]);
    }
  }

  /** A string that does not end in `\s` keeps its last character. */
  lemma {:induction false} DropWhitespaceKeepsLast(s: string)
    requires s != [] && !IsWhitespace(s[|s| - 1])
    ensures DropWhitespace(s) != [] && DropWhitespace(s)[|DropWhitespace(s)| - 1] == s[|s| - 1]
  {
    if IsWhitespace(s[0]) {
      assert |s| > 1;
      DropWhitespaceKeepsLast(s[1..]);
    }
  }

  lemma {:induction false} ConcatAppend(xs: seq<string>, ys: seq<string>)
    ensures Concat(xs + ys) == Concat(xs) + Concat(ys)
  {
    if xs == [] {
      assert xs + ys == ys;
    } else {
      assert (xs + ys)[0] == xs[0];
      assert (xs + ys)[1..] == xs[1..] + ys;
      ConcatAppend(xs[1..], ys);
    }
  }

  predicate AllTokens(ps: seq<string>) {
    forall i :: 0 <= i < |ps| ==> IsToken(ps[i])
  }

  /** The pieces hold exactly the non-`\s` characters, in order. */
  lemma {:induction false} PiecesConcat(s: string, piece: string)
    ensures Concat(Pieces(s, piece)) == piece + NonWhitespace(s)
    decreases |s|
  {
    if s == [] {
      assert Concat([piece]) == piece + Concat([]);
    } else if IsWhitespace(s[0]) {
      var rest := DropWhitespace(s);
      DropWhitespaceDropsOnlyWhitespace(s);
      PiecesConcat(rest, "");
      ConcatAppend([piece], Pieces(rest, ""));
      assert Concat([piece]) == piece + Concat([]);
      assert NonWhitespace(s) == NonWhitespace(s[1..]);
    } else {
      PiecesConcat(s[1..], piece + [s[0]]);
      assert NonWhitespace(s) == [s[0]] + NonWhitespace(s[1..]);
    }
  }

  /**
   * When `s` does not end in `\s` and the first piece cannot come out empty,
   * every piece is a nonempty run of non-`\s` characters.
   */
  lemma {:induction false} PiecesAreTokens(s: string, piece: string)
    requires forall k :: 0 <= k < |piece| ==> !IsWhitespace(piece[k])
    requires piece != [] || (s != [] && !IsWhitespace(s[0]))
    requires s == [] || !IsWhitespace(s[|s| - 1])
    ensures AllTokens(Pieces(s, piece))
    decreases |s|
  {
    if s == [] {
    } else if IsWhitespace(s[0]) {
      var tail := Pieces(DropWhitespace(s), "");
      assert AllTokens(tail) by {
        DropWhitespaceKeepsLast(s);
        PiecesAreTokens(DropWhitespace(s), "");
      }
      TokenBeforeTokens(piece, tail);
    } else {
      var grown := piece + [s[0]];
      assert forall k :: 0 <= k < |grown| ==> !IsWhitespace(grown[k]) by {
        assert forall k :: 0 <= k < |piece| ==> grown[k] == piece[k];
      }
      PiecesAreTokens(s[1..], grown);
    }
  }

  lemma TokenBeforeTokens(t: string, ts: seq<string>)
    requires IsToken(t) && AllTokens(ts)
    ensures AllTokens([t] + ts)
  {
    forall i | 0 <= i < |[t] + ts| ensures IsToken(([t] + ts)[i]) {
      if i > 0 { assert ([t] + ts)[i] == ts[i - 1]; }
    }
  }

  lemma {:induction false} NoWhitespaceIsKept(s: string)
    requires !HasWhitespace(s)
    ensures NonWhitespace(s) == s
  {
    if s != [] {
      NoWhitespaceIsKept(s[1..]);
    }
  }

  /**
   * Splitting a trimmed, nonblank string yields nonempty tokens without
   * `\s` characters that together hold all its non-`\s` characters.
   */
  lemma SplitTrimmed(s: string)
    requires s != [] && !TrimRemoves(s[0]) && !TrimRemoves(s[|s| - 1])
    ensures |Split(s)| > 0
    ensures forall i :: 0 <= i < |Split(s)| ==> IsToken(Split(s)[i])
    ensures Concat(Split(s)) == NonWhitespace(s)
  {
    assert !IsWhitespace(s[0]) && !IsWhitespace(s[|s| - 1]);
    if HasWhitespace(s) {
      var ps := Pieces(s, "");
      PiecesAreTokens(s, "");
      PiecesConcat(s, "");
      assert ps[|ps| - 1] != "";
      assert DropTrailingEmpty(ps) == ps;
    } else {
      NoWhitespaceIsKept(s);
      assert Split(s) == [s];
      assert Concat([s]) == s + Concat([]);
    }
  }

  // ---------------------------------------------------------------------
  // Words joined by single spaces split back into the same words

  /** A word as the console reads it: one or more characters above U+0020. */
  predicate IsWord(w: string) {
    w != [] && forall k :: 0 <= k < |w| ==> !TrimRemoves(w[k])
  }

  predicate AllWords(ws: seq<string>) {
    forall i :: 0 <= i < |ws| ==> IsWord(ws[i])
  }

  /** The words with a single space between neighbours. */
  function Join(ws: seq<string>): string {
    if ws == [] then [] else if |ws| == 1 then ws[0] else ws[0] + " " + Join(ws[1..])
  }

  lemma HeadAndTail<T>(s: seq<T>)
    requires s != []
    ensures [s[0]] + s[1..] == s
  {
  }

  /** A join of words starts with the first word and ends with a character of the last. */
  lemma {:induction false} JoinEnds(ws: seq<string>)
    requires ws != [] && AllWords(ws)
    ensures Join(ws) != [] && Join(ws)[0] == ws[0][0]
    ensures !TrimRemoves(Join(ws)[0]) && !TrimRemoves(Join(ws)[|Join(ws)| - 1])
  {
    if |ws| > 1 {
      var rest := ws[1..];
      assert AllWords(rest) by {
        assert forall i :: 0 <= i < |rest| ==> rest[i] == ws[i + 1];
      }
      JoinEnds(rest);
    }
  }

  /** Reading a word without `\s` characters only grows the current piece. */
  lemma {:induction false} PiecesSkipWord(w: string, rest: string, piece: string)
    requires forall k :: 0 <= k < |w| ==> !IsWhitespace(w[k])
    ensures Pieces(w + rest, piece) == Pieces(rest, piece + w)
    decreases |w|
  {
    if w == [] {
      assert w + rest == rest && piece + w == piece;
    } else {
      assert (w + rest)[0] == w[0] && (w + rest)[1..] == w[1..] + rest;
      PiecesSkipWord(w[1..], rest, piece + [w[0]]);
      assert piece + [w[0]] + w[1..] == piece + w;
    }
  }

  /** A single word is read as one piece. */
  lemma PiecesOfWord(w: string, piece: string)
    requires IsWord(w)
    ensures Pieces(w, piece) == [piece + w]
  {
    assert forall k :: 0 <= k < |w| ==> !IsWhitespace(w[k]);
    PiecesSkipWord(w, [], piece);
    assert w + [] == w;
  }

  /** A word, a space, and a join of words that is read as its words. */
  lemma PiecesOfSpacedJoin(w: string, rest: seq<string>, piece: string)
    requires IsWord(w) && rest != [] && AllWords(rest)
    requires Pieces(Join(rest), "") == rest
    ensures Pieces(w + (" " + Join(rest)), piece) == [piece + w] + rest
  {
    var tail := Join(rest);
    var spaced := " " + tail;
    assert Pieces(w + spaced, piece) == Pieces(spaced, piece + w) by {
      assert forall k :: 0 <= k < |w| ==> !IsWhitespace(w[k]);
      PiecesSkipWord(w, spaced, piece);
    }
    assert DropWhitespace(spaced) == tail by {
      JoinEnds(rest);
      assert spaced[1..] == tail;
    }
  }

  lemma {:induction false} PiecesOfJoin(ws: seq<string>, piece: string)
    requires ws != [] && AllWords(ws)
    ensures Pieces(Join(ws), piece) == [piece + ws[0]] + ws[1..]
  {
    if |ws| == 1 {
      PiecesOfWord(ws[0], piece);
    } else {
      var rest := ws[1..];
      assert AllWords(rest) by {
        assert forall i :: 0 <= i < |rest| ==> rest[i] == ws[i + 1];
      }
      assert Pieces(Join(rest), "") == rest by {
        PiecesOfJoin(rest, "");
        assert "" + rest[0] == rest[0];
        HeadAndTail(rest);
      }
      PiecesOfSpacedJoin(ws[0], rest, piece);
      assert Join(ws) == ws[0] + (" " + Join(rest));
    }
  }

  /** `split("\\s+")` undoes the join of one or more words. */
  lemma SplitJoin(ws: seq<string>)
    requires ws != [] && AllWords(ws)
    ensures Split(Join(ws)) == ws
  {
    if |ws| == 1 {
      assert !HasWhitespace(ws[0]);
    } else {
      var s := Join(ws);
      assert s == ws[0] + " " + Join(ws[1..]);
      assert IsWhitespace(s[|ws[0]|]);
      PiecesOfJoin(ws, "");
      assert "" + ws[0] == ws[0];
      HeadAndTail(ws);
      assert ws[|ws| - 1] != "";
    }
  }

  /** `trim()` drops the single space before a join of words and nothing else. */
  lemma TrimSpacedJoin(ws: seq<string>)
    requires ws != [] && AllWords(ws)
    ensures Trim(" " + Join(ws)) == Join(ws)
  {
    var s := Join(ws);
    JoinEnds(ws);
    assert (" " + s)[1..] == s;
    assert TrimStart(s) == s;
    assert TrimStart(" " + s) == s;
    assert TrimEnd(s) == s;
  }
}
