/** Python string built-ins the pipeline relies on, stated over `seq<char>`.
    `strip`, `isspace` and `splitlines` follow Python's own character sets;
    `lower`, `\w` and `isdigit` are restricted to ASCII. */
module Text {

  /** Characters for which Python's `str.isspace()` holds. */
  predicate IsSpace(c: char) {
    ('\t' <= c <= '\r') || ('\U{1c}' <= c <= ' ') || c == '\U{85}' || c == '\U{a0}'
    || c == '\U{1680}' || ('\U{2000}' <= c <= '\U{200a}') || c == '\U{2028}' || c == '\U{2029}'
    || c == '\U{202f}' || c == '\U{205f}' || c == '\U{3000}'
  }

  /** Line boundaries of Python's `str.splitlines()` (`\r\n` is handled in SplitLines). */
  predicate IsLineBreak(c: char) {
    c == '\n' || c == '\r' || c == '\U{0b}' || c == '\U{0c}' || ('\U{1c}' <= c <= '\U{1e}')
    || c == '\U{85}' || c == '\U{2028}' || c == '\U{2029}'
  }

  predicate IsDigit(c: char) { '0' <= c <= '9' }

  /** ASCII approximation of the regular-expression class `\w`. */
  predicate IsWordChar(c: char) {
    ('a' <= c <= 'z') || ('A' <= c <= 'Z') || IsDigit(c) || c == '_'
  }

  function LowerChar(c: char): (r: char)
    ensures ('A' <= c <= 'Z') ==> 'a' <= r <= 'z'
    ensures !('A' <= c <= 'Z') ==> r == c
    ensures IsWordChar(r) <==> IsWordChar(c)
  {
    if 'A' <= c <= 'Z' then (c as int + 32) as char else c
  }

  /** `s.lower()` */
  function Lower(s: string): (r: string)
    ensures |r| == |s|
  {
    seq(|s|, i requires 0 <= i < |s| => LowerChar(s[i]))
  }

  lemma LowerIdempotent(s: string)
    ensures Lower(Lower(s)) == Lower(s)
  {
  }

  lemma LowerConcat(a: string, b: string)
    ensures Lower(a + b) == Lower(a) + Lower(b)
  {
  }

  /** Drops the longest prefix whose characters satisfy `p` (`lstrip`). */
  function TrimStart(s: string, p: char -> bool): string {
    if s != [] && p(s[0]) then TrimStart(s[1..], p) else s
  }

  /** `lstrip` leaves a suffix that does not start with a stripped character, and
      every character it dropped is one. */
  lemma {:induction false} TrimStartShape(s: string, p: char -> bool)
    ensures var r := TrimStart(s, p);
      |r| <= |s| && r == s[|s| - |r|..] && (r == [] || !p(r[0])) &&
      (forall i :: 0 <= i < |s| - |r| ==> p(s[i]))
  {
    if s != [] && p(s[0]) {
      TrimStartShape(s[1..], p);
      var r := TrimStart(s[1..], p);
      assert TrimStart(s, p) == r;
      assert s[1..][|s| - 1 - |r|..] == s[|s| - |r|..];
      forall i | 0 <= i < |s| - |r| ensures p(s[i]) {
        if i > 0 {
          assert s[i] == s[1..][i - 1];
        }
      }
    }
  }

  /** Drops the longest suffix whose characters satisfy `p` (`rstrip`). */
  function TrimEnd(s: string, p: char -> bool): string {
    if s != [] && p(s[|s| - 1]) then TrimEnd(s[..|s| - 1], p) else s
  }

  /** `rstrip` leaves a prefix that does not end with a stripped character, and
      every character it dropped is one. */
  lemma {:induction false} TrimEndShape(s: string, p: char -> bool)
    ensures var r := TrimEnd(s, p);
      |r| <= |s| && r == s[..|r|] && (r == [] || !p(r[|r| - 1])) &&
      (forall i :: |r| <= i < |s| ==> p(s[i]))
  {
    if s != [] && p(s[|s| - 1]) {
      TrimEndShape(s[..|s| - 1], p);
      var r := TrimEnd(s[..|s| - 1], p);
      assert TrimEnd(s, p) == r;
      assert s[..|s| - 1][..|r|] == s[..|r|];
      forall i | |r| <= i < |s| ensures p(s[i]) {
        if i < |s| - 1 {
          assert s[i] == s[..|s| - 1][i];
        }
      }
    }
  }

  /** `s.strip()` */
  function Strip(s: string): string {
    TrimEnd(TrimStart(s, IsSpace), IsSpace)
  }

  /** A string that `strip()` leaves unchanged. */
  predicate IsStripped(s: string) {
    s == [] || (!IsSpace(s[0]) && !IsSpace(s[|s| - 1]))
  }

  lemma TrimStartFixed(s: string, p: char -> bool)
    requires s == [] || !p(s[0])
    ensures TrimStart(s, p) == s
  {
  }

  lemma TrimEndFixed(s: string, p: char -> bool)
    requires s == [] || !p(s[|s| - 1])
    ensures TrimEnd(s, p) == s
  {
  }

  /** The result of `strip()` has no surrounding whitespace. */
  lemma StripLeavesNoSpace(s: string)
    ensures IsStripped(Strip(s))
  {
    var t := TrimStart(s, IsSpace);
    var r := TrimEnd(t, IsSpace);
    TrimStartShape(s, IsSpace);
    TrimEndShape(t, IsSpace);
    if r != [] {
      assert r[0] == t[0];
    }
  }

  /** A string without surrounding whitespace is its own `strip()`. */
  lemma StrippedIsFixed(s: string)
    requires IsStripped(s)
    ensures Strip(s) == s
  {
    TrimStartFixed(s, IsSpace);
    TrimEndFixed(s, IsSpace);
  }

  /** The result of `strip()` has no surrounding whitespace, and a string
      without surrounding whitespace is its own `strip()`. */
  lemma StripCharacterised(s: string)
    ensures IsStripped(Strip(s))
    ensures IsStripped(s) <==> Strip(s) == s
  {
    StripLeavesNoSpace(s);
    if IsStripped(s) {
      StrippedIsFixed(s);
    }
  }

  lemma StripIdempotent(s: string)
    ensures Strip(Strip(s)) == Strip(s)
  {
    StripCharacterised(s);
    StripCharacterised(Strip(s));
  }

  /** `strip()` only removes characters: what is left is a slice of the original. */
  lemma StripIsSlice(s: string)
    ensures exists a, b :: 0 <= a <= b <= |s| && Strip(s) == s[a..b]
  {
    var t := TrimStart(s, IsSpace);
    var r := TrimEnd(t, IsSpace);
    TrimStartShape(s, IsSpace);
    TrimEndShape(t, IsSpace);
    assert r == s[|s| - |t|..|s| - |t| + |r|];
  }

  lemma StripChars(s: string)
    ensures forall c :: c in Strip(s) ==> c in s
  {
    StripIsSlice(s);
    var r := Strip(s);
    var a, b :| 0 <= a <= b <= |s| && r == s[a..b];
    forall c | c in r ensures c in s {
      var i :| 0 <= i < |r| && r[i] == c;
      assert r[i] == s[a..b][i] == s[a + i];
    }
  }

  lemma {:induction false} StripAllSpace(s: string)
    requires forall i :: 0 <= i < |s| ==> IsSpace(s[i])
    ensures Strip(s) == []
  {
    TrimStartShape(s, IsSpace);
  }

  /** Index of the first line boundary in `s`, or `|s|` if there is none. */
  function FirstBreak(s: string): (k: nat)
    ensures k <= |s|
    ensures k < |s| ==> IsLineBreak(s[k])
    ensures forall i :: 0 <= i < k ==> !IsLineBreak(s[i])
  {
    if s == [] then 0
    else if IsLineBreak(s[0]) then 0
    else 1 + FirstBreak(s[1..])
  }

  /** `s.splitlines()`: no empty string after a final boundary, `\r\n` is one boundary. */
  function SplitLines(s: string): (lines: seq<string>)
    decreases |s|
  {
    if s == [] then []
    else
      var k := FirstBreak(s);
      if k == |s| then [s]
      else
        var w := if s[k] == '\r' && k + 1 < |s| && s[k + 1] == '\n' then 2 else 1;
        [s[..k]] + SplitLines(s[k + w..])
  }

  /** Lines hold no line boundary, and every character of a line comes from `s`. */
  lemma {:induction false} SplitLinesParts(s: string)
    ensures forall k, j :: 0 <= k < |SplitLines(s)| && 0 <= j < |SplitLines(s)[k]| ==>
      !IsLineBreak(SplitLines(s)[k][j]) && SplitLines(s)[k][j] in s
    decreases |s|
  {
    if s != [] {
      var k := FirstBreak(s);
      if k == |s| {
        assert SplitLines(s) == [s];
      } else {
        var w := if s[k] == '\r' && k + 1 < |s| && s[k + 1] == '\n' then 2 else 1;
        var rest := s[k + w..];
        var R := SplitLines(rest);
        SplitLinesParts(rest);
        var L := SplitLines(s);
        assert L == [s[..k]] + R;
        forall i, j | 0 <= i < |L| && 0 <= j < |L[i]|
          ensures !IsLineBreak(L[i][j]) && L[i][j] in s
        {
          if i == 0 {
            assert L[i][j] == s[j];
          } else {
            LineOfRest(L, R, s[..k], i, j);
            InSuffix(s, k + w, L[i][j]);
          }
        }
      }
    }
  }

  /** A character of a later line is a character of the lines after the first. */
  lemma LineOfRest(L: seq<string>, R: seq<string>, first: string, i: nat, j: nat)
    requires L == [first] + R && 0 < i < |L| && j < |L[i]|
    ensures L[i][j] == R[i - 1][j]
  {
  }

  /** The lines laid end to end. */
  function Flatten(lines: seq<string>): string {
    if lines == [] then [] else lines[0] + Flatten(lines[1..])
  }

  /** The characters of `s` that are not line boundaries, in order. */
  function NonBreaks(s: string): string {
    if s == [] then [] else (if IsLineBreak(s[0]) then [] else [s[0]]) + NonBreaks(s[1..])
  }

  lemma {:induction false} NonBreaksConcat(a: string, b: string)
    ensures NonBreaks(a + b) == NonBreaks(a) + NonBreaks(b)
  {
    if a == [] {
      assert a + b == b;
    } else {
      assert (a + b)[0] == a[0];
      assert (a + b)[1..] == a[1..] + b;
      NonBreaksConcat(a[1..], b);
    }
  }

  lemma {:induction false} NonBreaksOfLine(a: string)
    requires forall i :: 0 <= i < |a| ==> !IsLineBreak(a[i])
    ensures NonBreaks(a) == a
  {
    if a != [] {
      NonBreaksOfLine(a[1..]);
    }
  }

  lemma {:induction false} NonBreaksOfBreaks(a: string)
    requires forall i :: 0 <= i < |a| ==> IsLineBreak(a[i])
    ensures NonBreaks(a) == []
  {
    if a != [] {
      NonBreaksOfBreaks(a[1..]);
    }
  }

  lemma GapVanishes(s: string, k: nat, w: nat)
    requires k < |s| && IsLineBreak(s[k])
    requires w == 1 || (w == 2 && k + 1 < |s| && s[k + 1] == '\n')
    ensures NonBreaks(s[k..k + w]) == []
  {
    var gap := s[k..k + w];
    assert gap[0] == s[k];
    if w == 2 {
      assert gap[1] == s[k + 1];
    }
    NonBreaksOfBreaks(gap);
  }

  lemma ThreeParts(s: string, i: nat, j: nat)
    requires i <= j <= |s|
    ensures s == s[..i] + s[i..j] + s[j..]
  {
  }

  lemma NonBreaksAround(a: string, gap: string, rest: string)
    requires NonBreaks(a) == a && NonBreaks(gap) == []
    ensures NonBreaks(a + gap + rest) == a + NonBreaks(rest)
  {
    NonBreaksConcat(a + gap, rest);
    NonBreaksConcat(a, gap);
  }

  /** `splitlines()` loses nothing but the line boundaries: its lines, laid end to end,
      are the text with every boundary character removed, in order. */
  lemma {:induction false} SplitLinesKeepsText(s: string)
    ensures Flatten(SplitLines(s)) == NonBreaks(s)
    decreases |s|
  {
    if s != [] {
      var k := FirstBreak(s);
      NonBreaksOfLine(s[..k]);
      if k == |s| {
        assert s[..k] == s;
        assert SplitLines(s) == [s];
        assert Flatten([s]) == s + Flatten([]);
      } else {
        var w := if s[k] == '\r' && k + 1 < |s| && s[k + 1] == '\n' then 2 else 1;
        var rest := s[k + w..];
        SplitLinesKeepsText(rest);
        var L := SplitLines(s);
        assert L == [s[..k]] + SplitLines(rest);
        assert L[0] == s[..k] && L[1..] == SplitLines(rest);
        assert Flatten(L) == s[..k] + Flatten(SplitLines(rest));
        GapVanishes(s, k, w);
        ThreeParts(s, k, k + w);
        NonBreaksAround(s[..k], s[k..k + w], rest);
      }
    }
  }

  /** Does `p` begin `s`? (`s.startswith(p)`) */
  predicate StartsWith(s: string, p: string) {
    |p| <= |s| && s[..|p|] == p
  }

  /** `needle in hay` */
  predicate Contains(hay: string, needle: string)
    decreases |hay|
  {
    StartsWith(hay, needle) || (hay != [] && Contains(hay[1..], needle))
  }

  function Take<T>(s: seq<T>, n: nat): (r: seq<T>)
    ensures |r| == if n < |s| then n else |s|
    ensures r == s[..|r|]
  {
    if n < |s| then s[..n] else s
  }

  /** `s.split(sep)` for a non-empty separator: leftmost, non-overlapping occurrences. */
  function Split(s: string, sep: string): (pieces: seq<string>)
    requires sep != []
    ensures |pieces| >= 1
    decreases |s|
  {
    if |s| < |sep| then [s]
    else if s[..|sep|] == sep then [""] + Split(s[|sep|..], sep)
    else
      var rest := Split(s[1..], sep);
      [[s[0]] + rest[0]] + rest[1..]
  }

  /** `sep.join(pieces)` */
  function Join(pieces: seq<string>, sep: string): string
    decreases |pieces|
  {
    if pieces == [] then ""
    else if |pieces| == 1 then pieces[0]
    else pieces[0] + sep + Join(pieces[1..], sep)
  }

  /** Splitting loses nothing: joining the pieces with the separator gives back the text. */
  lemma {:induction false} JoinSplit(s: string, sep: string)
    requires sep != []
    ensures Join(Split(s, sep), sep) == s
    decreases |s|
  {
    if |s| < |sep| {
    } else if s[..|sep|] == sep {
      var rest := Split(s[|sep|..], sep);
      JoinSplit(s[|sep|..], sep);
      assert Split(s, sep) == [""] + rest;
      JoinAfterEmpty(rest, sep);
      assert s == sep + s[|sep|..];
    } else {
      var rest := Split(s[1..], sep);
      JoinSplit(s[1..], sep);
      assert Split(s, sep) == [[s[0]] + rest[0]] + rest[1..];
      JoinConsHead(s[0], rest, sep);
      assert s == [s[0]] + s[1..];
    }
  }

  lemma JoinAfterEmpty(rest: seq<string>, sep: string)
    requires |rest| >= 1
    ensures Join([""] + rest, sep) == sep + Join(rest, sep)
  {
    var ps := [""] + rest;
    assert ps[0] == "" && ps[1..] == rest;
  }

  lemma JoinConsHead(c: char, rest: seq<string>, sep: string)
    requires |rest| >= 1
    ensures Join([[c] + rest[0]] + rest[1..], sep) == [c] + Join(rest, sep)
  {
    var ps := [[c] + rest[0]] + rest[1..];
    if |rest| == 1 {
      assert ps == [[c] + rest[0]];
    } else {
      assert ps[0] == [c] + rest[0] && ps[1..] == rest[1..];
    }
  }

  /** A character of a suffix is a character of the text. */
  lemma InSuffix(s: string, j: nat, c: char)
    requires j <= |s| && c in s[j..]
    ensures c in s
  {
    var i :| 0 <= i < |s[j..]| && s[j..][i] == c;
    assert s[j + i] == c;
  }

  /** Every character of every piece comes from the text. */
  lemma {:induction false} SplitChars(s: string, sep: string)
    requires sep != []
    ensures forall k, c :: 0 <= k < |Split(s, sep)| && c in Split(s, sep)[k] ==> c in s
    decreases |s|
  {
    if |s| >= |sep| {
      if s[..|sep|] == sep {
        SplitChars(s[|sep|..], sep);
        var rest := Split(s[|sep|..], sep);
        assert Split(s, sep) == [""] + rest;
        forall k, c | 0 <= k < |Split(s, sep)| && c in Split(s, sep)[k] ensures c in s {
          assert c in rest[k - 1];
          assert c in s[|sep|..];
          InSuffix(s, |sep|, c);
        }
      } else {
        SplitChars(s[1..], sep);
        var rest := Split(s[1..], sep);
        var ps := [[s[0]] + rest[0]] + rest[1..];
        assert Split(s, sep) == ps;
        forall k, c | 0 <= k < |ps| && c in ps[k] ensures c in s {
          if k == 0 {
            if c != s[0] {
              assert c in rest[0];
            }
          } else {
            assert ps[k] == rest[k];
          }
          if c != s[0] {
            assert c in s[1..];
            InSuffix(s, 1, c);
          }
        }
      }
    }
  }

  /** With a one-character separator, no piece contains that character. */
  lemma {:induction false} SplitCharPieces(s: string, c: char)
    ensures forall k :: 0 <= k < |Split(s, [c])| ==> c !in Split(s, [c])[k]
    decreases |s|
  {
    if |s| >= 1 {
      SplitCharPieces(s[1..], c);
      var rest := Split(s[1..], [c]);
      if s[..1] == [c] {
        assert Split(s, [c]) == [""] + rest;
      } else {
        assert s[0] != c by { assert s[..1][0] == s[0]; }
        var ps := [[s[0]] + rest[0]] + rest[1..];
        assert Split(s, [c]) == ps;
        forall k | 0 <= k < |ps| ensures c !in ps[k] {
          if k > 0 { assert ps[k] == rest[k]; }
        }
      }
    }
  }

  /** `s.replace(a, b)` for single characters. */
  function ReplaceChar(s: string, a: char, b: char): (r: string)
    ensures |r| == |s|
    ensures forall i :: 0 <= i < |s| ==> r[i] == (if s[i] == a then b else s[i])
  {
    seq(|s|, i requires 0 <= i < |s| => if s[i] == a then b else s[i])
  }

  function DigitChar(d: nat): char
    requires d < 10
  {
    ('0' as int + d) as char
  }

  function DigitValue(c: char): (d: nat)
    requires IsDigit(c)
    ensures d < 10 && DigitChar(d) == c
  {
    c as int - '0' as int
  }

  /** `str(n)` for a non-negative integer. */
  function NatToString(n: nat): (r: string)
    ensures |r| >= 1
    ensures forall i :: 0 <= i < |r| ==> IsDigit(r[i])
  {
    if n < 10 then [DigitChar(n)] else NatToString(n / 10) + [DigitChar(n % 10)]
  }

  /** The number a string of decimal digits stands for. */
  function DecimalValue(s: string): nat
    requires forall i :: 0 <= i < |s| ==> IsDigit(s[i])
  {
    if s == [] then 0
    else 10 * DecimalValue(s[..|s| - 1]) + DigitValue(s[|s| - 1])
  }

  /** `str(n)` can be read back: its digits denote `n`, with no leading zero. */
  lemma {:induction false} NatToStringRoundTrip(n: nat)
    ensures DecimalValue(NatToString(n)) == n
    ensures n > 0 ==> NatToString(n)[0] != '0'
  {
    if n >= 10 {
      NatToStringRoundTrip(n / 10);
      var r := NatToString(n);
      var p := NatToString(n / 10);
      assert r[..|r| - 1] == p;
      assert r[0] == p[0];
    }
  }

  /** `list(s)`: the one-character strings of `s`. */
  function Characters(s: string): (r: seq<string>)
    ensures |r| == |s| && forall i :: 0 <= i < |s| ==> r[i] == [s[i]]
  {
    seq(|s|, i requires 0 <= i < |s| => [s[i]])
  }
}
