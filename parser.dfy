/** Segmenting raw resume text into bullet statements (`extract_resume_bullets`). */
module Parser {
  import opened Text
  import opened Values

  /** The characters `lstrip("-•*·0123456789. ")` removes. */
  predicate IsMarkerChar(c: char) {
    c == '-' || c == '•' || c == '*' || c == '·' || IsDigit(c) || c == '.' || c == ' '
  }

  /** The prefixes `-`, `•`, `*`, `·` or a leading digit mark a bullet line. */
  predicate StartsAsBullet(stripped: string) {
    stripped != [] &&
    (stripped[0] == '-' || stripped[0] == '•' || stripped[0] == '*' || stripped[0] == '·' || IsDigit(stripped[0]))
  }

  /** The action verbs, as listed (with "designed" twice). */
  const ActionVerbs: seq<string> := [
    "developed", "created", "built", "implemented", "designed",
    "managed", "led", "improved", "optimized", "reduced", "increased",
    "used", "worked", "designed", "wrote", "tested"
  ]

  /** Some action verb occurs within the first 20 lower-cased characters. */
  predicate MentionsActionVerb(stripped: string) {
    ContainsAny(Take(Lower(stripped), 20), ActionVerbs)
  }

  /** `any(w in hay for w in words)` */
  predicate ContainsAny(hay: string, words: seq<string>) {
    words != [] && (Contains(hay, words[0]) || ContainsAny(hay, words[1..]))
  }

  /** A marker line with its leading marker characters removed, stripped again. */
  function MarkerBody(stripped: string): string {
    Strip(TrimStart(stripped, IsMarkerChar))
  }

  /** What one line contributes under the two selection rules. */
  function SelectLine(line: string): Option<string> {
    var stripped := Strip(line);
    if stripped == [] then None
    else if StartsAsBullet(stripped) then
      var bullet := MarkerBody(stripped);
      if |bullet| >= 3 then Some(bullet) else None
    else if MentionsActionVerb(stripped) then
      if |stripped| >= 5 then Some(stripped) else None
    else None
  }

  /** What one line contributes to the lenient fallback. */
  function FallbackLine(line: string): Option<string> {
    if |Strip(line)| >= 3 then Some(Strip(line)) else None
  }

  function OptionToSeq(o: Option<string>): (r: seq<string>)
    ensures |r| <= 1
  {
    if o.Some? then [o.value] else []
  }

  /** The lines that `f` keeps, as `f` rewrites them, in line order. */
  function FilterMap(lines: seq<string>, f: string -> Option<string>): (r: seq<string>)
    ensures |r| <= |lines|
  {
    if lines == [] then []
    else FilterMap(lines[..|lines| - 1], f) + OptionToSeq(f(lines[|lines| - 1]))
  }

  /** `extract_resume_bullets(text)`: rule-selected lines, or the fallback when none is selected. */
  function ExtractBullets(text: string): seq<string> {
    BulletsOfLines(SplitLines(text))
  }

  /** The bullets drawn from a list of lines. */
  function BulletsOfLines(lines: seq<string>): seq<string> {
    FilterMap(lines, ChosenRule(lines))
  }

  /** The selection rules, or the fallback when they select no line at all. */
  function ChosenRule(lines: seq<string>): string -> Option<string> {
    if FilterMap(lines, SelectLine) == [] then FallbackLine else SelectLine
  }

  /** The body of the loop of `extract_resume_bullets`: the bullet one line adds, if any. */
  method ConsiderLine(line: string) returns (selected: Option<string>)
    ensures selected == SelectLine(line)
  {
    selected := None;
    var stripped := Strip(line);
    if stripped != [] {
      if StartsAsBullet(stripped) {
        MarkerRule(line);
        var bullet := MarkerBody(stripped);
        if |bullet| >= 3 {
          selected := Some(bullet);
        }
      } else if MentionsActionVerb(stripped) {
        if |stripped| >= 5 {
          selected := Some(stripped);
        }
      }
    }
  }

  /** The loop of `extract_resume_bullets`, appending one selected line at a time. */
  method ExtractResumeBullets(text: string) returns (bullets: seq<string>)
    ensures bullets == ExtractBullets(text)
  {
    bullets := [];
    var lines := SplitLines(text);
    assert lines[..0] == [];
    for i := 0 to |lines|
      invariant bullets == FilterMap(lines[..i], SelectLine)
    {
      assert lines[..i + 1][..i] == lines[..i];
      assert FilterMap(lines[..i + 1], SelectLine) == bullets + OptionToSeq(SelectLine(lines[i]));
      var selected := ConsiderLine(lines[i]);
      if selected.Some? {
        bullets := bullets + [selected.value];
      }
    }
    assert lines[..|lines|] == lines;
    if bullets == [] {
      bullets := FilterMap(lines, FallbackLine);
    }
  }

  // ---------------------------------------------------------------------------
  // Properties

  /** A marker line contributes its body, without the leading marker characters and
      stripped again, and only when at least three characters remain. */
  lemma MarkerRule(line: string)
    requires StartsAsBullet(Strip(line))
    ensures SelectLine(line) == if |MarkerBody(Strip(line))| >= 3 then Some(MarkerBody(Strip(line))) else None
  {
  }

  /** Any other line contributes its stripped form only when an action verb occurs in its
      first 20 lower-cased characters and it has at least five characters. */
  lemma ActionVerbRule(line: string)
    requires !StartsAsBullet(Strip(line))
    ensures SelectLine(line) ==
      if Strip(line) != [] && MentionsActionVerb(Strip(line)) && |Strip(line)| >= 5 then Some(Strip(line)) else None
  {
  }

  /** Whatever a line contributes is stripped and at least three characters long. */
  lemma SelectedWellFormed(line: string)
    ensures SelectLine(line).Some? ==> Strip(SelectLine(line).value) == SelectLine(line).value && |SelectLine(line).value| >= 3
    ensures FallbackLine(line).Some? ==> Strip(FallbackLine(line).value) == FallbackLine(line).value && |FallbackLine(line).value| >= 3
  {
    var stripped := Strip(line);
    StripIdempotent(line);
    if StartsAsBullet(stripped) {
      MarkerRule(line);
      StripIdempotent(TrimStart(stripped, IsMarkerChar));
    } else {
      ActionVerbRule(line);
    }
  }

  /** Positions in `lines` of the lines that `f` keeps. */
  ghost function Origins(lines: seq<string>, f: string -> Option<string>): seq<nat> {
    if lines == [] then []
    else Origins(lines[..|lines| - 1], f) + (if f(lines[|lines| - 1]).Some? then [|lines| - 1] else [])
  }

  /** The output of a filter-map is drawn from distinct lines in increasing order, and
      every line that `f` keeps is among them. */
  lemma {:induction false} FilterMapOrigins(lines: seq<string>, f: string -> Option<string>)
    ensures var o, r := Origins(lines, f), FilterMap(lines, f);
      |o| == |r| &&
      (forall k :: 0 <= k < |o| ==> o[k] < |lines| && f(lines[o[k]]) == Some(r[k])) &&
      (forall k, m :: 0 <= k < m < |o| ==> o[k] < o[m]) &&
      (forall j :: 0 <= j < |lines| && f(lines[j]).Some? ==> j in o)
  {
    if lines != [] {
      var init := lines[..|lines| - 1];
      FilterMapOrigins(init, f);
      forall j | 0 <= j < |init| ensures init[j] == lines[j] { }
    }
  }

  /** A filter-map keeps nothing when `f` keeps no line. */
  lemma {:induction false} FilterMapNone(lines: seq<string>, f: string -> Option<string>)
    requires forall j :: 0 <= j < |lines| ==> f(lines[j]).None?
    ensures FilterMap(lines, f) == []
  {
    if lines != [] {
      FilterMapNone(lines[..|lines| - 1], f);
    }
  }

  /** Extraction keeps only stripped bullets of length at least 3. */
  lemma BulletsWellFormed(lines: seq<string>)
    ensures forall k :: 0 <= k < |BulletsOfLines(lines)| ==>
      Strip(BulletsOfLines(lines)[k]) == BulletsOfLines(lines)[k] && |BulletsOfLines(lines)[k]| >= 3
  {
    var out := BulletsOfLines(lines);
    var f := if FilterMap(lines, SelectLine) == [] then FallbackLine else SelectLine;
    assert out == FilterMap(lines, f);
    FilterMapOrigins(lines, f);
    var o := Origins(lines, f);
    forall k | 0 <= k < |out| ensures Strip(out[k]) == out[k] && |out[k]| >= 3 {
      SelectedWellFormed(lines[o[k]]);
    }
  }

  /** Empty or all-whitespace resume text yields no bullets. */
  lemma BlankTextHasNoBullets(text: string)
    requires forall i :: 0 <= i < |text| ==> IsSpace(text[i])
    ensures ExtractBullets(text) == []
  {
    var lines := SplitLines(text);
    SplitLinesParts(text);
    forall j | 0 <= j < |lines| ensures Strip(lines[j]) == [] {
      forall m | 0 <= m < |lines[j]| ensures IsSpace(lines[j][m]) {
        assert lines[j][m] in text;
      }
      StripAllSpace(lines[j]);
    }
    FilterMapNone(lines, SelectLine);
    FilterMapNone(lines, FallbackLine);
  }

  /** `o` lists, in strictly increasing order, the positions of the lines that `out`
      comes from, each output being what `f` makes of its line. */
  predicate Traces(o: seq<nat>, lines: seq<string>, out: seq<string>, f: string -> Option<string>) {
    |o| == |out| &&
    (forall k, m :: 0 <= k < m < |o| ==> o[k] < o[m]) &&
    (forall k :: 0 <= k < |o| ==> o[k] < |lines| && f(lines[o[k]]) == Some(out[k]))
  }

  /** Output follows input line order, each bullet from its own line, so there are at
      most as many bullets as lines; and each bullet is what the chosen rule makes of its line. */
  lemma BulletsFollowLines(lines: seq<string>)
    ensures |BulletsOfLines(lines)| <= |lines|
    ensures Traces(Origins(lines, ChosenRule(lines)), lines, BulletsOfLines(lines), ChosenRule(lines))
  {
    FilterMapOrigins(lines, ChosenRule(lines));
  }

  /** The fallback keeps every line whose stripped form has at least three characters, stripped. */
  lemma FallbackKeepsLongLines(lines: seq<string>)
    ensures forall j :: 0 <= j < |lines| && |Strip(lines[j])| >= 3 ==> Strip(lines[j]) in FilterMap(lines, FallbackLine)
  {
    FilterMapOrigins(lines, FallbackLine);
    var o := Origins(lines, FallbackLine);
    var out := FilterMap(lines, FallbackLine);
    forall j | 0 <= j < |lines| && |Strip(lines[j])| >= 3 ensures Strip(lines[j]) in out {
      assert FallbackLine(lines[j]).Some?;
      var k :| 0 <= k < |o| && o[k] == j;
      assert out[k] == Strip(lines[j]);
    }
  }

  /** The fallback keeps nothing but stripped lines of at least three characters. */
  lemma FallbackOnlyLongLines(lines: seq<string>)
    ensures var out := FilterMap(lines, FallbackLine);
      forall k :: 0 <= k < |out| ==> |out[k]| >= 3 && exists j :: 0 <= j < |lines| && out[k] == Strip(lines[j])
  {
    FilterMapOrigins(lines, FallbackLine);
    var o := Origins(lines, FallbackLine);
    var out := FilterMap(lines, FallbackLine);
    forall k | 0 <= k < |out| ensures |out[k]| >= 3 && exists j :: 0 <= j < |lines| && out[k] == Strip(lines[j]) {
      assert FallbackLine(lines[o[k]]) == Some(out[k]);
    }
  }

  /** When neither rule selects a line, the result is every stripped line of length at least 3, in order. */
  lemma FallbackWhenNothingSelected(lines: seq<string>)
    requires forall j :: 0 <= j < |lines| ==> SelectLine(lines[j]).None?
    ensures BulletsOfLines(lines) == FilterMap(lines, FallbackLine)
    ensures var out := BulletsOfLines(lines);
      (forall j :: 0 <= j < |lines| && |Strip(lines[j])| >= 3 ==> Strip(lines[j]) in out) &&
      (forall k :: 0 <= k < |out| ==> |out[k]| >= 3 && exists j :: 0 <= j < |lines| && out[k] == Strip(lines[j]))
  {
    FilterMapNone(lines, SelectLine);
    FallbackKeepsLongLines(lines);
    FallbackOnlyLongLines(lines);
  }

  /** A resume with at least one line of three or more non-blank characters yields a bullet. */
  lemma SomeLineGivesSomeBullet(lines: seq<string>, j: nat)
    requires j < |lines| && |Strip(lines[j])| >= 3
    ensures |BulletsOfLines(lines)| >= 1
  {
    if FilterMap(lines, SelectLine) == [] {
      FilterMapOrigins(lines, FallbackLine);
      assert FallbackLine(lines[j]).Some?;
      assert j in Origins(lines, FallbackLine);
    }
  }
}
