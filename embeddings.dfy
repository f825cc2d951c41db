/** Keyword relevance between a bullet and the job description, splitting the job
    description into candidate excerpts, and mapping bullets to their best excerpt. */
module Embeddings {
  import opened Text
  import opened Values
  import opened Parser

  // ---------------------------------------------------------------------------
  // Keyword relevance (`_calculate_simple_relevance`)

  /** Length of the run of word characters that starts `s`. */
  function RunLength(s: string): (n: nat)
    ensures n <= |s|
    ensures forall i :: 0 <= i < n ==> IsWordChar(s[i])
    ensures n < |s| ==> !IsWordChar(s[n])
  {
    if s != [] && IsWordChar(s[0]) then 1 + RunLength(s[1..]) else 0
  }

  /** `re.findall(r'\b\w+\b', s)`: the maximal runs of word characters, left to right. */
  function Tokens(s: string): (ts: seq<string>)
    decreases |s|
  {
    if s == [] then []
    else if !IsWordChar(s[0]) then Tokens(s[1..])
    else
      var n := RunLength(s);
      [s[..n]] + Tokens(s[n..])
  }

  /** The stop words removed before comparing. */
  const StopWords: set<string> := {
    "the", "a", "an", "and", "or", "but", "in", "on", "at", "to", "for", "of", "with", "by",
    "from", "as", "is", "was", "are", "were", "been", "be", "have", "has", "had", "do",
    "does", "did", "will", "would", "should", "could", "may", "might", "must", "can"}

  predicate IsStopWord(w: string) {
    w in StopWords
  }

  /** The set of lower-cased words of `s`, without stop words. */
  function ContentWords(s: string): set<string> {
    WordSet(Tokens(Lower(s)))
  }

  /** The tokens of `ts` that are not stop words, as a set. */
  function WordSet(ts: seq<string>): set<string> {
    if ts == [] then {} else (if IsStopWord(ts[0]) then {} else {ts[0]}) + WordSet(ts[1..])
  }

  /** A word is a content word of `s` exactly when it is one of its lower-cased tokens
      and not a stop word. */
  lemma ContentWordsMembers(s: string)
    ensures forall t :: t in ContentWords(s) <==> t in Tokens(Lower(s)) && !IsStopWord(t)
  {
    WordSetMembers(Tokens(Lower(s)));
  }

  lemma {:induction false} WordSetMembers(ts: seq<string>)
    ensures forall t :: t in WordSet(ts) <==> t in ts && !IsStopWord(t)
  {
    if ts != [] {
      WordSetMembers(ts[1..]);
      assert ts == [ts[0]] + ts[1..];
    }
  }

  lemma {:induction false} WordSetConcat(a: seq<string>, b: seq<string>)
    ensures WordSet(a + b) == WordSet(a) + WordSet(b)
  {
    if a != [] {
      WordSetConcat(a[1..], b);
      assert (a + b)[1..] == a[1..] + b;
    } else {
      assert a + b == b;
    }
  }

  function Min(x: real, y: real): real {
    if x <= y then x else y
  }

  /** Keyword relevance: twice the Jaccard overlap of the content-word sets, capped at 1,
      and 0.5 when either side has no content word. */
  function Relevance(bullet: string, jdText: string): (r: real)
    ensures 0.0 <= r <= 1.0
  {
    SetScore(ContentWords(bullet), ContentWords(jdText))
  }

  /** The score of two word sets. */
  function SetScore(bulletWords: set<string>, jdWords: set<string>): (r: real)
    ensures 0.0 <= r <= 1.0
  {
    if |bulletWords| == 0 || |jdWords| == 0 then 0.5
    else
      var intersection := |bulletWords * jdWords|;
      var union := |bulletWords + jdWords|;
      if union == 0 then 0.5
      else Min(ScaledJaccard(intersection, union), 1.0)
  }

  /** `(intersection / union) * 2` */
  function ScaledJaccard(intersection: nat, union: nat): (r: real)
    requires union > 0
    ensures r >= 0.0
  {
    (intersection as real / union as real) * 2.0
  }

  lemma {:induction false} RunLengthConcat(a: string, rest: string)
    requires RunLength(a) < |a| || rest == [] || !IsWordChar(rest[0])
    ensures RunLength(a + rest) == RunLength(a)
    decreases |a|
  {
    if a != [] && IsWordChar(a[0]) {
      assert (a + rest)[1..] == a[1..] + rest;
      RunLengthConcat(a[1..], rest);
    }
  }

  /** A non-word character separates tokens: the tokens of `a + [c] + b` are those of `a`
      followed by those of `b`. */
  lemma {:induction false} TokensSeparated(a: string, c: char, b: string)
    requires !IsWordChar(c)
    ensures Tokens(a + [c] + b) == Tokens(a) + Tokens(b)
    decreases |a|
  {
    var s := a + [c] + b;
    if a == [] {
      assert s[1..] == b;
    } else if !IsWordChar(a[0]) {
      assert s[1..] == a[1..] + [c] + b;
      TokensSeparated(a[1..], c, b);
    } else {
      var n := RunLength(a);
      RunLengthConcat(a, [c] + b);
      assert s == a + ([c] + b);
      assert RunLength(s) == n;
      assert s[..n] == a[..n];
      assert s[n..] == a[n..] + [c] + b;
      TokensSeparated(a[n..], c, b);
    }
  }

  /** A lone word of word characters is its own single token. */
  lemma {:induction false} TokensOfWord(w: string)
    requires w != [] && forall i :: 0 <= i < |w| ==> IsWordChar(w[i])
    ensures Tokens(w) == [w]
  {
    RunOfWord(w);
    assert w[..|w|] == w && w[|w|..] == [];
  }

  lemma {:induction false} RunOfWord(w: string)
    requires forall i :: 0 <= i < |w| ==> IsWordChar(w[i])
    ensures RunLength(w) == |w|
    decreases |w|
  {
    if w != [] {
      RunOfWord(w[1..]);
    }
  }

  // ---------------------------------------------------------------------------
  // Properties of the score

  /** With no content word on either side the score is exactly 0.5 (so an empty job
      description scores 0.5, not 0). */
  lemma NoContentScoresHalf(bullet: string, jdText: string)
    requires ContentWords(bullet) == {} || ContentWords(jdText) == {}
    ensures Relevance(bullet, jdText) == 0.5
  {
  }

  lemma EmptyJdScoresHalf(bullet: string)
    ensures Relevance(bullet, "") == 0.5
  {
    assert Lower("") == "";
    assert ContentWords("") == {};
  }

  /** No shared content word gives 0. */
  lemma DisjointScoresZero(bullet: string, jdText: string)
    requires ContentWords(bullet) != {} && ContentWords(jdText) != {}
    requires ContentWords(bullet) * ContentWords(jdText) == {}
    ensures Relevance(bullet, jdText) == 0.0
  {
    DisjointSetsScoreZero(ContentWords(bullet), ContentWords(jdText));
  }

  lemma DisjointSetsScoreZero(b: set<string>, j: set<string>)
    requires b != {} && j != {} && b * j == {}
    ensures SetScore(b, j) == 0.0
  {
    assert |b * j| == 0;
    assert |b + j| > 0 by { var w :| w in b; assert w in b + j; }
  }

  /** Once the shared words make up at least half of all words the score is 1. */
  lemma HalfOverlapScoresOne(bullet: string, jdText: string)
    requires ContentWords(bullet) != {} && ContentWords(jdText) != {}
    requires 2 * |ContentWords(bullet) * ContentWords(jdText)| >= |ContentWords(bullet) + ContentWords(jdText)|
    ensures Relevance(bullet, jdText) == 1.0
  {
    HalfOverlapSetsScoreOne(ContentWords(bullet), ContentWords(jdText));
  }

  lemma HalfOverlapSetsScoreOne(b: set<string>, j: set<string>)
    requires b != {} && j != {} && 2 * |b * j| >= |b + j|
    ensures SetScore(b, j) == 1.0
  {
    assert |b + j| > 0 by { var w :| w in b; assert w in b + j; }
    var i, u := |b * j| as real, |b + j| as real;
    HalfRatio(i, u);
  }

  lemma HalfRatio(i: real, u: real)
    requires u > 0.0 && 2.0 * i >= u
    ensures (i / u) * 2.0 >= 1.0
  {
    var r := i / u;
    assert r * u == i;
  }

  /** Identical non-empty word sets score 1. */
  lemma SameWordsScoreOne(bullet: string, jdText: string)
    requires ContentWords(bullet) == ContentWords(jdText) != {}
    ensures Relevance(bullet, jdText) == 1.0
  {
    var b := ContentWords(bullet);
    assert b * b == b && b + b == b;
    HalfOverlapSetsScoreOne(b, b);
  }

  /** One shared content word is enough for a positive score. */
  lemma SharedWordScoresPositive(bullet: string, jdText: string, w: string)
    requires w in ContentWords(bullet) && w in ContentWords(jdText)
    ensures Relevance(bullet, jdText) > 0.0
  {
    SharedWordSetsScorePositive(ContentWords(bullet), ContentWords(jdText), w);
  }

  lemma SharedWordSetsScorePositive(b: set<string>, j: set<string>, w: string)
    requires w in b && w in j
    ensures SetScore(b, j) > 0.0
  {
    assert w in b * j && w in b + j;
    assert |b * j| > 0 && |b + j| > 0;
  }

  /** The score is symmetric in its two texts. */
  lemma RelevanceSymmetric(a: string, b: string)
    ensures Relevance(a, b) == Relevance(b, a)
  {
    var x, y := ContentWords(a), ContentWords(b);
    assert x * y == y * x && x + y == y + x;
  }

  /** The score ignores letter case. */
  lemma RelevanceIgnoresCase(bullet: string, jdText: string)
    ensures Relevance(Lower(bullet), jdText) == Relevance(bullet, jdText)
    ensures Relevance(bullet, Lower(jdText)) == Relevance(bullet, jdText)
  {
    LowerIdempotent(bullet);
    LowerIdempotent(jdText);
  }

  /** Repeating a text does not change its word set, hence not its score. */
  lemma RepetitionIgnored(s: string)
    ensures ContentWords(s + " " + s) == ContentWords(s)
  {
    LowerConcat(s + " ", s);
    LowerConcat(s, " ");
    assert Lower(" ") == " ";
    TokensSeparated(Lower(s), ' ', Lower(s));
    assert Lower(s + " " + s) == Lower(s) + [' '] + Lower(s);
    WordSetConcat(Tokens(Lower(s)), Tokens(Lower(s)));
  }

  lemma RelevanceIgnoresRepetition(bullet: string, jdText: string)
    ensures Relevance(bullet + " " + bullet, jdText) == Relevance(bullet, jdText)
  {
    RepetitionIgnored(bullet);
  }

  /** Every stop word is a non-empty run of lower-case letters. */
  lemma StopWordIsLowerWord(w: string)
    requires IsStopWord(w)
    ensures w != [] && forall i :: 0 <= i < |w| ==> 'a' <= w[i] <= 'z'
  {
  }

  /** Appending a stop word does not change the word set, hence not the score. */
  lemma StopWordIgnored(s: string, w: string)
    requires IsStopWord(w)
    ensures ContentWords(s + " " + w) == ContentWords(s)
  {
    StopWordIsLowerWord(w);
    assert Lower(w) == w;
    LowerConcat(s + " ", w);
    LowerConcat(s, " ");
    assert Lower(" ") == " ";
    TokensSeparated(Lower(s), ' ', w);
    TokensOfWord(w);
    assert Lower(s + " " + w) == Lower(s) + [' '] + w;
    WordSetConcat(Tokens(Lower(s)), [w]);
    assert WordSet([w]) == {};
  }

  lemma RelevanceIgnoresStopWords(bullet: string, jdText: string, w: string)
    requires IsStopWord(w)
    ensures Relevance(bullet + " " + w, jdText) == Relevance(bullet, jdText)
  {
    StopWordIgnored(bullet, w);
  }

  // ---------------------------------------------------------------------------
  // Job-description excerpts (`_extract_jd_chunks`)

  /** The pieces that, once stripped, are longer than `minLen`, stripped, in order. */
  function LongPieces(pieces: seq<string>, minLen: nat): (r: seq<string>)
    ensures |r| <= |pieces|
  {
    FilterMap(pieces, LongPiece(minLen))
  }

  /** What one piece contributes: its stripped form if that is longer than `minLen`. */
  function LongPiece(minLen: nat): string -> Option<string> {
    piece => if |Strip(piece)| > minLen then Some(Strip(piece)) else None
  }

  /** Sentences: split on '.' after newlines become spaces, longer than 20 characters. */
  function SentenceChunks(jd: string): seq<string> {
    LongPieces(Split(ReplaceChar(jd, '\n', ' '), "."), 20)
  }

  /** Sections: split on blank lines, longer than 30 characters. */
  function SectionChunks(jd: string): seq<string> {
    LongPieces(Split(jd, "\n\n"), 30)
  }

  /** The candidate excerpts: sentences then sections, at most 50. */
  function JdChunks(jd: string): seq<string> {
    Take(SentenceChunks(jd) + SectionChunks(jd), 50)
  }

  /** `_extract_jd_chunks`: the sentence loop, then the section loop, then the first 50. */
  method ExtractJdChunks(jd: string) returns (chunks: seq<string>)
    ensures chunks == JdChunks(jd)
  {
    var sentences := KeepLong(Split(ReplaceChar(jd, '\n', ' '), "."), 20);
    var sections := KeepLong(Split(jd, "\n\n"), 30);
    chunks := Take(sentences + sections, 50);
  }

  /** One loop of `_extract_jd_chunks`: strip each piece, keep it if longer than `minLen`. */
  method KeepLong(pieces: seq<string>, minLen: nat) returns (kept: seq<string>)
    ensures kept == LongPieces(pieces, minLen)
  {
    kept := [];
    for i := 0 to |pieces|
      invariant kept == LongPieces(pieces[..i], minLen)
    {
      assert pieces[..i + 1][..i] == pieces[..i];
      ghost var before := kept;
      var piece := Strip(pieces[i]);
      if |piece| > minLen {
        kept := kept + [piece];
      }
      assert kept == before + OptionToSeq(LongPiece(minLen)(pieces[i]));
    }
    assert pieces[..|pieces|] == pieces;
  }

  /** Every kept piece is stripped and longer than `minLen`. */
  lemma LongPiecesWellFormed(pieces: seq<string>, minLen: nat)
    ensures forall k :: 0 <= k < |LongPieces(pieces, minLen)| ==>
      var p := LongPieces(pieces, minLen)[k]; |p| > minLen && IsStripped(p)
  {
    var o, r := Origins(pieces, LongPiece(minLen)), LongPieces(pieces, minLen);
    LongPiecesExactly(pieces, minLen);
    forall k | 0 <= k < |r| ensures |r[k]| > minLen && IsStripped(r[k]) {
      assert LongPiece(minLen)(pieces[o[k]]) == Some(r[k]);
      StripCharacterised(pieces[o[k]]);
    }
  }

  /** A character that occurs in no piece occurs in no kept piece. */
  lemma LongPiecesAvoid(pieces: seq<string>, minLen: nat, c: char)
    requires forall k :: 0 <= k < |pieces| ==> c !in pieces[k]
    ensures forall k :: 0 <= k < |LongPieces(pieces, minLen)| ==> c !in LongPieces(pieces, minLen)[k]
  {
    var o, r := Origins(pieces, LongPiece(minLen)), LongPieces(pieces, minLen);
    LongPiecesExactly(pieces, minLen);
    forall k | 0 <= k < |r| ensures c !in r[k] {
      assert LongPiece(minLen)(pieces[o[k]]) == Some(r[k]);
      StripChars(pieces[o[k]]);
    }
  }

  /** The kept pieces are exactly the long ones, stripped, in order: each comes from its
      own piece, at increasing positions, and every long piece is among them. */
  lemma LongPiecesExactly(pieces: seq<string>, minLen: nat)
    ensures var o := Origins(pieces, LongPiece(minLen));
      Traces(o, pieces, LongPieces(pieces, minLen), LongPiece(minLen)) &&
      forall j :: 0 <= j < |pieces| && |Strip(pieces[j])| > minLen ==> j in o
  {
    FilterMapOrigins(pieces, LongPiece(minLen));
  }

  /** Every piece whose stripped form is longer than `minLen` is kept, stripped. */
  lemma LongPiecesComplete(pieces: seq<string>, minLen: nat)
    ensures forall k :: 0 <= k < |pieces| && |Strip(pieces[k])| > minLen ==> Strip(pieces[k]) in LongPieces(pieces, minLen)
  {
    var o, r := Origins(pieces, LongPiece(minLen)), LongPieces(pieces, minLen);
    LongPiecesExactly(pieces, minLen);
    forall k | 0 <= k < |pieces| && |Strip(pieces[k])| > minLen ensures Strip(pieces[k]) in r {
      var m :| 0 <= m < |o| && o[m] == k;
      assert LongPiece(minLen)(pieces[k]) == Some(r[m]);
    }
  }

  /** Every sentence and every section of the job description that is long enough once
      stripped becomes an excerpt candidate, and when there are at most 50 candidates
      all of them are kept, sentences first. */
  lemma LongExcerptsKept(jd: string)
    ensures var sentences, sections := Split(ReplaceChar(jd, '\n', ' '), "."), Split(jd, "\n\n");
      (forall k :: 0 <= k < |sentences| && |Strip(sentences[k])| > 20 ==> Strip(sentences[k]) in SentenceChunks(jd)) &&
      (forall k :: 0 <= k < |sections| && |Strip(sections[k])| > 30 ==> Strip(sections[k]) in SectionChunks(jd)) &&
      (|SentenceChunks(jd)| + |SectionChunks(jd)| <= 50 ==> JdChunks(jd) == SentenceChunks(jd) + SectionChunks(jd))
  {
    LongPiecesComplete(Split(ReplaceChar(jd, '\n', ' '), "."), 20);
    LongPiecesComplete(Split(jd, "\n\n"), 30);
  }

  /** Sentence excerpts are stripped, longer than 20 characters, and hold neither '.'
      nor a newline. */
  lemma SentenceChunksShape(jd: string)
    ensures forall k :: 0 <= k < |SentenceChunks(jd)| ==>
      var p := SentenceChunks(jd)[k]; |p| > 20 && IsStripped(p) && '.' !in p && '\n' !in p
  {
    var text := ReplaceChar(jd, '\n', ' ');
    var pieces := Split(text, ".");
    SplitCharPieces(text, '.');
    SplitChars(text, ".");
    assert '\n' !in text by {
      forall i | 0 <= i < |text| ensures text[i] != '\n' { }
    }
    assert forall k :: 0 <= k < |pieces| ==> '\n' !in pieces[k];
    LongPiecesWellFormed(pieces, 20);
    LongPiecesAvoid(pieces, 20, '.');
    LongPiecesAvoid(pieces, 20, '\n');
  }

  /** At most 50 excerpts, each stripped and longer than 20 characters; the sentence
      excerpts come first and hold neither '.' nor a newline, the section excerpts
      after them are longer than 30 characters. */
  lemma JdChunksShape(jd: string)
    ensures var r, s := JdChunks(jd), SentenceChunks(jd);
      |r| <= 50 &&
      (forall k :: 0 <= k < |r| ==> |r[k]| > 20 && IsStripped(r[k])) &&
      (forall k :: 0 <= k < |r| && k < |s| ==> r[k] == s[k] && '.' !in r[k] && '\n' !in r[k]) &&
      (forall k :: |s| <= k < |r| ==> r[k] == SectionChunks(jd)[k - |s|] && |r[k]| > 30)
  {
    var s, t := SentenceChunks(jd), SectionChunks(jd);
    SentenceChunksShape(jd);
    LongPiecesWellFormed(Split(jd, "\n\n"), 30);
    TakeOfConcat(s, t, 50);
  }

  /** The first `n` of `s + t`: the elements of `s`, then those of `t`. */
  lemma TakeOfConcat(s: seq<string>, t: seq<string>, n: nat)
    ensures |Take(s + t, n)| <= n
    ensures forall k :: 0 <= k < |Take(s + t, n)| && k < |s| ==> Take(s + t, n)[k] == s[k]
    ensures forall k :: |s| <= k < |Take(s + t, n)| ==> Take(s + t, n)[k] == t[k - |s|]
  {
  }

  lemma EmptyJdHasNoChunks()
    ensures JdChunks("") == []
  {
    assert ReplaceChar("", '\n', ' ') == "";
    assert Split("", ".") == [""];
    assert Split("", "\n\n") == [""];
    assert Strip("") == "";
    assert [""][..0] == [];
  }

  // ---------------------------------------------------------------------------
  // Mapping bullets to excerpts (`map_bullets_to_jd`)

  /** A (bullet, relevance_score, matched_jd_snippet) triple. */
  datatype Mapping = Mapping(bullet: string, score: real, snippet: string)

  /** The score of every excerpt against the bullet. */
  function ChunkScores(bullet: string, chunks: seq<string>): (scores: seq<real>)
    ensures |scores| == |chunks|
    ensures forall i :: 0 <= i < |chunks| ==> scores[i] == Relevance(bullet, chunks[i])
    ensures forall i :: 0 <= i < |chunks| ==> 0.0 <= scores[i] <= 1.0
  {
    seq(|chunks|, i requires 0 <= i < |chunks| => Relevance(bullet, chunks[i]))
  }

  /** The best (score, chunk) pair after scanning the first `n` chunks with the given
      scores: a chunk replaces the current best only with a strictly higher score,
      starting from (0.0, chunks[0]). */
  function BestSoFar(bullet: string, chunks: seq<string>, scores: seq<real>, n: nat): (m: Mapping)
    requires 0 < |chunks| == |scores| && n <= |chunks|
    ensures m.bullet == bullet
    ensures m.score == 0.0 || exists i :: 0 <= i < n && m.score == scores[i]
  {
    if n == 0 then Mapping(bullet, 0.0, chunks[0])
    else
      var prev := BestSoFar(bullet, chunks, scores, n - 1);
      if scores[n - 1] > prev.score then Mapping(bullet, scores[n - 1], chunks[n - 1]) else prev
  }

  /** With non-negative scores, the best score is the maximum score and the snippet is
      the first chunk attaining it. */
  lemma {:induction false} BestSoFarIsFirstMaximum(bullet: string, chunks: seq<string>, scores: seq<real>, n: nat)
    requires 0 < n <= |chunks| == |scores|
    requires forall i :: 0 <= i < |scores| ==> 0.0 <= scores[i]
    ensures var m := BestSoFar(bullet, chunks, scores, n);
      exists k :: 0 <= k < n && m.snippet == chunks[k] && m.score == scores[k] &&
        (forall j :: 0 <= j < n ==> scores[j] <= m.score) &&
        (forall j :: 0 <= j < k ==> scores[j] < m.score)
  {
    var m := BestSoFar(bullet, chunks, scores, n);
    if n == 1 {
      assert BestSoFar(bullet, chunks, scores, 0) == Mapping(bullet, 0.0, chunks[0]);
      assert m.snippet == chunks[0] && m.score == scores[0];
    } else {
      BestSoFarIsFirstMaximum(bullet, chunks, scores, n - 1);
      var prev := BestSoFar(bullet, chunks, scores, n - 1);
      var k :| 0 <= k < n - 1 && prev.snippet == chunks[k] && prev.score == scores[k] &&
        (forall j :: 0 <= j < n - 1 ==> scores[j] <= prev.score) &&
        (forall j :: 0 <= j < k ==> scores[j] < prev.score);
      if scores[n - 1] > prev.score {
        assert m == Mapping(bullet, scores[n - 1], chunks[n - 1]);
      } else {
        assert m == prev;
        assert 0 <= k < n && m.snippet == chunks[k] && m.score == scores[k];
      }
    }
  }

  /** One more chunk scanned: it replaces the best so far only with a higher score. */
  lemma BestSoFarStep(bullet: string, chunks: seq<string>, scores: seq<real>, i: nat, score: real)
    requires 0 < |chunks| == |scores| && i < |chunks| && score == scores[i]
    ensures var prev := BestSoFar(bullet, chunks, scores, i);
      BestSoFar(bullet, chunks, scores, i + 1) ==
        if score > prev.score then Mapping(bullet, score, chunks[i]) else prev
  {
  }

  /** The inner loop of `map_bullets_to_jd` for one bullet. */
  method BestChunk(bullet: string, chunks: seq<string>) returns (m: Mapping)
    requires chunks != []
    ensures m == BestSoFar(bullet, chunks, ChunkScores(bullet, chunks), |chunks|)
  {
    ghost var scores := ChunkScores(bullet, chunks);
    var bestScore := 0.0;
    var bestChunk := chunks[0];
    for i := 0 to |chunks|
      invariant Mapping(bullet, bestScore, bestChunk) == BestSoFar(bullet, chunks, scores, i)
    {
      var score := Relevance(bullet, chunks[i]);
      BestSoFarStep(bullet, chunks, scores, i, score);
      if score > bestScore {
        bestScore := score;
        bestChunk := chunks[i];
      }
    }
    m := Mapping(bullet, bestScore, bestChunk);
  }

  /** The mapping of one bullet: against the whole job description (snippet = its first
      200 characters) when there is no excerpt, else the best excerpt. */
  function MatchBullet(bullet: string, jd: string, chunks: seq<string>): (m: Mapping)
    ensures m.bullet == bullet && 0.0 <= m.score <= 1.0
  {
    if chunks == [] then Mapping(bullet, Relevance(bullet, jd), Take(jd, 200))
    else BestSoFar(bullet, chunks, ChunkScores(bullet, chunks), |chunks|)
  }

  /** The mappings before sorting, in bullet order. */
  function Unsorted(bullets: seq<string>, jd: string): (ms: seq<Mapping>)
    ensures |ms| == |bullets|
    ensures forall i :: 0 <= i < |bullets| ==> ms[i] == MatchBullet(bullets[i], jd, JdChunks(jd))
  {
    MatchEach(bullets, jd, JdChunks(jd))
  }

  /** One mapping per bullet against the given excerpts, in bullet order. */
  function MatchEach(bullets: seq<string>, jd: string, chunks: seq<string>): seq<Mapping> {
    seq(|bullets|, i requires 0 <= i < |bullets| => MatchBullet(bullets[i], jd, chunks))
  }

  /** Places `m` before the first element whose score is not above its own. */
  function InsertByScore(m: Mapping, sorted: seq<Mapping>): (r: seq<Mapping>)
    ensures |r| == |sorted| + 1
  {
    if sorted == [] || m.score >= sorted[0].score then [m] + sorted
    else [sorted[0]] + InsertByScore(m, sorted[1..])
  }

  /** `list.sort(key=score, reverse=True)`: a stable sort by non-increasing score. */
  function SortByScore(ms: seq<Mapping>): (r: seq<Mapping>)
    ensures |r| == |ms|
  {
    if ms == [] then [] else InsertByScore(ms[0], SortByScore(ms[1..]))
  }

  /** `mappings[:top_k] if top_k else mappings`, including Python's negative slice bound. */
  function Truncate(ms: seq<Mapping>, topK: int): (r: seq<Mapping>)
    ensures |r| <= |ms| && r == ms[..|r|]
  {
    if topK == 0 then ms
    else if topK > 0 then Take(ms, topK)
    else if |ms| + topK > 0 then ms[..|ms| + topK] else []
  }

  /** `map_bullets_to_jd(bullets, jd, top_k)` */
  function MapBullets(bullets: seq<string>, jd: string, topK: int): seq<Mapping> {
    if bullets == [] then [] else Truncate(SortByScore(Unsorted(bullets, jd)), topK)
  }

  /** `map_bullets_to_jd`: score every bullet, sort the mappings in place, truncate. */
  method MapBulletsToJd(bullets: seq<string>, jd: string, topK: int) returns (r: seq<Mapping>)
    ensures r == MapBullets(bullets, jd, topK)
  {
    if bullets == [] {
      return [];
    }
    var chunks := ExtractJdChunks(jd);
    var mappings := MatchAll(bullets, jd, chunks);
    assert mappings == Unsorted(bullets, jd);
    mappings := SortByScore(mappings);
    r := Truncate(mappings, topK);
  }

  /** The scoring part of `map_bullets_to_jd`: one mapping per bullet, in bullet order. */
  method MatchAll(bullets: seq<string>, jd: string, chunks: seq<string>) returns (mappings: seq<Mapping>)
    ensures mappings == MatchEach(bullets, jd, chunks)
  {
    if chunks == [] {
      mappings := seq(|bullets|, i requires 0 <= i < |bullets| => Mapping(bullets[i], Relevance(bullets[i], jd), Take(jd, 200)));
    } else {
      mappings := [];
      for i := 0 to |bullets|
        invariant |mappings| == i
        invariant forall j :: 0 <= j < i ==> mappings[j] == MatchBullet(bullets[j], jd, chunks)
      {
        var best := BestChunk(bullets[i], chunks);
        mappings := mappings + [best];
      }
    }
  }

  // ---------------------------------------------------------------------------
  // Properties of the sort and the mapping

  predicate NonIncreasing(ms: seq<Mapping>) {
    forall i, j :: 0 <= i < j < |ms| ==> ms[i].score >= ms[j].score
  }

  /** The elements with score `x`, in order. */
  function WithScore(ms: seq<Mapping>, x: real): seq<Mapping> {
    if ms == [] then [] else Matching(ms[0], x) + WithScore(ms[1..], x)
  }

  function Matching(m: Mapping, x: real): seq<Mapping> {
    if m.score == x then [m] else []
  }

  function BulletsOf(ms: seq<Mapping>): (bs: seq<string>)
    ensures |bs| == |ms| && forall i :: 0 <= i < |ms| ==> bs[i] == ms[i].bullet
  {
    seq(|ms|, i requires 0 <= i < |ms| => ms[i].bullet)
  }

  lemma {:induction false} InsertMultiset(m: Mapping, sorted: seq<Mapping>)
    ensures multiset(InsertByScore(m, sorted)) == multiset{m} + multiset(sorted)
  {
    if !(sorted == [] || m.score >= sorted[0].score) {
      InsertMultiset(m, sorted[1..]);
      assert sorted == [sorted[0]] + sorted[1..];
    }
  }

  lemma {:induction false} InsertBullets(m: Mapping, sorted: seq<Mapping>)
    ensures multiset(BulletsOf(InsertByScore(m, sorted))) == multiset{m.bullet} + multiset(BulletsOf(sorted))
  {
    var r := InsertByScore(m, sorted);
    if sorted == [] || m.score >= sorted[0].score {
      assert BulletsOf(r) == [m.bullet] + BulletsOf(sorted);
    } else {
      var tail := sorted[1..];
      InsertBullets(m, tail);
      var t := InsertByScore(m, tail);
      assert BulletsOf(r) == [sorted[0].bullet] + BulletsOf(t);
      assert BulletsOf(sorted) == [sorted[0].bullet] + BulletsOf(tail);
    }
  }

  lemma {:induction false} InsertStable(m: Mapping, sorted: seq<Mapping>, x: real)
    ensures WithScore(InsertByScore(m, sorted), x) == Matching(m, x) + WithScore(sorted, x)
  {
    var r := InsertByScore(m, sorted);
    if sorted == [] || m.score >= sorted[0].score {
      assert r[0] == m && r[1..] == sorted;
      assert WithScore(r, x) == Matching(m, x) + WithScore(sorted, x);
    } else {
      var tail := sorted[1..];
      var t := InsertByScore(m, tail);
      InsertStable(m, tail, x);
      assert r[0] == sorted[0] && r[1..] == t;
      assert WithScore(r, x) == Matching(sorted[0], x) + WithScore(t, x);
      assert WithScore(sorted, x) == Matching(sorted[0], x) + WithScore(tail, x);
      assert Matching(sorted[0], x) == [] || Matching(m, x) == [];
    }
  }

  lemma {:induction false} InsertSorted(m: Mapping, sorted: seq<Mapping>)
    requires NonIncreasing(sorted)
    ensures NonIncreasing(InsertByScore(m, sorted))
  {
    var r := InsertByScore(m, sorted);
    if sorted == [] || m.score >= sorted[0].score {
      assert r == [m] + sorted;
    } else {
      var tail := sorted[1..];
      InsertSorted(m, tail);
      InsertMultiset(m, tail);
      var t := InsertByScore(m, tail);
      assert r == [sorted[0]] + t;
      forall j | 0 <= j < |t| ensures sorted[0].score >= t[j].score {
        assert t[j] in multiset(t);
        assert t[j] == m || t[j] in multiset(tail);
      }
    }
  }

  lemma {:induction false} SortSorted(ms: seq<Mapping>)
    ensures NonIncreasing(SortByScore(ms))
  {
    if ms != [] {
      SortSorted(ms[1..]);
      InsertSorted(ms[0], SortByScore(ms[1..]));
    }
  }

  lemma {:induction false} SortPermutes(ms: seq<Mapping>)
    ensures multiset(SortByScore(ms)) == multiset(ms)
  {
    if ms != [] {
      SortPermutes(ms[1..]);
      InsertMultiset(ms[0], SortByScore(ms[1..]));
      assert ms == [ms[0]] + ms[1..];
    }
  }

  lemma {:induction false} SortKeepsBullets(ms: seq<Mapping>)
    ensures multiset(BulletsOf(SortByScore(ms))) == multiset(BulletsOf(ms))
  {
    if ms != [] {
      SortKeepsBullets(ms[1..]);
      InsertBullets(ms[0], SortByScore(ms[1..]));
      assert BulletsOf(ms) == [ms[0].bullet] + BulletsOf(ms[1..]);
    }
  }

  lemma {:induction false} SortStable(ms: seq<Mapping>, x: real)
    ensures WithScore(SortByScore(ms), x) == WithScore(ms, x)
  {
    if ms != [] {
      SortStable(ms[1..], x);
      InsertStable(ms[0], SortByScore(ms[1..]), x);
    }
  }

  /** The sort puts scores in non-increasing order, is a permutation, and is stable:
      for every score, the elements with that score keep their relative order. */
  lemma SortProperties(ms: seq<Mapping>)
    ensures NonIncreasing(SortByScore(ms))
    ensures multiset(SortByScore(ms)) == multiset(ms)
    ensures multiset(BulletsOf(SortByScore(ms))) == multiset(BulletsOf(ms))
    ensures forall x :: WithScore(SortByScore(ms), x) == WithScore(ms, x)
  {
    SortSorted(ms);
    SortPermutes(ms);
    SortKeepsBullets(ms);
    forall x ensures WithScore(SortByScore(ms), x) == WithScore(ms, x) {
      SortStable(ms, x);
    }
  }

  /** `top_k` 0 or at least the length keeps every mapping. */
  lemma KeepAll(ms: seq<Mapping>, topK: int)
    requires topK == 0 || topK >= |ms|
    ensures Truncate(ms, topK) == ms
  {
  }

  /** With `top_k` 0 or at least the number of bullets, every bullet gets exactly one
      mapping: the result is a permutation of the bullets, sorted by non-increasing score,
      with equal scores kept in bullet order. */
  lemma MapAllBullets(bullets: seq<string>, jd: string, topK: int)
    requires topK == 0 || topK >= |bullets|
    ensures var r := MapBullets(bullets, jd, topK);
      |r| == |bullets| &&
      multiset(BulletsOf(r)) == multiset(bullets) &&
      NonIncreasing(r) &&
      multiset(r) == multiset(Unsorted(bullets, jd)) &&
      forall x :: WithScore(r, x) == WithScore(Unsorted(bullets, jd), x)
  {
    if bullets != [] {
      var u := Unsorted(bullets, jd);
      SortProperties(u);
      KeepAll(SortByScore(u), topK);
      assert BulletsOf(u) == bullets;
    }
  }

  /** With a positive `top_k`, only the `top_k` best-scoring mappings are kept. */
  lemma MapTopK(bullets: seq<string>, jd: string, topK: int)
    requires topK > 0
    ensures var r := MapBullets(bullets, jd, topK);
      |r| == (if topK < |bullets| then topK else |bullets|) &&
      NonIncreasing(r) &&
      (bullets != [] ==> r == SortByScore(Unsorted(bullets, jd))[..|r|])
  {
    if bullets != [] {
      SortProperties(Unsorted(bullets, jd));
    }
  }

  /** Each mapping's score lies in [0, 1] and is the best its bullet achieves: the maximum
      chunk score with the first chunk attaining it, or the score against the whole job
      description with its first 200 characters when there is no chunk. */
  lemma MatchBulletIsBest(bullet: string, jd: string)
    ensures var m, chunks := MatchBullet(bullet, jd, JdChunks(jd)), JdChunks(jd);
      0.0 <= m.score <= 1.0 &&
      (chunks == [] ==> m.score == Relevance(bullet, jd) && m.snippet == Take(jd, 200)) &&
      (chunks != [] ==>
        exists k :: 0 <= k < |chunks| && m.snippet == chunks[k] && m.score == Relevance(bullet, chunks[k]) &&
          (forall j :: 0 <= j < |chunks| ==> Relevance(bullet, chunks[j]) <= m.score) &&
          (forall j :: 0 <= j < k ==> Relevance(bullet, chunks[j]) < m.score))
  {
    var chunks := JdChunks(jd);
    if chunks != [] {
      BestSoFarIsFirstMaximum(bullet, chunks, ChunkScores(bullet, chunks), |chunks|);
    }
  }

  /** Every score in the result of `map_bullets_to_jd` lies in [0, 1]. */
  lemma MapScoresBounded(bullets: seq<string>, jd: string, topK: int)
    ensures forall m :: m in MapBullets(bullets, jd, topK) ==> 0.0 <= m.score <= 1.0
  {
    if bullets != [] {
      var u := Unsorted(bullets, jd);
      SortProperties(u);
      var s := SortByScore(u);
      forall m | m in MapBullets(bullets, jd, topK) ensures 0.0 <= m.score <= 1.0 {
        assert m in s;
        assert m in multiset(u);
      }
    }
  }

  /** An empty job description gives every bullet the score 0.5 and the empty snippet. */
  lemma EmptyJdMapping(bullets: seq<string>, topK: int)
    ensures forall m :: m in MapBullets(bullets, "", topK) ==> m.score == 0.5 && m.snippet == ""
  {
    if bullets != [] {
      EmptyJdHasNoChunks();
      var u := Unsorted(bullets, "");
      forall i | 0 <= i < |u| ensures u[i].score == 0.5 && u[i].snippet == "" {
        EmptyJdScoresHalf(bullets[i]);
      }
      SortProperties(u);
      var s := SortByScore(u);
      forall m | m in MapBullets(bullets, "", topK) ensures m.score == 0.5 && m.snippet == "" {
        assert m in s;
        assert m in multiset(u);
      }
    }
  }
}
