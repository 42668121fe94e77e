/** `CodeEditor` and `SyntaxHighlighter` (editor.py): the keyword rule table
    and the character formats `highlightBlock` assigns to one block of text.
    Which characters the regular expression engine counts as word characters
    is a parameter `isWord`. */
module Editor {
  import opened Common

  /** A keyword: a non-empty word of lower-case ASCII letters. */
  type Keyword = w: string | LowerCase(w) witness "int"

  const Keywords: seq<Keyword> := ["int", "return", "void", "main", "if", "else", "while", "for", "include"]

  /** A character format; only the foreground colour is ever set. */
  datatype Format = Foreground(color: string)

  const KeywordFormat := Foreground("#569CD6")

  /** One highlight rule: the keyword matched as `\bkeyword\b`, and its format. */
  datatype Rule = Rule(keyword: string, format: Format)

  /** The rules built in `SyntaxHighlighter.__init__` (lines 14-22). */
  function Rules(): (r: seq<Rule>)
    ensures |r| == |Keywords|
    ensures forall i :: 0 <= i < |r| ==> r[i].keyword == Keywords[i] && r[i].format == KeywordFormat
  {
    RulesFor(Keywords)
  }

  function RulesFor(keywords: seq<string>): (r: seq<Rule>)
    ensures |r| == |keywords|
    ensures forall i :: 0 <= i < |r| ==> r[i].keyword == keywords[i] && r[i].format == KeywordFormat
  {
    if |keywords| == 0 then [] else [Rule(keywords[0], KeywordFormat)] + RulesFor(keywords[1..])
  }

  datatype CodeEditor = CodeEditor(filePath: Option<string>, rules: seq<Rule>)

  /** `CodeEditor.__init__` (lines 6-11): no file yet, and the keyword rules. */
  function NewCodeEditor(): (e: CodeEditor)
    ensures e.filePath.None?
    ensures |e.rules| == 9
    ensures forall i :: 0 <= i < |e.rules| ==> e.rules[i].format == KeywordFormat
  {
    CodeEditor(None, Rules())
  }

  /** `\b` at position `p`: a word character on exactly one side. */
  predicate Boundary(text: string, p: int, isWord: char -> bool)
  {
    0 <= p <= |text| &&
    ((p > 0 && isWord(text[p - 1])) != (p < |text| && isWord(text[p])))
  }

  /** `\bkw\b` matches `text` at `i`. */
  predicate WholeWordAt(text: string, kw: string, i: int, isWord: char -> bool)
  {
    0 <= i && i + |kw| <= |text| && text[i..i + |kw|] == kw &&
    Boundary(text, i, isWord) && Boundary(text, i + |kw|, isWord)
  }

  /** The regular expression engine treats lower-case ASCII letters as word
      characters, which is all the keywords are made of. */
  predicate LettersAreWordChars(isWord: char -> bool)
  {
    forall c :: 'a' <= c <= 'z' ==> isWord(c)
  }

  predicate AllWordChars(kw: string, isWord: char -> bool)
  {
    forall i :: 0 <= i < |kw| ==> isWord(kw[i])
  }

  /** A non-empty word of lower-case ASCII letters. */
  predicate LowerCase(w: string)
  {
    |w| > 0 && forall i :: 0 <= i < |w| ==> 'a' <= w[i] <= 'z'
  }

  /** Every keyword is non-empty and, when letters are word characters,
      made of word characters only. */
  lemma KeywordsAreWords(isWord: char -> bool)
    ensures forall q :: 0 <= q < |Keywords| ==> |Keywords[q]| > 0
    ensures LettersAreWordChars(isWord) ==> forall q :: 0 <= q < |Keywords| ==> AllWordChars(Keywords[q], isWord)
  {
    forall q | 0 <= q < |Keywords| ensures LowerCase(Keywords[q]) {
      var w: Keyword := Keywords[q];
    }
  }

  /** Inside a run of word characters there is no boundary. */
  lemma NoBoundaryInsideMatch(text: string, kw: string, p: int, j: int, isWord: char -> bool)
    requires WholeWordAt(text, kw, p, isWord) && AllWordChars(kw, isWord)
    requires p < j < p + |kw|
    ensures !WholeWordAt(text, kw, j, isWord)
  {
    assert text[j - 1] == text[p..p + |kw|][j - 1 - p] == kw[j - 1 - p];
    assert text[j] == text[p..p + |kw|][j - p] == kw[j - p];
  }

  /** Every whole-word match starting before `pos` has been recorded. */
  predicate FoundBelow(text: string, kw: string, starts: seq<nat>, pos: int, isWord: char -> bool)
  {
    forall i :: 0 <= i < pos && WholeWordAt(text, kw, i, isWord) ==> i in starts
  }

  /** Recorded starts are matches, in order, with no two overlapping. */
  predicate Recorded(text: string, kw: string, starts: seq<nat>, isWord: char -> bool)
  {
    && (forall k :: 0 <= k < |starts| ==> WholeWordAt(text, kw, starts[k], isWord))
    && (forall k :: 0 < k < |starts| ==> starts[k - 1] + |kw| <= starts[k])
  }

  lemma FoundAfterMatch(text: string, kw: string, starts: seq<nat>, pos: nat, isWord: char -> bool)
    requires AllWordChars(kw, isWord) && WholeWordAt(text, kw, pos, isWord)
    requires FoundBelow(text, kw, starts, pos, isWord)
    ensures FoundBelow(text, kw, starts + [pos], pos + |kw|, isWord)
  {
    forall i | 0 <= i < pos + |kw| && WholeWordAt(text, kw, i, isWord) ensures i in starts + [pos] {
      if i < pos {
        assert i in starts;
      } else if i > pos {
        NoBoundaryInsideMatch(text, kw, pos, i, isWord);
      }
    }
  }

  lemma FoundAfterMiss(text: string, kw: string, starts: seq<nat>, pos: nat, isWord: char -> bool)
    requires !WholeWordAt(text, kw, pos, isWord)
    requires FoundBelow(text, kw, starts, pos, isWord)
    ensures FoundBelow(text, kw, starts, pos + 1, isWord)
  {
  }

  lemma RecordedAppend(text: string, kw: string, starts: seq<nat>, pos: nat, isWord: char -> bool)
    requires Recorded(text, kw, starts, isWord) && WholeWordAt(text, kw, pos, isWord)
    requires |starts| > 0 ==> starts[|starts| - 1] + |kw| <= pos
    ensures Recorded(text, kw, starts + [pos], isWord)
  {
    var r := starts + [pos];
    assert forall k :: 0 <= k < |starts| ==> r[k] == starts[k];
  }

  /** `QRegularExpression.globalMatch(text)` for `\bkw\b`: the start of every
      match, scanning left to right and resuming after each match. */
  method GlobalMatch(text: string, kw: string, isWord: char -> bool) returns (starts: seq<nat>)
    requires |kw| > 0
    ensures forall k :: 0 <= k < |starts| ==> WholeWordAt(text, kw, starts[k], isWord)
    ensures forall k :: 0 < k < |starts| ==> starts[k - 1] + |kw| <= starts[k]
    ensures AllWordChars(kw, isWord) ==>
      forall i :: WholeWordAt(text, kw, i, isWord) ==> i in starts
  {
    starts := [];
    var pos: nat := 0;
    while pos + |kw| <= |text|
      invariant Recorded(text, kw, starts, isWord)
      invariant |starts| > 0 ==> starts[|starts| - 1] + |kw| <= pos
      invariant AllWordChars(kw, isWord) ==> FoundBelow(text, kw, starts, pos, isWord)
      decreases |text| - pos
    {
      if WholeWordAt(text, kw, pos, isWord) {
        RecordedAppend(text, kw, starts, pos, isWord);
        if AllWordChars(kw, isWord) { FoundAfterMatch(text, kw, starts, pos, isWord); }
        starts := starts + [pos];
        pos := pos + |kw|;
      } else {
        if AllWordChars(kw, isWord) { FoundAfterMiss(text, kw, starts, pos, isWord); }
        pos := pos + 1;
      }
    }
    assert forall i :: WholeWordAt(text, kw, i, isWord) ==> i < pos;
  }

  /** A call `setFormat(start, length, format)`. */
  datatype Span = Span(start: nat, length: nat, format: Format)

  /** `setFormat` on a block whose characters carry `fs`; positions past the
      block's end are ignored. */
  function SetFormat(fs: seq<Option<Format>>, sp: Span): (r: seq<Option<Format>>)
    ensures |r| == |fs|
  {
    seq(|fs|, i requires 0 <= i < |fs| =>
      if sp.start <= i < sp.start + sp.length then Some(sp.format) else fs[i])
  }

  /** The formats after a sequence of `setFormat` calls, in order. */
  function Paint(fs: seq<Option<Format>>, spans: seq<Span>): (r: seq<Option<Format>>)
    ensures |r| == |fs|
    decreases |spans|
  {
    if |spans| == 0 then fs else Paint(SetFormat(fs, spans[0]), spans[1..])
  }

  predicate CoveredBy(spans: seq<Span>, i: int)
  {
    exists k :: 0 <= k < |spans| && spans[k].start <= i < spans[k].start + spans[k].length
  }

  lemma CoveredSplit(spans: seq<Span>, i: int)
    requires |spans| > 0
    ensures CoveredBy(spans, i) <==>
      (spans[0].start <= i < spans[0].start + spans[0].length) || CoveredBy(spans[1..], i)
  {
    if CoveredBy(spans[1..], i) {
      var k :| 0 <= k < |spans[1..]| && spans[1..][k].start <= i < spans[1..][k].start + spans[1..][k].length;
      assert spans[k + 1] == spans[1..][k];
    }
    if CoveredBy(spans, i) {
      var k :| 0 <= k < |spans| && spans[k].start <= i < spans[k].start + spans[k].length;
      if k > 0 {
        assert spans[1..][k - 1] == spans[k];
        assert CoveredBy(spans[1..], i);
      }
    }
  }

  /** Painting spans that share one format gives a character that format
      exactly when some span covers it, and leaves the others as they were. */
  lemma {:induction false} PaintUniform(fs: seq<Option<Format>>, spans: seq<Span>, f: Format)
    requires forall k :: 0 <= k < |spans| ==> spans[k].format == f
    ensures forall i :: 0 <= i < |fs| ==>
      Paint(fs, spans)[i] == if CoveredBy(spans, i) then Some(f) else fs[i]
    decreases |spans|
  {
    if |spans| > 0 {
      var next := SetFormat(fs, spans[0]);
      PaintUniform(next, spans[1..], f);
      forall i | 0 <= i < |fs|
        ensures Paint(fs, spans)[i] == if CoveredBy(spans, i) then Some(f) else fs[i]
      {
        CoveredSplit(spans, i);
      }
    }
  }

  /** Some keyword of `keywords` occurs as a whole word over position `i`. */
  predicate Covers(text: string, keywords: seq<string>, i: int, isWord: char -> bool)
  {
    exists k, s :: 0 <= k < |keywords| && WholeWordAt(text, keywords[k], s, isWord) &&
                   s <= i < s + |keywords[k]|
  }

  /** The spans one rule formats: one per match of its keyword. */
  method RuleSpans(text: string, kw: string, isWord: char -> bool) returns (found: seq<Span>)
    requires |kw| > 0
    ensures forall k :: 0 <= k < |found| ==>
      && found[k].format == KeywordFormat
      && found[k].length == |kw|
      && WholeWordAt(text, kw, found[k].start, isWord)
    ensures AllWordChars(kw, isWord) ==>
      forall s :: WholeWordAt(text, kw, s, isWord) ==> s >= 0 && Span(s, |kw|, KeywordFormat) in found
  {
    var starts := GlobalMatch(text, kw, isWord);
    found := seq(|starts|, k requires 0 <= k < |starts| => Span(starts[k], |kw|, KeywordFormat));
    if AllWordChars(kw, isWord) {
      forall s | WholeWordAt(text, kw, s, isWord) ensures s >= 0 && Span(s, |kw|, KeywordFormat) in found {
        var k :| 0 <= k < |starts| && starts[k] == s;
        assert found[k] == Span(s, |kw|, KeywordFormat);
      }
    }
  }

  /** A span that formats a whole-word occurrence of one of `keywords`. */
  predicate KeywordSpan(text: string, keywords: seq<string>, sp: Span, isWord: char -> bool)
  {
    sp.format == KeywordFormat &&
    exists q :: 0 <= q < |keywords| && sp.length == |keywords[q]| && WholeWordAt(text, keywords[q], sp.start, isWord)
  }

  /** The spans `highlightBlock` formats for a rule table over `keywords`,
      rule by rule, match by match. */
  method KeywordSpans(text: string, keywords: seq<string>, isWord: char -> bool) returns (spans: seq<Span>)
    requires forall q :: 0 <= q < |keywords| ==> |keywords[q]| > 0
    ensures forall k :: 0 <= k < |spans| ==> KeywordSpan(text, keywords, spans[k], isWord)
    ensures (forall q :: 0 <= q < |keywords| ==> AllWordChars(keywords[q], isWord)) ==>
      forall r, s :: 0 <= r < |keywords| && WholeWordAt(text, keywords[r], s, isWord) ==>
        s >= 0 && Span(s, |keywords[r]|, KeywordFormat) in spans
  {
    var rules := RulesFor(keywords);
    spans := [];
    var r := 0;
    while r < |rules|
      invariant 0 <= r <= |rules|
      invariant forall k :: 0 <= k < |spans| ==> KeywordSpan(text, keywords, spans[k], isWord)
      invariant (forall q :: 0 <= q < |keywords| ==> AllWordChars(keywords[q], isWord)) ==>
        forall q, s :: 0 <= q < r && WholeWordAt(text, keywords[q], s, isWord) ==>
          s >= 0 && Span(s, |keywords[q]|, KeywordFormat) in spans
    {
      var kw := rules[r].keyword;
      assert kw == keywords[r];
      var found := RuleSpans(text, kw, isWord);
      assert forall k :: 0 <= k < |found| ==> KeywordSpan(text, keywords, found[k], isWord);
      spans := spans + found;
      r := r + 1;
    }
  }

  /** A block after `highlightBlock(text)`: its text, and the format of each
      character (none where no rule applied). */
  datatype Block = Block(text: string, formats: seq<Option<Format>>)

  /** `highlightBlock` with a rule table over `keywords`. */
  method HighlightWith(text: string, keywords: seq<string>, isWord: char -> bool) returns (b: Block)
    requires forall q :: 0 <= q < |keywords| ==> |keywords[q]| > 0
    ensures b.text == text && |b.formats| == |text|
    ensures forall i :: 0 <= i < |text| ==> b.formats[i] == None || b.formats[i] == Some(KeywordFormat)
    ensures forall i :: 0 <= i < |text| && b.formats[i].Some? ==> Covers(text, keywords, i, isWord)
    ensures (forall q :: 0 <= q < |keywords| ==> AllWordChars(keywords[q], isWord)) ==>
      forall i :: 0 <= i < |text| && Covers(text, keywords, i, isWord) ==> b.formats[i] == Some(KeywordFormat)
  {
    var spans := KeywordSpans(text, keywords, isWord);
    var blank := seq(|text|, i => None);
    var formats := Paint(blank, spans);
    PaintUniform(blank, spans, KeywordFormat);
    forall i | 0 <= i < |text| && formats[i].Some? ensures Covers(text, keywords, i, isWord) {
      var k :| 0 <= k < |spans| && spans[k].start <= i < spans[k].start + spans[k].length;
      assert KeywordSpan(text, keywords, spans[k], isWord);
    }
    if forall q :: 0 <= q < |keywords| ==> AllWordChars(keywords[q], isWord) {
      forall i | 0 <= i < |text| && Covers(text, keywords, i, isWord) ensures formats[i] == Some(KeywordFormat) {
        var q, s :| 0 <= q < |keywords| && WholeWordAt(text, keywords[q], s, isWord) && s <= i < s + |keywords[q]|;
        var k :| 0 <= k < |spans| && spans[k] == Span(s, |keywords[q]|, KeywordFormat);
        assert CoveredBy(spans, i);
      }
    }
    b := Block(text, formats);
  }

  /** `highlightBlock(text)` (lines 24-29) with the editor's nine rules: the
      text is untouched, only characters of a whole-word keyword are
      coloured, and, when letters are word characters, all of them are. */
  method HighlightBlock(text: string, isWord: char -> bool) returns (b: Block)
    ensures b.text == text && |b.formats| == |text|
    ensures forall i :: 0 <= i < |text| ==> b.formats[i] == None || b.formats[i] == Some(KeywordFormat)
    ensures forall i :: 0 <= i < |text| && b.formats[i].Some? ==> Covers(text, Keywords, i, isWord)
    ensures LettersAreWordChars(isWord) ==>
      forall i :: 0 <= i < |text| && Covers(text, Keywords, i, isWord) ==> b.formats[i] == Some(KeywordFormat)
  {
    KeywordsAreWords(isWord);
    b := HighlightWith(text, Keywords, isWord);
  }

  /** In a word made only of letters, a whole-word match must be the whole
      word. */
  lemma WholeWordInLetters(t: string, kw: string, s: int, isWord: char -> bool)
    requires LettersAreWordChars(isWord) && LowerCase(t)
    requires |kw| > 0 && WholeWordAt(t, kw, s, isWord)
    ensures kw == t
  {
    forall j | 0 < j < |t| ensures !Boundary(t, j, isWord) {
      assert isWord(t[j - 1]) && isWord(t[j]);
    }
    assert s == 0 && s + |kw| == |t|;
    assert t[0..|t|] == t;
  }

  /** A block holding one lower-case word that is not itself a keyword has
      nothing highlighted: "int" inside "integer" stays plain, because the
      word's only boundaries are at its two ends. */
  lemma NoKeywordInsideWord(t: string, isWord: char -> bool)
    requires LettersAreWordChars(isWord) && LowerCase(t) && t !in Keywords
    ensures forall i :: !Covers(t, Keywords, i, isWord)
  {
    forall i | Covers(t, Keywords, i, isWord) ensures false {
      var q, s :| 0 <= q < |Keywords| && WholeWordAt(t, Keywords[q], s, isWord) && s <= i < s + |Keywords[q]|;
      WholeWordInLetters(t, Keywords[q], s, isWord);
    }
  }
}
