/**
 * The two text checks of the pipeline's validation tests
 * (tests/test_integration.py): `has_copied_text`, which flags a summary
 * that repeats `min_length` consecutive words of the original, and the
 * extraction of `[Source: ...]` citation tags with
 * `re.findall(r'\[Source: ([^\]]+)\]', text)`.
 */
module TextChecks {
  import opened Common

  /** Python's `str.isspace` on one character: the separators `str.split()` splits on. */
  predicate IsSpace(c: char)
  {
    var n := c as int;
    (9 <= n <= 13) || (28 <= n <= 32) || n == 0x85 || n == 0xA0 || n == 0x1680
    || (0x2000 <= n <= 0x200A) || n == 0x2028 || n == 0x2029 || n == 0x202F
    || n == 0x205F || n == 0x3000
  }

  /** A string without any whitespace. */
  predicate NoSpace(w: string)
  {
    forall k :: 0 <= k < |w| ==> !IsSpace(w[k])
  }

  /** Words that `split()` would return as they are: each non-empty and without whitespace. */
  predicate PlainWords(ws: seq<string>)
  {
    ws == [] || (ws[0] != [] && NoSpace(ws[0]) && PlainWords(ws[1..]))
  }

  /** Lower-casing one character (ASCII letters only). */
  function LowerChar(c: char): (d: char)
    ensures 'A' <= c <= 'Z' ==> d as int == c as int + 32
    ensures !('A' <= c <= 'Z') ==> d == c
    ensures IsSpace(d) <==> IsSpace(c)
  {
    if 'A' <= c <= 'Z' then (c as int + 32) as char else c
  }

  /** `s.lower()`, character by character. */
  function Lower(s: string): (r: string)
    ensures |r| == |s|
    ensures forall k :: 0 <= k < |s| ==> r[k] == LowerChar(s[k])
  {
    seq(|s|, k requires 0 <= k < |s| => LowerChar(s[k]))
  }

  /** Lower-casing twice changes nothing more than lower-casing once. */
  lemma LowerIdempotent(s: string)
    ensures Lower(Lower(s)) == Lower(s)
  {
    assert forall k :: 0 <= k < |s| ==> Lower(Lower(s))[k] == Lower(s)[k];
  }

  /** Lower-casing works piecewise. */
  lemma LowerConcat(a: string, b: string)
    ensures Lower(a + b) == Lower(a) + Lower(b)
  {
    assert forall k :: 0 <= k < |a + b| ==> Lower(a + b)[k] == (Lower(a) + Lower(b))[k];
  }

  /** Each word lower-cased. */
  function LowerWords(ws: seq<string>): (r: seq<string>)
    ensures |r| == |ws|
    ensures forall k :: 0 <= k < |ws| ==> r[k] == Lower(ws[k])
  {
    seq(|ws|, k requires 0 <= k < |ws| => Lower(ws[k]))
  }

  /** The suffix of `s` that starts at its first non-whitespace character. */
  function DropSpaces(s: string): (r: string)
    ensures |r| <= |s| && r == s[|s| - |r|..]
    ensures r == [] || !IsSpace(r[0])
    ensures forall k :: 0 <= k < |s| - |r| ==> IsSpace(s[k])
  {
    if s == [] || !IsSpace(s[0]) then s else DropSpaces(s[1..])
  }

  /** The longest prefix of `s` without whitespace. */
  function TakeWord(s: string): (w: string)
    ensures w <= s && NoSpace(w)
    ensures |w| == |s| || IsSpace(s[|w|])
    ensures s != [] && !IsSpace(s[0]) ==> w != []
  {
    if s == [] || IsSpace(s[0]) then [] else [s[0]] + TakeWord(s[1..])
  }

  /** `s.split()`: the maximal runs of non-whitespace characters, in order. */
  function Words(s: string): (ws: seq<string>)
    ensures PlainWords(ws)
    decreases |s|
  {
    var t := DropSpaces(s);
    if t == [] then []
    else
      var w := TakeWord(t);
      var rest := Words(t[|w|..]);
      assert ([w] + rest)[1..] == rest;
      [w] + rest
  }

  /** `' '.join(ws)`. */
  function Join(ws: seq<string>): string
  {
    if ws == [] then ""
    else if |ws| == 1 then ws[0]
    else ws[0] + " " + Join(ws[1..])
  }

  /** Leading whitespace does not change the words. */
  lemma WordsAfterSpace(x: string)
    ensures Words(" " + x) == Words(x)
  {
    assert (" " + x)[1..] == x;
  }

  /** Leading whitespace of any kind does not change the words. */
  lemma WordsAfterSeparator(c: char, x: string)
    requires IsSpace(c)
    ensures Words([c] + x) == Words(x)
  {
    assert ([c] + x)[1..] == x;
  }

  /** A word ends at the first whitespace character. */
  lemma {:induction false} TakeWordBeforeSeparator(x: string, c: char, y: string)
    requires IsSpace(c)
    ensures TakeWord(x + [c] + y) == TakeWord(x)
  {
    if x != [] && !IsSpace(x[0]) {
      assert (x + [c] + y)[1..] == x[1..] + [c] + y;
      TakeWordBeforeSeparator(x[1..], c, y);
    }
  }

  /**
   * `split()` splits at every whitespace character: the words of a text
   * with a separator in it are the words before the separator followed by
   * the words after it. With `WordsOfWord` and `Words("") == []` this
   * determines the words of every text.
   */
  lemma {:induction false} WordsSplitAt(x: string, c: char, y: string)
    requires IsSpace(c)
    ensures Words(x + [c] + y) == Words(x) + Words(y)
    decreases |x|
  {
    if x == [] {
      assert x + [c] + y == [c] + y;
      WordsAfterSeparator(c, y);
    } else if IsSpace(x[0]) {
      WordsSplitAt(x[1..], c, y);
      WordsSplitSpace(x, c, y);
    } else {
      var w := TakeWord(x);
      WordsSplitAt(x[|w|..], c, y);
      WordsSplitWord(x, c, y);
    }
  }

  /** The step of `WordsSplitAt` for a text that starts with whitespace. */
  lemma WordsSplitSpace(x: string, c: char, y: string)
    requires IsSpace(c) && x != [] && IsSpace(x[0])
    requires Words(x[1..] + [c] + y) == Words(x[1..]) + Words(y)
    ensures Words(x + [c] + y) == Words(x) + Words(y)
  {
    SplitHead(x, c, y);
    WordsAfterSeparator(x[0], x[1..] + [c] + y);
    WordsAfterSeparator(x[0], x[1..]);
  }

  /** The step of `WordsSplitAt` for a text that starts with a word. */
  lemma WordsSplitWord(x: string, c: char, y: string)
    requires IsSpace(c) && x != [] && !IsSpace(x[0])
    requires Words(x[|TakeWord(x)|..] + [c] + y) == Words(x[|TakeWord(x)|..]) + Words(y)
    ensures Words(x + [c] + y) == Words(x) + Words(y)
  {
    var s := x + [c] + y;
    var w := TakeWord(x);
    SplitHead(x, c, y);
    TakeWordBeforeSeparator(x, c, y);
    SplitAfter(x, c, y, |w|);
    WordsOfWordStart(x);
    WordsOfWordStart(s);
    var a, b := Words(x[|w|..]), Words(y);
    calc {
      Words(s);
      [w] + Words(x[|w|..] + [c] + y);
      [w] + (a + b);
      { ConcatAssoc([w], a, b); }
      ([w] + a) + b;
      Words(x) + Words(y);
    }
  }


  /** Taking the first character off a text with a separator in it. */
  lemma SplitHead(x: string, c: char, y: string)
    requires x != []
    ensures x == [x[0]] + x[1..]
    ensures x + [c] + y == [x[0]] + (x[1..] + [c] + y)
    ensures (x + [c] + y)[0] == x[0]
  {
  }

  /** Dropping a prefix of the part before a separator. */
  lemma SplitAfter(x: string, c: char, y: string, n: nat)
    requires n <= |x|
    ensures (x + [c] + y)[n..] == x[n..] + [c] + y
  {
  }

  /** The words of a text that starts with a word: that word, then the words of the rest. */
  lemma WordsOfWordStart(s: string)
    requires s != [] && !IsSpace(s[0])
    ensures Words(s) == [TakeWord(s)] + Words(s[|TakeWord(s)|..])
  {
    assert DropSpaces(s) == s;
  }

  /**
   * Splitting undoes joining, for words that are non-empty and hold no
   * whitespace.
   */
  lemma {:induction false} WordsOfJoin(ws: seq<string>)
    requires PlainWords(ws)
    ensures Words(Join(ws)) == ws
  {
    if |ws| == 1 {
      WordsOfWord(ws[0]);
    } else if |ws| > 1 {
      WordsOfJoin(ws[1..]);
      WordsOfJoinStep(ws);
    }
  }

  /** Splitting undoes joining for a list of plain words whose tail it undoes. */
  lemma WordsOfJoinStep(ws: seq<string>)
    requires |ws| > 1 && PlainWords(ws)
    requires Words(Join(ws[1..])) == ws[1..]
    ensures Words(Join(ws)) == ws
  {
    var w := ws[0];
    var tail := ws[1..];
    var rest := Join(tail);
    assert Join(ws) == w + (" " + rest) by {
      assert Join(ws) == w + " " + rest;
    }
    JoinStart(tail);
    WordsOfWordThen(w, rest);
    assert ws == [w] + tail;
  }

  /** A joined list of plain words starts with its first word's first character. */
  lemma JoinStart(ws: seq<string>)
    requires ws != [] && PlainWords(ws)
    ensures Join(ws) != [] && Join(ws)[0] == ws[0][0]
  {
  }

  /** The words of a single word. */
  lemma WordsOfWord(w: string)
    requires w != [] && NoSpace(w)
    ensures Words(w) == [w]
  {
    TakeWhole(w);
    assert DropSpaces(w) == w;
    assert w[|w|..] == [];
  }

  /** The words of a word, a space and a text that starts with a word. */
  lemma WordsOfWordThen(w: string, rest: string)
    requires w != [] && NoSpace(w)
    requires rest != [] && !IsSpace(rest[0])
    ensures Words(w + (" " + rest)) == [w] + Words(rest)
  {
    var s := w + (" " + rest);
    assert s[0] == w[0];
    assert DropSpaces(s) == s;
    TakeUntilSpace(w, rest);
    assert s[|w|..] == " " + rest;
    WordsAfterSpace(rest);
  }

  /** A word without whitespace is taken whole. */
  lemma {:induction false} TakeWhole(w: string)
    requires NoSpace(w)
    ensures TakeWord(w) == w
  {
    if w != [] {
      TakeWhole(w[1..]);
    }
  }

  /** A word followed by a space is taken up to the space. */
  lemma {:induction false} TakeUntilSpace(w: string, rest: string)
    requires NoSpace(w)
    ensures TakeWord(w + (" " + rest)) == w
  {
    if w != [] {
      assert (w + (" " + rest))[1..] == w[1..] + (" " + rest);
      TakeUntilSpace(w[1..], rest);
    }
  }

  /** Lower-casing a joined text lower-cases each of its words. */
  lemma {:induction false} LowerJoin(ws: seq<string>)
    ensures Lower(Join(ws)) == Join(LowerWords(ws))
  {
    var lws := LowerWords(ws);
    if |ws| > 1 {
      LowerJoin(ws[1..]);
      assert lws[1..] == LowerWords(ws[1..]);
      LowerConcat(ws[0] + " ", Join(ws[1..]));
      LowerConcat(ws[0], " ");
    }
  }

  /** The words of `ws` from position `i`, `n` of them, joined with single spaces. */
  function Window(ws: seq<string>, i: nat, n: nat): string
    requires i + n <= |ws|
  {
    Join(ws[i..i + n])
  }

  /**
   * What `has_copied_text(original, summary, min_length)` decides: some run
   * of `min_length` consecutive words of the lower-cased summary, joined
   * with single spaces, occurs in the lower-cased original.
   */
  predicate Copied(original: string, summary: string, minLength: nat)
  {
    var ws := Words(Lower(summary));
    exists i: nat :: i + minLength <= |ws| && Contains(Lower(original), Window(ws, i, minLength))
  }

  /** No window of `n` words starting before `i` occurs in `lowered`. */
  predicate NoneCopiedBefore(lowered: string, ws: seq<string>, n: nat, i: nat)
  {
    forall k: nat :: k < i && k + n <= |ws| ==> !Contains(lowered, Window(ws, k, n))
  }

  /** A window found absent extends the windows known to be absent by one. */
  lemma NoneCopiedStep(lowered: string, ws: seq<string>, n: nat, i: nat)
    requires NoneCopiedBefore(lowered, ws, n, i)
    requires i + n <= |ws| && !Contains(lowered, Window(ws, i, n))
    ensures NoneCopiedBefore(lowered, ws, n, i + 1)
  {
  }

  /**
   * `has_copied_text`: tries every window of `min_length` summary words,
   * left to right, and answers as soon as one occurs in the original.
   */
  method HasCopiedText(original: string, summary: string, minLength: nat := 10) returns (copied: bool)
    ensures copied == Copied(original, summary, minLength)
  {
    var wordsSumm := Words(Lower(summary));
    var lowered := Lower(original);
    var i: nat := 0;
    while i < |wordsSumm| - minLength + 1
      invariant NoneCopiedBefore(lowered, wordsSumm, minLength, i)
    {
      var sequence := Join(wordsSumm[i..i + minLength]);
      assert sequence == Window(wordsSumm, i, minLength);
      if Contains(lowered, sequence) {
        return true;
      }
      NoneCopiedStep(lowered, wordsSumm, minLength, i);
      i := i + 1;
    }
    return false;
  }

  /** A summary with fewer words than the window is never flagged. */
  lemma ShortSummaryNotFlagged(original: string, summary: string, minLength: nat)
    requires |Words(Lower(summary))| < minLength
    ensures !Copied(original, summary, minLength)
  {
  }

  /** The check ignores letter case in both texts. */
  lemma CaseInsensitive(original: string, summary: string, minLength: nat)
    ensures Copied(original, summary, minLength) == Copied(Lower(original), Lower(summary), minLength)
  {
    LowerIdempotent(original);
    LowerIdempotent(summary);
  }

  /** With an empty window every summary is flagged: the empty phrase occurs everywhere. */
  lemma EmptyWindowFlagsAll(original: string, summary: string)
    ensures Copied(original, summary, 0)
  {
    var ws := Words(Lower(summary));
    assert Window(ws, 0, 0) <= Lower(original)[0..];
  }

  /** The text of a prefix of the words is a prefix of the joined text. */
  lemma {:induction false} JoinPrefix(ws: seq<string>, m: nat)
    requires 1 <= m <= |ws|
    ensures Join(ws[..m]) <= Join(ws)
  {
    if m == |ws| {
      assert ws[..m] == ws;
    } else if m > 1 {
      JoinPrefix(ws[1..], m - 1);
      assert ws[..m][1..] == ws[1..][..m - 1];
    }
  }

  /** A summary flagged with some window is also flagged with any shorter non-empty window. */
  lemma ShorterWindowFlagged(original: string, summary: string, n: nat, m: nat)
    requires Copied(original, summary, n)
    requires 1 <= m <= n
    ensures Copied(original, summary, m)
  {
    var ws := Words(Lower(summary));
    var lo := Lower(original);
    var i: nat :| i + n <= |ws| && Contains(lo, Window(ws, i, n));
    WindowPrefix(ws, i, n, m);
    ContainsPrefix(lo, Window(ws, i, n), Window(ws, i, m));
  }

  /** A shorter window at the same position is a prefix of the longer one. */
  lemma WindowPrefix(ws: seq<string>, i: nat, n: nat, m: nat)
    requires i + n <= |ws| && 1 <= m <= n
    ensures Window(ws, i, m) <= Window(ws, i, n)
  {
    JoinPrefix(ws[i..i + n], m);
    assert ws[i..i + n][..m] == ws[i..i + m];
  }

  /** The words of the original text of the transformativeness test. */
  const OriginalWords: seq<string> :=
    ["The", "quick", "brown", "fox", "jumps", "over", "the", "lazy", "dog", "repeatedly."]

  /** The words of the paraphrasing summary of the test. */
  const ParaphraseWords: seq<string> := ["A", "brown", "fox", "jumped", "over", "a", "dog."]

  /** The words of the copying summary of the test: the original's first nine words. */
  const CopyWords: seq<string> := ["The", "quick", "brown", "fox", "jumps", "over", "the", "lazy", "dog"]

  /** Lower-cased words keep being plain words. */
  lemma {:induction false} LowerPlain(ws: seq<string>)
    requires PlainWords(ws)
    ensures PlainWords(LowerWords(ws))
  {
    if ws != [] {
      LowerPlain(ws[1..]);
      assert LowerWords(ws)[1..] == LowerWords(ws[1..]);
    }
  }

  /** The summary words of a text made of plain words: its lower-cased words. */
  lemma WordsOfLowerJoin(ws: seq<string>)
    requires PlainWords(ws)
    ensures Words(Lower(Join(ws))) == LowerWords(ws)
  {
    LowerJoin(ws);
    LowerPlain(ws);
    WordsOfJoin(LowerWords(ws));
  }

  /** Plain words, checked word by word. */
  lemma {:induction false} PlainWordsAll(ws: seq<string>)
    requires forall k :: 0 <= k < |ws| ==> ws[k] != [] && NoSpace(ws[k])
    ensures PlainWords(ws)
  {
    if ws != [] {
      PlainWordsAll(ws[1..]);
    }
  }

  /** The seven-word paraphrase is not flagged with the default window of ten words. */
  lemma ParaphraseNotFlagged()
    ensures !Copied(Join(OriginalWords), Join(ParaphraseWords), 10)
  {
    PlainWordsAll(ParaphraseWords);
    WordsOfLowerJoin(ParaphraseWords);
  }

  /**
   * The nine-word copy is not flagged with the default window of ten words,
   * since it has fewer than ten words.
   */
  lemma NineWordCopyNotFlagged()
    ensures !Copied(Join(OriginalWords), Join(CopyWords), 10)
  {
    PlainWordsAll(CopyWords);
    WordsOfLowerJoin(CopyWords);
  }

  /**
   * A summary made of the first words of the original, at least one, is
   * flagged with a window as long as the summary.
   */
  lemma LeadingCopyFlagged(orig: seq<string>, copy: seq<string>)
    requires PlainWords(copy) && copy != [] && copy <= orig
    ensures Copied(Join(orig), Join(copy), |copy|)
  {
    var n := |copy|;
    var lc := LowerWords(copy);
    WordsOfLowerJoin(copy);
    LowerPrefixOfLower(orig, copy);
    assert lc[0..0 + n] == lc;
    ContainsAtStart(Lower(Join(orig)), Join(lc));
    CopiedAt(Join(orig), Join(copy), n, 0);
  }

  /** The lower-cased words of a leading part of a text start its lower-cased text. */
  lemma LowerPrefixOfLower(orig: seq<string>, copy: seq<string>)
    requires copy != [] && copy <= orig
    ensures Join(LowerWords(copy)) <= Lower(Join(orig))
  {
    LowerJoin(orig);
    assert LowerWords(orig)[..|copy|] == LowerWords(copy);
    JoinPrefix(LowerWords(orig), |copy|);
  }

  /** A window found in the original is a witness of copying. */
  lemma CopiedAt(original: string, summary: string, n: nat, i: nat)
    requires i + n <= |Words(Lower(summary))|
    requires Contains(Lower(original), Window(Words(Lower(summary)), i, n))
    ensures Copied(original, summary, n)
  {
  }

  /** A window of nine words flags the nine-word copy. */
  lemma NineWordCopyFlaggedAtNine()
    ensures Copied(Join(OriginalWords), Join(CopyWords), 9)
  {
    PlainWordsAll(CopyWords);
    assert CopyWords <= OriginalWords;
    LeadingCopyFlagged(OriginalWords, CopyWords);
  }

  /** The opening of a citation tag. */
  const TagOpen: string := "[Source: "

  /** The number of characters in `TagOpen`. */
  const TagOpenLength: nat := 9

  /** `TagOpenLength` is the length of the opening of a tag. */
  lemma TagOpenLengthOk()
    ensures |TagOpen| == TagOpenLength
  {
  }

  /** A citation tag naming `c`. */
  function Tag(c: string): string
  {
    TagOpen + c + "]"
  }

  /** The position of the first `]` in `s` at or after `from`, or `|s|` when there is none. */
  function FirstClose(s: string, from: nat): (j: nat)
    requires from <= |s|
    ensures from <= j <= |s|
    ensures forall k :: from <= k < j ==> s[k] != ']'
    ensures j < |s| ==> s[j] == ']'
    decreases |s| - from
  {
    if from == |s| || s[from] == ']' then from else FirstClose(s, from + 1)
  }

  /**
   * `re.findall(r'\[Source: ([^\]]+)\]', s)`: scanning left to right, a
   * match starts at a `[Source: ` followed by at least one character other
   * than `]` and then a `]`; its group is the text in between, and the scan
   * resumes after the `]`. Where no match starts, the scan moves on by one
   * character.
   */
  function Citations(s: string): (cs: seq<string>)
    ensures forall k :: 0 <= k < |cs| ==> cs[k] != [] && ']' !in cs[k]
    decreases |s|
  {
    if s == [] then []
    else if TagOpen <= s && TagOpenLength < FirstClose(s, TagOpenLength) < |s| then
      var j := FirstClose(s, TagOpenLength);
      [s[TagOpenLength..j]] + Citations(s[j + 1..])
    else
      Citations(s[1..])
  }

  /** Every extracted citation comes from a whole tag `[Source: c]` in the text. */
  lemma {:induction false} CitationsOccur(s: string, c: string)
    requires c in Citations(s)
    ensures Contains(s, Tag(c))
    decreases |s|
  {
    var n := TagOpenLength;
    if TagOpen <= s && n < FirstClose(s, n) < |s| {
      var j := FirstClose(s, n);
      CitationsAtTag(s, j);
      if c == s[n..j] {
        TagAtStart(s, j);
      } else {
        CitationsOccur(s[j + 1..], c);
        ContainsInSuffix(s, j + 1, Tag(c));
      }
    } else {
      assert s != [];
      CitationsOccur(s[1..], c);
      ContainsInSuffix(s, 1, Tag(c));
    }
  }

  /** A match at the start of `s` ending at `j` is the first citation, and the scan resumes after it. */
  lemma CitationsAtTag(s: string, j: nat)
    requires TagOpen <= s && TagOpenLength < j < |s| && j == FirstClose(s, TagOpenLength)
    ensures Citations(s) == [s[TagOpenLength..j]] + Citations(s[j + 1..])
  {
  }

  /** A match at the start of `s` ending at `j` is a whole tag. */
  lemma TagAtStart(s: string, j: nat)
    requires TagOpen <= s && TagOpenLength < j < |s| && s[j] == ']'
    ensures Contains(s, Tag(s[TagOpenLength..j]))
  {
    SplitAround(s, TagOpen, j);
    ContainsAtStart(s, Tag(s[TagOpenLength..j]));
  }

  /** A prefix of `s` ending at `j` is the leading `p`, the text after it, and `s[j]`. */
  lemma SplitAround(s: string, p: string, j: nat)
    requires p <= s && |p| <= j < |s|
    ensures s[..j + 1] == p + s[|p|..j] + [s[j]]
  {
    assert s[..|p|] == p;
  }

  /** Text without `[` holds no citation and does not disturb the ones after it. */
  lemma {:induction false} CitationsSkipPlain(p: string, rest: string)
    requires '[' !in p
    ensures Citations(p + rest) == Citations(rest)
  {
    if p != [] {
      var s := p + rest;
      assert s[0] == p[0];
      assert !(TagOpen <= s) by { assert TagOpen[0] == '['; }
      assert s[1..] == p[1..] + rest;
      CitationsSkipPlain(p[1..], rest);
    } else {
      assert p + rest == rest;
    }
  }

  /** A well-formed tag yields its name, and the scan goes on after it. */
  lemma CitationsTag(c: string, rest: string)
    requires c != [] && ']' !in c
    ensures Citations(Tag(c) + rest) == [c] + Citations(rest)
  {
    var s := Tag(c) + rest;
    var n := TagOpenLength;
    var j := n + |c|;
    assert TagOpen <= s && j < |s| && s[j] == ']' && s[n..j] == c && s[j + 1..] == rest
           && forall k :: n <= k < j ==> s[k] != ']'
    by {
      assert s == TagOpen + (c + ("]" + rest));
      assert forall k :: n <= k < j ==> s[k] == c[k - n];
    }
    FirstCloseAt(s, n, j);
    assert Citations(s) == [s[n..j]] + Citations(s[j + 1..]);
  }

  /** The first `]` from `from` is at `j` when `j` holds one and nothing before it does. */
  lemma FirstCloseAt(s: string, from: nat, j: nat)
    requires from <= j < |s| && s[j] == ']'
    requires forall k :: from <= k < j ==> s[k] != ']'
    ensures FirstClose(s, from) == j
    decreases j - from
  {
    if from < j {
      FirstCloseAt(s, from + 1, j);
    }
  }

  /** The plain text before the first tag of the citation test's summary. */
  const SummaryOpening: string := "The agreement includes emission reductions "

  /** The plain text between the two tags of the citation test's summary. */
  const SummaryMiddle: string := ". Implementation details are unclear "

  /**
   * The summary of the citation test, "The agreement includes emission
   * reductions [Source: Source 1]. Implementation details are unclear
   * [Source: Source 2].", assembled from its plain text and its two tags.
   */
  const CitedSummary: string := SummaryOpening + Tag("Source 1") + SummaryMiddle + Tag("Source 2") + "."

  /** The citations found in the test's summary are exactly "Source 1" and "Source 2", in order. */
  lemma CitedSummaryCitations()
    ensures Citations(CitedSummary) == ["Source 1", "Source 2"]
  {
    Regroup(SummaryOpening, Tag("Source 1"), SummaryMiddle, Tag("Source 2"), ".");
    OpeningPlain();
    MiddlePlain();
    TwoTagCitations(SummaryOpening, "Source 1", SummaryMiddle, "Source 2", ".");
  }

  /** The opening holds no `[`. */
  lemma OpeningPlain()
    ensures '[' !in SummaryOpening
  {
  }

  /** The text between the tags holds no `[`. */
  lemma MiddlePlain()
    ensures '[' !in SummaryMiddle
  {
  }

  /** Regrouping a concatenation of five pieces. */
  lemma Regroup(a: string, t1: string, m: string, t2: string, e: string)
    ensures a + t1 + m + t2 + e == a + (t1 + (m + (t2 + e)))
  {
  }

  /** Two well-formed tags amid text without `[` yield their two names, in order. */
  lemma TwoTagCitations(p1: string, c1: string, p2: string, c2: string, p3: string)
    requires '[' !in p1 && '[' !in p2 && '[' !in p3
    requires c1 != [] && ']' !in c1 && c2 != [] && ']' !in c2
    ensures Citations(p1 + (Tag(c1) + (p2 + (Tag(c2) + p3)))) == [c1, c2]
  {
    CitationsSkipPlain(p1, Tag(c1) + (p2 + (Tag(c2) + p3)));
    CitationsTag(c1, p2 + (Tag(c2) + p3));
    CitationsSkipPlain(p2, Tag(c2) + p3);
    CitationsTag(c2, p3);
    CitationsSkipPlain(p3, []);
    assert p3 + [] == p3;
  }
}
