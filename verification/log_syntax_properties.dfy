/** Properties of the log highlighter that relate several lines or several
    highlighters: what the verdict depends on, how it behaves when a line
    grows, and the verdicts for representative lines. */
module LogSyntaxProperties {
  import opened Bytes
  import opened Search
  import opened LogSyntax

  /** Two tiers hold the same keywords, in whatever order and with whatever
      repetitions. */
  predicate SameKeywords(a: seq<seq<byte>>, b: seq<seq<byte>>) {
    (forall k :: k in a ==> k in b) && (forall k :: k in b ==> k in a)
  }

  /** Whether a tier fires depends on the set of its keywords only. */
  lemma {:induction false} AnyKeywordBySet(s: seq<byte>, a: seq<seq<byte>>, b: seq<seq<byte>>)
    requires SameKeywords(a, b)
    ensures AnyKeyword(s, a) <==> AnyKeyword(s, b)
  {
    if AnyKeyword(s, a) {
      var j :| 0 <= j < |a| && Contains(s, a[j]);
      assert a[j] in b;
      var i :| 0 <= i < |b| && b[i] == a[j];
    }
    if AnyKeyword(s, b) {
      var j :| 0 <= j < |b| && Contains(s, b[j]);
      assert b[j] in a;
      var i :| 0 <= i < |a| && a[i] == b[j];
    }
  }

  /** Reordering (or repeating) the keywords inside a tier never changes a
      verdict: only the order of the tiers matters. */
  lemma {:induction false} TierOrderIrrelevant(h1: Highlighter, h2: Highlighter, s: seq<byte>)
    requires SameKeywords(h1.errorKeywords, h2.errorKeywords)
    requires SameKeywords(h1.warnKeywords, h2.warnKeywords)
    requires SameKeywords(h1.infoKeywords, h2.infoKeywords)
    ensures Classify(h1, s) == Classify(h2, s)
  {
    AnyKeywordBySet(s, h1.errorKeywords, h2.errorKeywords);
    AnyKeywordBySet(s, h1.warnKeywords, h2.warnKeywords);
    AnyKeywordBySet(s, h1.infoKeywords, h2.infoKeywords);
  }

  /** With well-formed tiers, an empty line keeps its text. */
  lemma EmptyLineUnstyled(h: Highlighter)
    requires WellFormed(h)
    ensures Classify(h, []) == Plain
  {
  }

  /** In the default warning tier "WARNING" and "warning" are redundant:
      each contains an earlier keyword, so the tier fires exactly when
      "WARN" or "warn" occurs. */
  lemma {:induction false} DefaultWarnTierReduces(s: seq<byte>)
    ensures AnyKeyword(s, NewLogSyntaxHighlighter().warnKeywords)
            <==> (Contains(s, FromAscii("WARN")) || Contains(s, FromAscii("warn")))
  {
    var w := NewLogSyntaxHighlighter().warnKeywords;
    assert MatchAt(w[2], w[0], 0);
    assert MatchAt(w[3], w[1], 0);
    if Contains(s, w[2]) {
      ContainsTransitive(s, w[2], w[0]);
    }
    if Contains(s, w[3]) {
      ContainsTransitive(s, w[3], w[1]);
    }
  }

  /** The priority of a verdict: error highest, an unstyled line lowest. */
  function Rank(st: Style): nat {
    match st
    case Styled(Red) => 4
    case Styled(Yellow) => 3
    case Styled(Blue) => 2
    case Styled(Green) => 1
    case Plain => 0
  }

  /** Adding text around a line never lowers its verdict: a keyword or digit
      found in the line is still found in the longer line. */
  lemma {:induction false} ExtendingNeverLowersTier(h: Highlighter, pre: seq<byte>, s: seq<byte>, post: seq<byte>)
    ensures Rank(Classify(h, s)) <= Rank(Classify(h, pre + s + post))
  {
    var t := pre + s + post;
    forall ks | ks in {h.errorKeywords, h.warnKeywords, h.infoKeywords} && AnyKeyword(s, ks)
      ensures AnyKeyword(t, ks)
    {
      var j :| 0 <= j < |ks| && Contains(s, ks[j]);
      ContainsExtend(pre, s, post, ks[j]);
    }
    if HasDigit(s) {
      var i :| 0 <= i < |s| && IsDigit(s[i]);
      assert t[|pre| + i] == s[i];
    }
  }

  /** A sequence whose first element occurs in `s` only at offset `p`,
      where the sequence does not start, does not occur in `s`. */
  lemma {:induction false} SingleCandidateRulesOut<T>(s: seq<T>, k: seq<T>, p: int)
    requires |k| > 0 && !MatchAt(s, k, p)
    requires forall i :: 0 <= i < |s| && i != p ==> s[i] != k[0]
    ensures !Contains(s, k)
  {
    forall i | 0 <= i <= |s| - |k| && i != p
      ensures !MatchAt(s, k, i)
    {
      assert s[i..i + |k|][0] == s[i];
    }
  }

  /** The keyword literals are ASCII. */
  lemma WordsAreAscii()
    ensures forall j :: 0 <= j < |ErrorWords| ==> IsAscii(ErrorWords[j])
    ensures forall j :: 0 <= j < |WarnWords| ==> IsAscii(WarnWords[j])
    ensures forall j :: 0 <= j < |InfoWords| ==> IsAscii(InfoWords[j])
  {
  }

  /** On an ASCII line a tier fires exactly when one of its words occurs
      in the line's text. */
  lemma {:induction false} AsciiTier(line: string, words: seq<string>)
    requires IsAscii(line) && forall j :: 0 <= j < |words| ==> IsAscii(words[j])
    ensures AnyKeyword(FromAscii(line), Encode(words)) <==> AnyKeyword(line, words)
  {
    forall j | 0 <= j < |words|
      ensures Contains(FromAscii(line), Encode(words)[j]) <==> Contains(line, words[j])
    {
      AsciiContains(line, words[j]);
    }
  }

  /** The default highlighter classifies an ASCII line by the keyword
      literals and digit characters of its text. */
  lemma {:induction false} DefaultTiersOnAscii(line: string)
    requires IsAscii(line)
    ensures AnyKeyword(FromAscii(line), NewLogSyntaxHighlighter().errorKeywords) <==> AnyKeyword(line, ErrorWords)
    ensures AnyKeyword(FromAscii(line), NewLogSyntaxHighlighter().warnKeywords) <==> AnyKeyword(line, WarnWords)
    ensures AnyKeyword(FromAscii(line), NewLogSyntaxHighlighter().infoKeywords) <==> AnyKeyword(line, InfoWords)
    ensures HasDigit(FromAscii(line)) <==> exists i :: 0 <= i < |line| && '0' <= line[i] <= '9'
  {
    WordsAreAscii();
    AsciiTier(line, ErrorWords);
    AsciiTier(line, WarnWords);
    AsciiTier(line, InfoWords);
    var s := FromAscii(line);
    if HasDigit(s) {
      var i :| 0 <= i < |s| && IsDigit(s[i]);
      assert '0' <= line[i] <= '9';
    }
    if exists i :: 0 <= i < |line| && '0' <= line[i] <= '9' {
      var i :| 0 <= i < |line| && '0' <= line[i] <= '9';
      assert IsDigit(s[i]);
    }
  }

  /** No word of a tier occurs in `line` when each word `words[j]` has, at
      offset `ms[j]`, the character `cs[j]`, and the line has none of `cs`.
      An offset of -1 marks a word already known to be absent. */
  lemma TierAbsent(line: string, words: seq<string>, ms: seq<int>, cs: string)
    requires |ms| == |words| && |cs| == |words|
    requires forall i, j :: 0 <= i < |line| && 0 <= j < |cs| ==> line[i] != cs[j]
    requires forall j :: 0 <= j < |words| && ms[j] == -1 ==> !Contains(line, words[j])
    requires forall j :: 0 <= j < |words| && ms[j] != -1 ==>
               0 <= ms[j] < |words[j]| && words[j][ms[j]] == cs[j]
    ensures !AnyKeyword(line, words)
  {
  }

  // ---------------------------------------------------------------------
  // Representative lines under the default highlighter

  const ErrorLine := "connection error at line 42"
  const WarningLine := "WARNING: disk almost full"
  const InfoLine := "INFO starting service"
  const NumberedLine := "retry attempt 3"
  const HealthyLine := "service is healthy"

  /** A line naming an error is red, even though it also holds digits. */
  lemma ErrorLineIsRed()
    ensures Classify(NewLogSyntaxHighlighter(), FromAscii(ErrorLine)) == Styled(Red)
  {
    ErrorLineText();
    DefaultTiersOnAscii(ErrorLine);
  }

  lemma ErrorLineText()
    ensures AnyKeyword(ErrorLine, ErrorWords)
  {
    assert MatchAt(ErrorLine, ErrorWords[1], 11);
  }

  /** A warning line is yellow. */
  lemma WarningLineIsYellow()
    ensures Classify(NewLogSyntaxHighlighter(), FromAscii(WarningLine)) == Styled(Yellow)
  {
    WarningLineText();
    DefaultTiersOnAscii(WarningLine);
  }

  lemma WarningLineText()
    ensures !AnyKeyword(WarningLine, ErrorWords) && AnyKeyword(WarningLine, WarnWords)
  {
    WarningLineLacksFatalOrFail();
    // The line lacks ERROR's 'E', error's 'r', FATAL's 'F', PANIC's 'P',
    // panic's 'p', Exception's 'E', exception's 'e' and FAIL's 'F'; fatal and
    // fail (offset -1, placeholder '-') are ruled out above.
    TierAbsent(WarningLine, ErrorWords, [0, 1, 0, -1, 0, 0, 0, 0, -1, 0], "ErF-PpEe-F");
    assert WarningLine[0..4] == WarnWords[0];
    assert MatchAt(WarningLine, WarnWords[0], 0);
  }

  /** "fatal" and "fail" are spelled from characters of the warning line,
      but its one 'f', at offset 21, is followed by 'u'. */
  lemma WarningLineLacksFatalOrFail()
    ensures !Contains(WarningLine, ErrorWords[3]) && !Contains(WarningLine, ErrorWords[8])
  {
    assert WarningLine[21..25][1] != ErrorWords[3][1];
    assert WarningLine[21..25][1] != ErrorWords[8][1];
    SingleCandidateRulesOut(WarningLine, ErrorWords[3], 21);
    SingleCandidateRulesOut(WarningLine, ErrorWords[8], 21);
  }

  /** An informational line is blue. */
  lemma InfoLineIsBlue()
    ensures Classify(NewLogSyntaxHighlighter(), FromAscii(InfoLine)) == Styled(Blue)
  {
    InfoLineText();
    DefaultTiersOnAscii(InfoLine);
  }

  lemma InfoLineText()
    ensures !AnyKeyword(InfoLine, ErrorWords) && !AnyKeyword(InfoLine, WarnWords)
    ensures AnyKeyword(InfoLine, InfoWords)
  {
    // The line lacks ERROR's 'E', error's 'o', FATAL's 'A', fatal's 'f',
    // PANIC's 'P', panic's 'p', Exception's 'E', exception's 'x', fail's 'f'
    // and FAIL's 'A'.
    TierAbsent(InfoLine, ErrorWords, [0, 3, 1, 0, 0, 0, 0, 1, 0, 1], "EoAfPpExfA");
    // It lacks the leading 'W' of WARN and WARNING and 'w' of warn and warning.
    TierAbsent(InfoLine, WarnWords, [0, 0, 0, 0], "WwWw");
    assert MatchAt(InfoLine, InfoWords[0], 0);
  }

  /** A line of ordinary words and a digit is green. */
  lemma NumberedLineIsGreen()
    ensures Classify(NewLogSyntaxHighlighter(), FromAscii(NumberedLine)) == Styled(Green)
  {
    NumberedLineText();
    DefaultTiersOnAscii(NumberedLine);
  }

  lemma NumberedLineText()
    ensures !AnyKeyword(NumberedLine, ErrorWords) && !AnyKeyword(NumberedLine, WarnWords)
    ensures !AnyKeyword(NumberedLine, InfoWords)
    ensures '0' <= NumberedLine[14] <= '9'
  {
    // The line lacks ERROR's 'E', error's 'o', FATAL's 'F', fatal's 'f',
    // PANIC's 'P', panic's 'n', Exception's 'E', exception's 'x', fail's 'f'
    // and FAIL's 'F'.
    TierAbsent(NumberedLine, ErrorWords, [0, 3, 0, 0, 0, 2, 0, 1, 0, 0], "EoFfPnExfF");
    // It lacks the leading 'W' of WARN and WARNING and 'w' of warn and warning.
    TierAbsent(NumberedLine, WarnWords, [0, 0, 0, 0], "WwWw");
    // It lacks INFO's 'I' and info's 'n'.
    TierAbsent(NumberedLine, InfoWords, [0, 1], "In");
  }

  /** A line with no keyword and no digit keeps its text. */
  lemma HealthyLineIsPlain()
    ensures Classify(NewLogSyntaxHighlighter(), FromAscii(HealthyLine)) == Plain
  {
    HealthyLineText();
    assert forall i :: 0 <= i < |HealthyLine| ==> HealthyLine[i] < '0' || '9' < HealthyLine[i];
    DefaultTiersOnAscii(HealthyLine);
  }

  lemma HealthyLineText()
    ensures !AnyKeyword(HealthyLine, ErrorWords) && !AnyKeyword(HealthyLine, WarnWords)
    ensures !AnyKeyword(HealthyLine, InfoWords)
  {
    // The line lacks ERROR's 'E', error's 'o', FATAL's 'F', fatal's 'f',
    // PANIC's 'P', panic's 'p', Exception's 'E', exception's 'x', fail's 'f'
    // and FAIL's 'F'.
    TierAbsent(HealthyLine, ErrorWords, [0, 3, 0, 0, 0, 0, 0, 1, 0, 0], "EoFfPpExfF");
    // It lacks the leading 'W' of WARN and WARNING and 'w' of warn and warning.
    TierAbsent(HealthyLine, WarnWords, [0, 0, 0, 0], "WwWw");
    // It lacks INFO's 'I' and info's 'f'.
    TierAbsent(HealthyLine, InfoWords, [0, 2], "If");
  }

  /** The empty line keeps its (empty) text. */
  lemma EmptyLineIsPlain()
    ensures Classify(NewLogSyntaxHighlighter(), []) == Plain
  {
    EmptyLineUnstyled(NewLogSyntaxHighlighter());
  }
}
