/** The k9s log-line highlighter: a line of log text is coloured by the
    first tier of keywords it contains (error, then warning, then info),
    falling back to a colour for lines with a decimal digit, and is
    otherwise left as it is.

    The colour renderer `Colorize` and its colour constants live outside
    this component. They are modelled as the `Color` tags and a
    `Colorizer` parameter about which nothing is assumed. */
module LogSyntax {
  import opened Bytes
  import opened Search

  /** The four colours the highlighter hands to the renderer. */
  datatype Color = Red | Yellow | Blue | Green

  /** The external `Colorize(text, color)` renderer. */
  type Colorizer = (seq<byte>, Color) -> seq<byte>

  /** The verdict for one line: which colour, if any, it is rendered in. */
  datatype Style = Plain | Styled(color: Color)

  /** The three keyword tiers of a highlighter. */
  datatype Highlighter = Highlighter(
    errorKeywords: seq<seq<byte>>,
    warnKeywords: seq<seq<byte>>,
    infoKeywords: seq<seq<byte>>)

  /** Every keyword of every tier is non-empty (an empty keyword would
      occur in every line, empty lines included). */
  predicate WellFormed(h: Highlighter) {
    && (forall j :: 0 <= j < |h.errorKeywords| ==> |h.errorKeywords[j]| > 0)
    && (forall j :: 0 <= j < |h.warnKeywords| ==> |h.warnKeywords[j]| > 0)
    && (forall j :: 0 <= j < |h.infoKeywords| ==> |h.infoKeywords[j]| > 0)
  }

  /** The digits `strings.ContainsAny` is asked about. */
  function Digits(): (d: seq<byte>)
    ensures |d| == 10
    ensures forall i :: 0 <= i < 10 ==> d[i] as int == '0' as int + i
  {
    FromAscii("0123456789")
  }

  /** A byte is an ASCII decimal digit. */
  predicate IsDigit(b: byte) {
    '0' as int <= b as int <= '9' as int
  }

  /** Some byte of `s` is an ASCII decimal digit. */
  predicate HasDigit(s: seq<byte>) {
    exists i :: 0 <= i < |s| && IsDigit(s[i])
  }

  /** Some keyword of the tier occurs in `s`. */
  predicate AnyKeyword<T(==)>(s: seq<T>, keywords: seq<seq<T>>) {
    exists j :: 0 <= j < |keywords| && Contains(s, keywords[j])
  }

  /** No keyword of any tier occurs in `s`. */
  predicate NoKeyword(h: Highlighter, s: seq<byte>) {
    !AnyKeyword(s, h.errorKeywords) && !AnyKeyword(s, h.warnKeywords) && !AnyKeyword(s, h.infoKeywords)
  }

  /** The keyword literals of the three tiers k9s builds, in source order. */
  const ErrorWords: seq<string> :=
    ["ERROR", "error", "FATAL", "fatal", "PANIC", "panic", "Exception", "exception", "fail", "FAIL"]
  const WarnWords: seq<string> := ["WARN", "warn", "WARNING", "warning"]
  const InfoWords: seq<string> := ["INFO", "info"]

  /** Each word of a tier as Go's `[]byte(keyword)` sees it. */
  function Encode(words: seq<string>): (ks: seq<seq<byte>>)
    requires forall j :: 0 <= j < |words| ==> IsAscii(words[j])
    ensures |ks| == |words|
    ensures forall j :: 0 <= j < |words| ==> ks[j] == FromAscii(words[j])
  {
    seq(|words|, j requires 0 <= j < |words| => FromAscii(words[j]))
  }

  /** The highlighter k9s builds: ten error keywords, four warning
      keywords and two info keywords, all non-empty case-sensitive
      ASCII literals. */
  function NewLogSyntaxHighlighter(): (h: Highlighter)
    ensures WellFormed(h)
    ensures |h.errorKeywords| == 10 && |h.warnKeywords| == 4 && |h.infoKeywords| == 2
  {
    Highlighter(Encode(ErrorWords), Encode(WarnWords), Encode(InfoWords))
  }

  // ---------------------------------------------------------------------
  // The functional specification: an ordered list of rules, first match wins

  /** One classification rule: a keyword tier or the digit fallback, with
      the colour it selects. */
  datatype Rule = KeywordRule(keywords: seq<seq<byte>>, color: Color) | DigitRule(color: Color)

  /** The rule applies to the line `s`. */
  predicate Fires(rule: Rule, s: seq<byte>) {
    match rule
    case KeywordRule(keywords, _) => AnyKeyword(s, keywords)
    case DigitRule(_) => HasDigit(s)
  }

  /** The highlighter's rules in priority order. */
  function Rules(h: Highlighter): seq<Rule> {
    [KeywordRule(h.errorKeywords, Red), KeywordRule(h.warnKeywords, Yellow),
     KeywordRule(h.infoKeywords, Blue), DigitRule(Green)]
  }

  /** The colour of the first rule that fires, or `Plain` if none does. */
  function FirstMatch(rules: seq<Rule>, s: seq<byte>): (st: Style)
    ensures st == Plain <==> forall j :: 0 <= j < |rules| ==> !Fires(rules[j], s)
    ensures st.Styled? ==>
              exists j :: 0 <= j < |rules| && Fires(rules[j], s) && rules[j].color == st.color
                          && forall i :: 0 <= i < j ==> !Fires(rules[i], s)
    decreases |rules|
  {
    if rules == [] then Plain
    else if Fires(rules[0], s) then Styled(rules[0].color)
    else
      var st := FirstMatch(rules[1..], s);
      assert forall j :: 1 <= j < |rules| ==> rules[j] == rules[1..][j - 1];
      st
  }

  /** How a line is classified: each tier outranks every later one. */
  function Classify(h: Highlighter, s: seq<byte>): (st: Style)
    ensures AnyKeyword(s, h.errorKeywords) ==> st == Styled(Red)
    ensures (!AnyKeyword(s, h.errorKeywords) && AnyKeyword(s, h.warnKeywords))
            ==> st == Styled(Yellow)
    ensures (!AnyKeyword(s, h.errorKeywords) && !AnyKeyword(s, h.warnKeywords)
             && AnyKeyword(s, h.infoKeywords))
            ==> st == Styled(Blue)
    ensures (NoKeyword(h, s) && HasDigit(s)) ==> st == Styled(Green)
    ensures (NoKeyword(h, s) && !HasDigit(s)) ==> st == Plain
  {
    var rules := Rules(h);
    assert Fires(rules[0], s) == AnyKeyword(s, h.errorKeywords);
    assert Fires(rules[1], s) == AnyKeyword(s, h.warnKeywords);
    assert Fires(rules[2], s) == AnyKeyword(s, h.infoKeywords);
    assert Fires(rules[3], s) == HasDigit(s);
    FirstMatch(rules, s)
  }

  /** The text the highlighter returns for a line with the given verdict:
      the whole line handed to the renderer, or the line itself. */
  function Render(st: Style, s: seq<byte>, colorize: Colorizer): seq<byte> {
    match st
    case Plain => s
    case Styled(c) => colorize(s, c)
  }

  // ---------------------------------------------------------------------
  // The two entry points, written as the Go loops are

  /** `Highlight(content string) string`. */
  method Highlight(h: Highlighter, content: seq<byte>, colorize: Colorizer) returns (r: seq<byte>)
    ensures AnyKeyword(content, h.errorKeywords) ==> r == colorize(content, Red)
    ensures (!AnyKeyword(content, h.errorKeywords) && AnyKeyword(content, h.warnKeywords))
            ==> r == colorize(content, Yellow)
    ensures (!AnyKeyword(content, h.errorKeywords) && !AnyKeyword(content, h.warnKeywords)
             && AnyKeyword(content, h.infoKeywords))
            ==> r == colorize(content, Blue)
    ensures (NoKeyword(h, content) && HasDigit(content)) ==> r == colorize(content, Green)
    ensures (NoKeyword(h, content) && !HasDigit(content)) ==> r == content
    ensures r == Render(Classify(h, content), content, colorize)
  {
    for j := 0 to |h.errorKeywords|
      invariant forall i :: 0 <= i < j ==> !Contains(content, h.errorKeywords[i])
    {
      var at := IndexOf(content, h.errorKeywords[j]);
      if at >= 0 {
        return colorize(content, Red);
      }
    }

    for j := 0 to |h.warnKeywords|
      invariant forall i :: 0 <= i < j ==> !Contains(content, h.warnKeywords[i])
    {
      var at := IndexOf(content, h.warnKeywords[j]);
      if at >= 0 {
        return colorize(content, Yellow);
      }
    }

    for j := 0 to |h.infoKeywords|
      invariant forall i :: 0 <= i < j ==> !Contains(content, h.infoKeywords[i])
    {
      var at := IndexOf(content, h.infoKeywords[j]);
      if at >= 0 {
        return colorize(content, Blue);
      }
    }

    var digit := ContainsAny(content, Digits());
    DigitsAreDigits(content);
    if digit {
      return colorize(content, Green);
    }

    return content;
  }

  /** `HighlightBytes(content []byte) []byte`: the same tiers, searched with
      `bytes.Contains` on the raw bytes; the digit test converts the bytes
      to a string first. */
  method HighlightBytes(h: Highlighter, content: seq<byte>, colorize: Colorizer) returns (r: seq<byte>)
    ensures AnyKeyword(content, h.errorKeywords) ==> r == colorize(content, Red)
    ensures (!AnyKeyword(content, h.errorKeywords) && AnyKeyword(content, h.warnKeywords))
            ==> r == colorize(content, Yellow)
    ensures (!AnyKeyword(content, h.errorKeywords) && !AnyKeyword(content, h.warnKeywords)
             && AnyKeyword(content, h.infoKeywords))
            ==> r == colorize(content, Blue)
    ensures (NoKeyword(h, content) && HasDigit(content)) ==> r == colorize(content, Green)
    ensures (NoKeyword(h, content) && !HasDigit(content)) ==> r == content
    ensures r == Render(Classify(h, content), content, colorize)
  {
    for j := 0 to |h.errorKeywords|
      invariant forall i :: 0 <= i < j ==> !Contains(content, h.errorKeywords[i])
    {
      var at := IndexOf(content, h.errorKeywords[j]);
      if at >= 0 {
        return colorize(content, Red);
      }
    }

    for j := 0 to |h.warnKeywords|
      invariant forall i :: 0 <= i < j ==> !Contains(content, h.warnKeywords[i])
    {
      var at := IndexOf(content, h.warnKeywords[j]);
      if at >= 0 {
        return colorize(content, Yellow);
      }
    }

    for j := 0 to |h.infoKeywords|
      invariant forall i :: 0 <= i < j ==> !Contains(content, h.infoKeywords[i])
    {
      var at := IndexOf(content, h.infoKeywords[j]);
      if at >= 0 {
        return colorize(content, Blue);
      }
    }

    var contentStr := content;
    var digit := ContainsAny(contentStr, Digits());
    DigitsAreDigits(contentStr);
    if digit {
      return colorize(contentStr, Green);
    }

    return content;
  }

  /** The two entry points agree: for every line, `HighlightBytes` yields
      exactly the bytes `Highlight` yields for the same bytes as a string. */
  method EntryPointsAgree(h: Highlighter, content: seq<byte>, colorize: Colorizer)
    returns (fromString: seq<byte>, fromBytes: seq<byte>)
    ensures fromString == fromBytes
  {
    fromString := Highlight(h, content, colorize);
    fromBytes := HighlightBytes(h, content, colorize);
  }

  /** Looking for any byte of "0123456789" is looking for an ASCII digit. */
  lemma {:induction false} DigitsAreDigits(s: seq<byte>)
    ensures ContainsAnyOf(s, Digits()) <==> HasDigit(s)
  {
    var d := Digits();
    if ContainsAnyOf(s, d) {
      var i :| 0 <= i < |s| && s[i] in d;
      var k :| 0 <= k < |d| && d[k] == s[i];
      assert IsDigit(s[i]);
    }
    if HasDigit(s) {
      var i :| 0 <= i < |s| && IsDigit(s[i]);
      var k := s[i] as int - '0' as int;
      assert d[k] == s[i];
      assert s[i] in d;
    }
  }
}
