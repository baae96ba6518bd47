/**
 * The scanner of the turtle language. Program text is split into lines at '\n'; each line is
 * searched left to right for the token pattern, whose six alternatives are `[`, `]`, an
 * unsigned integer or decimal, an identifier, `"identifier` and `:identifier`. Characters
 * where no alternative matches are skipped. Every token records its 1-based line.
 */
module Lexer {
  import opened Wrappers

  datatype Token = Token(value: string, line: nat)

  /** A match of the token pattern: the half-open range [start, end) of a line. */
  datatype Span = Span(start: nat, end: nat)

  predicate IsDigit(c: char) { '0' <= c <= '9' }

  predicate IsIdentStart(c: char) { 'a' <= c <= 'z' || 'A' <= c <= 'Z' || c == '_' }

  /** The characters of the regular-expression class `\w`. */
  predicate IsWordChar(c: char) { IsIdentStart(c) || IsDigit(c) }

  // ---------------------------------------------------------------------------------------
  // The six lexical classes, stated independently of the scanner.

  datatype LexClass = OpenBracket | CloseBracket | Numeral | Identifier | Quoted | VarRef

  predicate AllDigits(s: string) {
    |s| > 0 && forall k :: 0 <= k < |s| ==> IsDigit(s[k])
  }

  predicate IsIdentifier(s: string) {
    |s| > 0 && IsIdentStart(s[0]) && forall k :: 1 <= k < |s| ==> IsWordChar(s[k])
  }

  /** `\d+(\.\d+)?` */
  predicate IsNumeral(s: string) {
    AllDigits(s) || exists k :: 0 < k < |s| - 1 && s[k] == '.' && AllDigits(s[..k]) && AllDigits(s[k + 1..])
  }

  predicate InClass(s: string, c: LexClass) {
    match c
    case OpenBracket => s == "["
    case CloseBracket => s == "]"
    case Numeral => IsNumeral(s)
    case Identifier => IsIdentifier(s)
    case Quoted => |s| > 1 && s[0] == '"' && IsIdentifier(s[1..])
    case VarRef => |s| > 1 && s[0] == ':' && IsIdentifier(s[1..])
  }

  /** The class a lexeme starting with character c would belong to, if any. */
  function StartClass(c: char): Option<LexClass> {
    if c == '[' then Some(OpenBracket)
    else if c == ']' then Some(CloseBracket)
    else if IsDigit(c) then Some(Numeral)
    else if IsIdentStart(c) then Some(Identifier)
    else if c == '"' then Some(Quoted)
    else if c == ':' then Some(VarRef)
    else None
  }

  /** A string belongs to at most one lexical class: the classes are told apart by the first character. */
  lemma ClassesDisjoint(s: string, c1: LexClass, c2: LexClass)
    requires InClass(s, c1) && InClass(s, c2)
    ensures c1 == c2
    ensures |s| > 0 && StartClass(s[0]) == Some(c1)
  {
    if c1 == Numeral || c2 == Numeral {
      NumeralStart(s);
    }
  }

  lemma NumeralStart(s: string)
    requires IsNumeral(s)
    ensures |s| > 0 && IsDigit(s[0])
  {
    if !AllDigits(s) {
      var k :| 0 < k < |s| - 1 && s[k] == '.' && AllDigits(s[..k]) && AllDigits(s[k + 1..]);
      assert s[..k][0] == s[0];
    }
  }

  // ---------------------------------------------------------------------------------------
  // The token pattern, matched at one position.

  /** The first index at or after p that does not hold a digit: the greedy `\d+`. */
  function DigitRun(s: string, p: nat): (r: nat)
    requires p <= |s|
    ensures p <= r <= |s|
    ensures forall k :: p <= k < r ==> IsDigit(s[k])
    ensures r == |s| || !IsDigit(s[r])
    decreases |s| - p
  {
    if p == |s| || !IsDigit(s[p]) then p else DigitRun(s, p + 1)
  }

  /** The first index at or after p that does not hold a word character: the greedy `\w*`. */
  function WordRun(s: string, p: nat): (r: nat)
    requires p <= |s|
    ensures p <= r <= |s|
    ensures forall k :: p <= k < r ==> IsWordChar(s[k])
    ensures r == |s| || !IsWordChar(s[r])
    decreases |s| - p
  {
    if p == |s| || !IsWordChar(s[p]) then p else WordRun(s, p + 1)
  }

  /** The end of the lexeme the token pattern matches at position q of s, or None. */
  function MatchAt(s: string, q: nat): Option<nat>
    requires q < |s|
  {
    var c := s[q];
    if c == '[' || c == ']' then Some(q + 1)
    else if IsDigit(c) then
      var d := DigitRun(s, q);
      if d + 1 < |s| && s[d] == '.' && IsDigit(s[d + 1]) then Some(DigitRun(s, d + 1)) else Some(d)
    else if IsIdentStart(c) then Some(WordRun(s, q + 1))
    else if (c == '"' || c == ':') && q + 1 < |s| && IsIdentStart(s[q + 1]) then Some(WordRun(s, q + 2))
    else None
  }

  /** What membership in a class says about the first characters of a string. */
  lemma LexemeStart(v: string, cl: LexClass)
    ensures InClass(v, cl) ==> |v| > 0 && StartClass(v[0]) == Some(cl)
    ensures InClass(v, cl) && (cl == Quoted || cl == VarRef) ==> |v| > 1 && IsIdentStart(v[1])
  {
    if InClass(v, cl) {
      ClassesDisjoint(v, cl, cl);
      if cl == Quoted || cl == VarRef {
        assert v[1..][0] == v[1];
      }
    }
  }

  /**
   * If v starts with m digits followed by a non-digit, then v can only be a numeral by having
   * a '.' at m followed by digits up to its end.
   */
  lemma FirstNonDigit(v: string, m: nat)
    requires m < |v| && !IsDigit(v[m])
    requires forall j :: 0 <= j < m ==> IsDigit(v[j])
    ensures IsNumeral(v) ==> 0 < m < |v| - 1 && v[m] == '.' && AllDigits(v[m + 1..])
  {
    assert !AllDigits(v);
    forall k | 0 < k < |v| - 1 && v[k] == '.' && AllDigits(v[..k]) && AllDigits(v[k + 1..])
      ensures k == m
    {
      assert forall j :: 0 <= j < k ==> v[..k][j] == v[j];
    }
  }

  lemma NumberMatch(s: string, q: nat)
    requires q < |s| && IsDigit(s[q])
    ensures var e := MatchAt(s, q).value;
            && q < e <= |s|
            && IsNumeral(s[q..e])
            && forall e' :: e < e' <= |s| ==> !IsNumeral(s[q..e'])
  {
    var d := DigitRun(s, q);
    assert AllDigits(s[q..d]);
    if d + 1 < |s| && s[d] == '.' && IsDigit(s[d + 1]) {
      var f := DigitRun(s, d + 1);
      var w := s[q..f];
      assert w[..d - q] == s[q..d];
      assert w[d - q + 1..] == s[d + 1..f];
      assert IsNumeral(w);
      forall e' | f < e' <= |s| ensures !IsNumeral(s[q..e']) {
        var v := s[q..e'];
        FirstNonDigit(v, d - q);
        assert v[d - q + 1..][f - d - 1] == s[f];
      }
    } else {
      forall e' | d < e' <= |s| ensures !IsNumeral(s[q..e']) {
        var v := s[q..e'];
        FirstNonDigit(v, d - q);
        assert d - q + 1 < |v| ==> v[d - q + 1..][0] == s[d + 1];
      }
    }
  }

  lemma IdentifierMatch(s: string, a: nat)
    requires a < |s| && IsIdentStart(s[a])
    ensures var e := WordRun(s, a + 1);
            && IsIdentifier(s[a..e])
            && forall e' :: e < e' <= |s| ==> !IsIdentifier(s[a..e'])
  {
    var e := WordRun(s, a + 1);
    forall e' | e < e' <= |s| ensures !IsIdentifier(s[a..e']) {
      assert s[a..e'][e - a] == s[e];
    }
  }

  /**
   * A match at q is a non-empty lexeme of the class named by its first character, and it is the
   * longest one: no longer prefix of s[q..] belongs to that class. Where nothing matches, no
   * prefix of s[q..] is a lexeme of any class.
   */
  lemma MatchIsLongestLexeme(s: string, q: nat)
    requires q < |s|
    ensures MatchAt(s, q).Some? ==>
              var e := MatchAt(s, q).value;
              && q < e <= |s|
              && StartClass(s[q]).Some?
              && InClass(s[q..e], StartClass(s[q]).value)
              && forall e' :: e < e' <= |s| ==> !InClass(s[q..e'], StartClass(s[q]).value)
    ensures MatchAt(s, q).None? ==> forall e', c :: q < e' <= |s| ==> !InClass(s[q..e'], c)
  {
    var c := s[q];
    if c == '[' || c == ']' {
      forall e' | q + 1 < e' <= |s| ensures !InClass(s[q..e'], StartClass(c).value) {
        assert |s[q..e']| > 1;
      }
    } else if IsDigit(c) {
      NumberMatch(s, q);
    } else if IsIdentStart(c) {
      IdentifierMatch(s, q);
    } else if (c == '"' || c == ':') && q + 1 < |s| && IsIdentStart(s[q + 1]) {
      var e := WordRun(s, q + 2);
      IdentifierMatch(s, q + 1);
      assert s[q..e][1..] == s[q + 1..e];
      forall e' | e < e' <= |s| ensures !InClass(s[q..e'], StartClass(c).value) {
        assert s[q..e'][1..] == s[q + 1..e'];
      }
    } else {
      forall e', cl | q < e' <= |s| ensures !InClass(s[q..e'], cl) {
        LexemeStart(s[q..e'], cl);
        assert s[q..e'][0] == c;
        assert e' > q + 1 ==> s[q..e'][1] == s[q + 1];
      }
    }
  }

  // ---------------------------------------------------------------------------------------
  // The search loop of one line.

  /** No position in [a, b) starts a match: those characters are skipped. */
  ghost predicate NoMatchIn(s: string, a: nat, b: nat)
    requires a <= b <= |s|
  {
    forall q :: a <= q < b ==> MatchAt(s, q).None?
  }

  /** The leftmost match at or after position `from`, as one step of the global regex search. */
  function NextMatch(s: string, from: nat): (r: Option<Span>)
    requires from <= |s|
    ensures r.Some? ==> from <= r.value.start < r.value.end <= |s|
    ensures r.Some? ==> MatchAt(s, r.value.start) == Some(r.value.end)
    ensures r.Some? ==> NoMatchIn(s, from, r.value.start)
    ensures r.None? ==> NoMatchIn(s, from, |s|)
    decreases |s| - from
  {
    if from == |s| then None
    else match MatchAt(s, from)
      case Some(e) => MatchLength(s, from); Some(Span(from, e))
      case None => NextMatch(s, from + 1)
  }

  lemma MatchLength(s: string, q: nat)
    requires q < |s| && MatchAt(s, q).Some?
    ensures q < MatchAt(s, q).value <= |s|
  {
  }

  /** Where the gap before span k begins: the start of the search, or the end of span k - 1. */
  function GapStart(sp: seq<Span>, from: nat, k: nat): nat
    requires k <= |sp|
  {
    if k == 0 then from else sp[k - 1].end
  }

  /** All matches of a line from position `from` on, in the order the search finds them. */
  function Spans(s: string, from: nat): (sp: seq<Span>)
    requires from <= |s|
    ensures forall k :: 0 <= k < |sp| ==> from <= sp[k].start < sp[k].end <= |s|
    decreases |s| - from
  {
    match NextMatch(s, from)
    case None => []
    case Some(m) => [m] + Spans(s, m.end)
  }

  /** Spans(s, from) is Spans(s, e) behind the first match [s0, e), if there is one. */
  lemma SpansUnfold(s: string, from: nat)
    requires from <= |s|
    ensures NextMatch(s, from).None? ==> Spans(s, from) == []
    ensures NextMatch(s, from).Some? ==>
              var m := NextMatch(s, from).value;
              && Spans(s, from) == [m] + Spans(s, m.end)
              && forall k :: 1 <= k < |Spans(s, from)| ==> Spans(s, from)[k] == Spans(s, m.end)[k - 1]
  {
  }

  /**
   * Every span is a match of the token pattern, the spans do not overlap, and no skipped
   * position (before the first span, between two, or after the last) starts a match: the search
   * finds every match of the line, leftmost first.
   */
  lemma {:induction false} SpansAreLeftmostMatches(s: string, from: nat)
    requires from <= |s|
    ensures var sp := Spans(s, from);
            && (forall k :: 0 <= k < |sp| ==> MatchAt(s, sp[k].start) == Some(sp[k].end))
            && (forall k :: 0 <= k < |sp| ==> GapStart(sp, from, k) <= sp[k].start)
            && (forall k :: 0 <= k < |sp| ==> NoMatchIn(s, GapStart(sp, from, k), sp[k].start))
            && NoMatchIn(s, GapStart(sp, from, |sp|), |s|)
    decreases |s| - from
  {
    SpansUnfold(s, from);
    var sp := Spans(s, from);
    if NextMatch(s, from).Some? {
      var m := NextMatch(s, from).value;
      var rest := Spans(s, m.end);
      SpansAreLeftmostMatches(s, m.end);
      assert forall k :: 1 <= k <= |sp| ==> GapStart(sp, from, k) == GapStart(rest, m.end, k - 1);
    }
  }

  predicate WithinLine(s: string, sp: seq<Span>) {
    forall k :: 0 <= k < |sp| ==> sp[k].start <= sp[k].end <= |s|
  }

  /** The tokens a sequence of spans of line s yields, all tagged with line number n. */
  function SpanTokens(s: string, n: nat, sp: seq<Span>): (ts: seq<Token>)
    requires WithinLine(s, sp)
    ensures |ts| == |sp|
    ensures forall k :: 0 <= k < |sp| ==> ts[k] == Token(s[sp[k].start..sp[k].end], n)
  {
    if sp == [] then [] else [Token(s[sp[0].start..sp[0].end], n)] + SpanTokens(s, n, sp[1..])
  }

  /** The tokens of line s, which is line number n of the program. */
  function LineTokens(s: string, n: nat): seq<Token> {
    SpanTokens(s, n, Spans(s, 0))
  }

  // ---------------------------------------------------------------------------------------
  // Lines.

  /** The index of the first '\n' at or after p, or |s|. */
  function LineEnd(s: string, p: nat): (r: nat)
    requires p <= |s|
    ensures p <= r <= |s|
    ensures r == |s| || s[r] == '\n'
    ensures forall k :: p <= k < r ==> s[k] != '\n'
    decreases |s| - p
  {
    if p == |s| || s[p] == '\n' then p else LineEnd(s, p + 1)
  }

  /** `s.split('\n')`: the pieces between newline characters, at least one. */
  function SplitLines(s: string): (lines: seq<string>)
    ensures |lines| > 0
    ensures forall k :: 0 <= k < |lines| ==> '\n' !in lines[k]
    decreases |s|
  {
    var e := LineEnd(s, 0);
    if e == |s| then [s] else [s[..e]] + SplitLines(s[e + 1..])
  }

  function JoinLines(lines: seq<string>): string
    requires |lines| > 0
  {
    if |lines| == 1 then lines[0] else lines[0] + "\n" + JoinLines(lines[1..])
  }

  /** Splitting loses nothing: joining the lines with '\n' gives the text back. */
  lemma {:induction false} JoinSplitLines(s: string)
    ensures JoinLines(SplitLines(s)) == s
    decreases |s|
  {
    var e := LineEnd(s, 0);
    if e < |s| {
      JoinSplitLines(s[e + 1..]);
      assert s == s[..e] + "\n" + s[e + 1..];
    }
  }

  // ---------------------------------------------------------------------------------------
  // The whole program.

  /** The tokens of consecutive lines, the first of them being line number n. */
  function LinesTokens(lines: seq<string>, n: nat): seq<Token>
    decreases |lines|
  {
    if lines == [] then [] else LineTokens(lines[0], n) + LinesTokens(lines[1..], n + 1)
  }

  /** `tokenize(code)`: the tokens of every line, in line order. */
  function TokensOf(code: string): seq<Token> {
    LinesTokens(SplitLines(code), 1)
  }

  /** The tokens of lines k onward are those of line k followed by those of the lines after it. */
  lemma LinesTokensSuffix(lines: seq<string>, k: nat, n: nat)
    requires k < |lines|
    ensures LinesTokens(lines[k..], n) == LineTokens(lines[k], n) + LinesTokens(lines[k + 1..], n + 1)
  {
    assert lines[k..][1..] == lines[k + 1..];
  }

  /** Every token of a line carries that line's number. */
  lemma LineTokensLine(s: string, n: nat)
    ensures forall k :: 0 <= k < |LineTokens(s, n)| ==> LineTokens(s, n)[k].line == n
  {
    var sp := Spans(s, 0);
    assert LineTokens(s, n) == SpanTokens(s, n, sp);
  }

  lemma LinesTokensLines(lines: seq<string>, n: nat)
    ensures forall k :: 0 <= k < |LinesTokens(lines, n)| ==> n <= LinesTokens(lines, n)[k].line < n + |lines|
    ensures forall j, k :: 0 <= j < k < |LinesTokens(lines, n)| ==>
              LinesTokens(lines, n)[j].line <= LinesTokens(lines, n)[k].line
  {
    LinesTokensRange(lines, n);
    LinesTokensOrdered(lines, n);
  }

  lemma {:induction false} LinesTokensRange(lines: seq<string>, n: nat)
    ensures forall k :: 0 <= k < |LinesTokens(lines, n)| ==> n <= LinesTokens(lines, n)[k].line < n + |lines|
    decreases |lines|
  {
    if lines != [] {
      var head := LineTokens(lines[0], n);
      var tail := LinesTokens(lines[1..], n + 1);
      var ts := LinesTokens(lines, n);
      assert ts == head + tail;
      LineTokensLine(lines[0], n);
      LinesTokensRange(lines[1..], n + 1);
      assert |lines[1..]| == |lines| - 1;
      forall k | 0 <= k < |ts| ensures n <= ts[k].line < n + |lines| {
        if k < |head| {
          assert ts[k] == head[k];
        } else {
          assert ts[k] == tail[k - |head|];
        }
      }
    }
  }

  lemma {:induction false} LinesTokensOrdered(lines: seq<string>, n: nat)
    ensures forall j, k :: 0 <= j < k < |LinesTokens(lines, n)| ==>
              LinesTokens(lines, n)[j].line <= LinesTokens(lines, n)[k].line
    decreases |lines|
  {
    if lines != [] {
      var head := LineTokens(lines[0], n);
      var tail := LinesTokens(lines[1..], n + 1);
      var ts := LinesTokens(lines, n);
      assert ts == head + tail;
      LineTokensLine(lines[0], n);
      LinesTokensRange(lines[1..], n + 1);
      LinesTokensOrdered(lines[1..], n + 1);
      forall j, k | 0 <= j < k < |ts| ensures ts[j].line <= ts[k].line {
        if k < |head| {
          assert ts[j] == head[j] && ts[k] == head[k];
        } else if j < |head| {
          assert ts[j] == head[j] && ts[k] == tail[k - |head|];
        } else {
          assert ts[j] == tail[j - |head|] && ts[k] == tail[k - |head|];
        }
      }
    }
  }

  /** Every token text is a non-empty lexeme whose class is named by its first character. */
  ghost predicate IsLexeme(v: string) {
    0 < |v| && StartClass(v[0]).Some? && InClass(v, StartClass(v[0]).value)
  }

  lemma MatchIsLexeme(s: string, q: nat)
    requires q < |s| && MatchAt(s, q).Some?
    ensures q < MatchAt(s, q).value <= |s| && IsLexeme(s[q..MatchAt(s, q).value])
  {
    MatchIsLongestLexeme(s, q);
    assert s[q..MatchAt(s, q).value][0] == s[q];
  }

  lemma LineTokensLexemes(s: string, n: nat)
    ensures forall k :: 0 <= k < |LineTokens(s, n)| ==> IsLexeme(LineTokens(s, n)[k].value)
  {
    var sp := Spans(s, 0);
    var ts := LineTokens(s, n);
    SpansAreLeftmostMatches(s, 0);
    forall k | 0 <= k < |ts| ensures IsLexeme(ts[k].value) {
      assert ts[k].value == s[sp[k].start..sp[k].end];
      MatchIsLexeme(s, sp[k].start);
    }
  }

  lemma {:induction false} LinesTokensLexemes(lines: seq<string>, n: nat)
    ensures forall k :: 0 <= k < |LinesTokens(lines, n)| ==> IsLexeme(LinesTokens(lines, n)[k].value)
    decreases |lines|
  {
    if lines != [] {
      var head := LineTokens(lines[0], n);
      var tail := LinesTokens(lines[1..], n + 1);
      var ts := LinesTokens(lines, n);
      assert ts == head + tail;
      LinesTokensLexemes(lines[1..], n + 1);
      LineTokensLexemes(lines[0], n);
      forall k | 0 <= k < |ts| ensures IsLexeme(ts[k].value) {
        if k < |head| {
          assert ts[k] == head[k];
        } else {
          assert ts[k] == tail[k - |head|];
        }
      }
    }
  }

  /**
   * Every token's line number is that of an existing line (1-based), line numbers never decrease
   * along the token sequence, and every token text is a non-empty lexeme of the class its first
   * character names (exactly one class, by ClassesDisjoint).
   */
  lemma TokensWellFormed(code: string)
    ensures var ts := TokensOf(code);
            && (forall k :: 0 <= k < |ts| ==> 1 <= ts[k].line <= |SplitLines(code)|)
            && (forall j, k :: 0 <= j < k < |ts| ==> ts[j].line <= ts[k].line)
            && (forall k :: 0 <= k < |ts| ==> IsLexeme(ts[k].value))
  {
    assert TokensOf(code) == LinesTokens(SplitLines(code), 1);
    LinesTokensLines(SplitLines(code), 1);
    LinesTokensLexemes(SplitLines(code), 1);
  }

  /** A line where no character can start a lexeme yields no tokens: such characters are skipped. */
  lemma SkippedLineHasNoTokens(s: string, n: nat)
    requires forall k :: 0 <= k < |s| ==> MatchAt(s, k).None?
    ensures LineTokens(s, n) == []
  {
  }
}
