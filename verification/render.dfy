/**
 * The inverse of the tokenizer: tokens printed back as compact text, and the
 * proof that tokenizing that text gives the tokens back.
 */
module Render {

  import opened Wrappers
  import opened Tokens
  import opened Seqs
  import opened Lexer

  function DigitChar(d: nat): (c: char)
    requires d < 10
    ensures IsDigit(c) && DigitValue(c) == d
  {
    ('0' as int + d) as char
  }

  /** The shortest decimal numeral of `n`. */
  function NatToDigits(n: nat): (d: seq<char>)
    ensures 1 <= |d| && AllDigits(d)
    decreases n
  {
    if n < 10 then [DigitChar(n)] else NatToDigits(n / 10) + [DigitChar(n % 10)]
  }

  /** Reading the numeral of `n` in base 10 gives `n` back. */
  lemma {:induction false} DigitsRoundTrip(n: nat)
    ensures DigitsValue(NatToDigits(n)) == n
    decreases n
  {
    var d := NatToDigits(n);
    if n < 10 {
      assert d[..0] == [];
    } else {
      DigitsRoundTrip(n / 10);
      assert d[..|d| - 1] == NatToDigits(n / 10);
    }
  }

  /** A string lexeme the tokenizer reproduces exactly: quoted, with no quote or terminator inside. */
  predicate WellFormedText(text: seq<char>) {
    && 2 <= |text|
    && text[0] == '"'
    && text[|text| - 1] == '"'
    && forall k :: 1 <= k < |text| - 1 ==> text[k] != '"' && text[k] != Terminator
  }

  predicate Renderable(t: Token) {
    t.String? ==> WellFormedText(t.text)
  }

  /** The characters that spell one token; only a number's spelling starts with a digit. */
  function Lexeme(t: Token): (l: seq<char>)
    ensures 1 <= |l| && l[0] != Terminator && !IsWhitespace(l[0])
    ensures IsDigit(l[0]) <==> t.Number?
  {
    match t
    case ObjectStart => "{"
    case ObjectEnd => "}"
    case ArrayStart => "["
    case ArrayEnd => "]"
    case NameSeparator => ":"
    case ValueSeparator => ","
    case String(text) => if 1 <= |text| && text[0] == '"' then text else "\"\""
    case Number(n) => NatToDigits(n)
    case Null => "null"
    case True => "true"
    case False => "false"
  }

  /** What follows the first token's lexeme: a blank when two numbers meet, whose digits would run together, else nothing. */
  function Gap(ts: seq<Token>): (g: seq<char>)
    requires |ts| > 0
    ensures g == [] || g == " "
  {
    if 1 < |ts| && ts[0].Number? && ts[1].Number? then " " else []
  }

  /** The tokens printed compactly: lexemes back to back, with a blank only between two numbers. */
  function Render(ts: seq<Token>): seq<char> {
    if |ts| == 0 then [] else Lexeme(ts[0]) + Gap(ts) + Render(ts[1..])
  }

  /** The buffer holds the lexeme of `t` at `i`, and no digit continues a number's lexeme. */
  ghost predicate SpelledAt(s: seq<char>, i: nat, t: Token) {
    && i + |Lexeme(t)| <= |s|
    && s[i..i + |Lexeme(t)|] == Lexeme(t)
    && (t.Number? ==> i + |Lexeme(t)| == |s| || !IsDigit(s[i + |Lexeme(t)|]))
  }

  /** A lexeme not continued by a digit is scanned back as exactly its token. */
  lemma StepOnLexeme(s: seq<char>, i: nat, t: Token)
    requires Renderable(t) && SpelledAt(s, i, t)
    ensures s[i] != Terminator
    ensures Step(s, i) == Success(Lexed(Some(t), i + |Lexeme(t)|))
  {
    assert s[i] == s[i..i + |Lexeme(t)|][0];
    match t
    case String(text) =>
      StepOnString(s, i, text);
    case Number(v) =>
      StepOnNumber(s, i, v);
    case Null =>
      StepLiteral(s, i);
    case True =>
      StepLiteral(s, i);
    case False =>
      StepLiteral(s, i);
    case _ =>
      StepStructural(s, i);
  }

  /** A well-formed string lexeme is scanned as exactly itself, whatever follows it. */
  lemma StepOnString(s: seq<char>, i: nat, text: seq<char>)
    requires WellFormedText(text)
    requires i + |text| <= |s| && s[i..i + |text|] == text
    ensures s[i] != Terminator && Step(s, i) == Success(Lexed(Some(String(text)), i + |text|))
  {
    var e := i + |text| - 1;
    assert s[i] == text[0];
    assert s[e] == text[|text| - 1];
    forall k | i + 1 <= k < e
      ensures s[k] != '"' && s[k] != Terminator
    {
      assert s[k] == text[k - i];
    }
    StringRunEndAt(s, i + 1, e);
    assert s[i..e + 1] == text;
  }

  /** The string run stops at the first quote or terminator. */
  lemma StringRunEndAt(s: seq<char>, i: nat, e: nat)
    requires i <= e < |s| && (s[e] == '"' || s[e] == Terminator)
    requires forall k :: i <= k < e ==> s[k] != '"' && s[k] != Terminator
    ensures StringRunEnd(s, i) == e
  {
  }

  /** The numeral of `v`, not continued by a digit, is scanned as the number `v`. */
  lemma StepOnNumber(s: seq<char>, i: nat, v: nat)
    requires i + |NatToDigits(v)| <= |s| && s[i..i + |NatToDigits(v)|] == NatToDigits(v)
    requires i + |NatToDigits(v)| == |s| || !IsDigit(s[i + |NatToDigits(v)|])
    ensures s[i] != Terminator && Step(s, i) == Success(Lexed(Some(Number(v)), i + |NatToDigits(v)|))
  {
    var d := NatToDigits(v);
    var e := i + |d|;
    forall k | i <= k < e
      ensures IsDigit(s[k])
    {
      assert s[k] == d[k - i];
    }
    assert s[i] == d[0];
    StepNumber(s, i);
    DigitsRoundTrip(v);
  }

  /** All tokens of `ts` can be rendered and scanned back. */
  predicate AllRenderable(ts: seq<Token>) {
    forall k :: 0 <= k < |ts| ==> Renderable(ts[k])
  }

  /** The buffer holds the gap `g` at `n`. */
  ghost predicate GapAt(s: seq<char>, n: nat, g: seq<char>) {
    n + |g| <= |s| && s[n..n + |g|] == g
  }

  /**
   * Rendering starts with the first token's lexeme, not continued by a digit
   * when it is a number, then the gap, then the rest rendered.
   */
  lemma RenderedHead(pre: seq<char>, ts: seq<Token>)
    requires |ts| > 0
    ensures SpelledAt(pre + Render(ts), |pre|, ts[0])
    ensures GapAt(pre + Render(ts), |pre| + |Lexeme(ts[0])|, Gap(ts))
    ensures pre + Render(ts) == (pre + Lexeme(ts[0]) + Gap(ts)) + Render(ts[1..])
  {
    var l := Lexeme(ts[0]);
    var g := Gap(ts);
    var rest := Render(ts[1..]);
    var s := pre + Render(ts);
    assert Render(ts) == l + g + rest;
    ConcatAssoc(l, g, rest);
    ConcatAssoc(pre, l, g + rest);
    WordAt(pre, l, g + rest);
    ConcatAssoc(pre + l, g, rest);
    WordAt(pre + l, g, rest);
    if ts[0].Number? && |ts| > 1 && g == [] {
      assert ts[1..][0] == ts[1];
      assert rest == Lexeme(ts[1]) + Gap(ts[1..]) + Render(ts[1..][1..]);
      assert (g + rest)[0] == Lexeme(ts[1])[0];
    }
  }

  /** A word placed after a prefix sits right after it, and what follows the word comes next. */
  lemma WordAt(pre: seq<char>, l: seq<char>, rest: seq<char>)
    ensures (pre + l + rest)[|pre|..|pre| + |l|] == l
    ensures |rest| > 0 ==> (pre + l + rest)[|pre| + |l|] == rest[0]
  {
    var s := pre + l + rest;
    assert s[|pre|..|pre| + |l|] == l by {
      forall k | 0 <= k < |l|
        ensures s[|pre|..|pre| + |l|][k] == l[k]
      {
        assert s[|pre| + k] == l[k];
      }
    }
  }

  lemma RenderableTail(ts: seq<Token>)
    requires AllRenderable(ts) && |ts| > 0
    ensures Renderable(ts[0]) && AllRenderable(ts[1..])
  {
    forall k | 0 <= k < |ts[1..]|
      ensures Renderable(ts[1..][k])
    {
      assert ts[1..][k] == ts[k + 1];
    }
  }

  /** A lexeme not continued by a digit contributes just its token to the scan. */
  lemma ScanLexeme(s: seq<char>, i: nat, t: Token, m: nat, rest: seq<Token>)
    requires Renderable(t) && SpelledAt(s, i, t)
    requires m == i + |Lexeme(t)| && Scan(s, m) == Success(rest)
    ensures Scan(s, i) == Success([t] + rest)
  {
    StepOnLexeme(s, i, t);
    assert Emitted(Some(t)) == [t];
  }

  /** A gap contributes no token. */
  lemma ScanGap(s: seq<char>, m: nat, g: seq<char>, n: nat)
    requires g == [] || g == " "
    requires GapAt(s, m, g) && n == m + |g|
    ensures Scan(s, m) == Scan(s, n)
  {
    if g == " " {
      assert s[m] == s[m..m + 1][0];
      ScanSkipsWhitespace(s, m);
    }
  }

  /** Whatever precedes it, the rendering of renderable tokens is scanned back into those tokens. */
  lemma {:induction false} ScanRendered(pre: seq<char>, ts: seq<Token>)
    requires AllRenderable(ts)
    ensures Scan(pre + Render(ts), |pre|) == Success(ts)
    decreases |ts|
  {
    if |ts| == 0 {
      assert pre + Render(ts) == pre;
    } else {
      var pre' := pre + Lexeme(ts[0]) + Gap(ts);
      RenderableTail(ts);
      ScanRendered(pre', ts[1..]);
      ScanRenderedCons(pre, ts, pre');
    }
  }

  /** The rest scanned back after the first lexeme and gap gives the whole rendering scanned back. */
  lemma ScanRenderedCons(pre: seq<char>, ts: seq<Token>, pre': seq<char>)
    requires |ts| > 0 && Renderable(ts[0]) && pre' == pre + Lexeme(ts[0]) + Gap(ts)
    requires Scan(pre' + Render(ts[1..]), |pre'|) == Success(ts[1..])
    ensures Scan(pre + Render(ts), |pre|) == Success(ts)
  {
    var s := pre + Render(ts);
    var m := |pre| + |Lexeme(ts[0])|;
    RenderedHead(pre, ts);
    ScanGap(s, m, Gap(ts), |pre'|);
    ScanLexeme(s, |pre|, ts[0], m, ts[1..]);
    HeadTail(ts);
  }

  /** Tokenizing the rendering of well-formed tokens yields those same tokens. */
  lemma TokenizeRender(ts: seq<Token>)
    requires AllRenderable(ts)
    ensures Tokenize(Render(ts)) == Success(ts)
  {
    ScanRendered([], ts);
    assert [] + Render(ts) == Render(ts);
  }

  /** Lexemes are printed back to back; only two adjacent numbers are kept apart by a blank. */
  lemma RenderIsCompact()
    ensures Render([ObjectStart, String("\"a\""), NameSeparator, Number(1), ObjectEnd]) == "{\"a\":1}"
    ensures Render([Number(1), Number(2)]) == "1 2"
  {
  }

  /**
   * The compact rendering of `[1]` is read back by the corrected tokenizer but
   * not by the loop as written, which loses the `]` after the number.
   */
  lemma AsWrittenMisreadsRendering()
    ensures Render([ArrayStart, Number(1), ArrayEnd]) == "[1]"
    ensures Tokenize(Render([ArrayStart, Number(1), ArrayEnd])) == Success([ArrayStart, Number(1), ArrayEnd])
    ensures TokenizeAsWritten(Render([ArrayStart, Number(1), ArrayEnd])) != Success([ArrayStart, Number(1), ArrayEnd])
  {
    assert NatToDigits(1) == "1";
    assert Render([ArrayEnd]) == "]";
    assert Render([Number(1), ArrayEnd]) == "1]";
    AsWrittenLosesClosingBracket();
  }
}
