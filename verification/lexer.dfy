/**
 * The tokenizer written inline in `main`: one left-to-right pass over the
 * character buffer that turns it into tokens or stops at the first character
 * no production matches.
 */
module Lexer {

  import opened Wrappers
  import opened Tokens

  /** The character that terminates the buffer; scanning stops at it. */
  const Terminator: char := '\0'

  /** An input character that starts no token, with its offset in the buffer. */
  datatype LexError = UnexpectedCharacter(offset: nat, ch: char)

  /** The outcome of one scan step: the token emitted, if any, and where scanning resumes. */
  datatype Lexed = Lexed(token: Option<Token>, next: nat)

  predicate IsDigit(c: char) {
    '0' <= c <= '9'
  }

  predicate IsWhitespace(c: char) {
    c == ' ' || c == '\t' || c == '\n' || c == '\r'
  }

  predicate AllDigits(d: seq<char>) {
    forall k :: 0 <= k < |d| ==> IsDigit(d[k])
  }

  function DigitValue(c: char): (v: nat)
    requires IsDigit(c)
    ensures v < 10
  {
    c as int - '0' as int
  }

  /** The natural number a run of decimal digits denotes, read most significant digit first. */
  function DigitsValue(d: seq<char>): nat
    requires AllDigits(d)
  {
    if |d| == 0 then 0 else 10 * DigitsValue(d[..|d| - 1]) + DigitValue(d[|d| - 1])
  }

  /** The end of the maximal run of digits that starts at `i`. */
  function DigitRunEnd(s: seq<char>, i: nat): (j: nat)
    requires i <= |s|
    ensures i <= j <= |s|
    ensures forall k :: i <= k < j ==> IsDigit(s[k])
    ensures j == |s| || !IsDigit(s[j])
    decreases |s| - i
  {
    if i < |s| && IsDigit(s[i]) then DigitRunEnd(s, i + 1) else i
  }

  /** The first quote or terminator at or after `i`, or the end of the buffer. */
  function StringRunEnd(s: seq<char>, i: nat): (j: nat)
    requires i <= |s|
    ensures i <= j <= |s|
    ensures forall k :: i <= k < j ==> s[k] != '"' && s[k] != Terminator
    ensures j == |s| || s[j] == '"' || s[j] == Terminator
    decreases |s| - i
  {
    if i < |s| && s[i] != '"' && s[i] != Terminator then StringRunEnd(s, i + 1) else i
  }

  /** `word` occurs in full at offset `i`, as a bounded string comparison finds it. */
  predicate LiteralAt(s: seq<char>, i: nat, word: seq<char>) {
    i + |word| <= |s| && s[i..i + |word|] == word
  }

  /** Some production of the tokenizer accepts the character at `i`. */
  predicate Recognized(s: seq<char>, i: nat)
    requires i < |s|
  {
    || StructuralToken(s[i]).Some?
    || s[i] == '"'
    || IsDigit(s[i])
    || LiteralAt(s, i, "null")
    || LiteralAt(s, i, "true")
    || LiteralAt(s, i, "false")
    || IsWhitespace(s[i])
  }

  /**
   * `text` is the string lexeme that starts with the quote at `i`: it runs up to
   * and including the next quote, and scanning resumes after that quote; or,
   * when no quote follows, up to (not including) the next terminator or the
   * end of the buffer, and scanning resumes there.
   */
  ghost predicate StringLexeme(s: seq<char>, i: nat, text: seq<char>, next: nat) {
    && 1 <= |text|
    && i + |text| <= |s|
    && s[i..i + |text|] == text
    && text[0] == '"'
    && (forall k :: 1 <= k < |text| - 1 ==> text[k] != '"' && text[k] != Terminator)
    && if 2 <= |text| && text[|text| - 1] == '"' then
         next == i + |text|
       else
         && (|text| == 1 || text[|text| - 1] != Terminator)
         && next == i + |text|
         && (next == |s| || s[next] == Terminator)
  }

  /**
   * One pass of the scanning loop body, at an offset that holds no terminator:
   * it succeeds exactly when some production accepts the character, and always
   * makes progress. What each production emits is stated by the lemmas below.
   */
  function Step(s: seq<char>, i: nat): (r: Result<Lexed, LexError>)
    requires i < |s| && s[i] != Terminator
    ensures r.Success? ==> i < r.value.next <= |s|
    ensures r.Success? <==> Recognized(s, i)
    ensures r.Failure? ==> r.error == UnexpectedCharacter(i, s[i])
  {
    var c := s[i];
    if StructuralToken(c).Some? then
      Success(Lexed(StructuralToken(c), i + 1))
    else if c == '"' then
      var j := StringRunEnd(s, i + 1);
      if j < |s| && s[j] == '"' then
        Success(Lexed(Some(String(s[i..j + 1])), j + 1))
      else
        Success(Lexed(Some(String(s[i..j])), j))
    else if IsDigit(c) then
      var j := DigitRunEnd(s, i);
      Success(Lexed(Some(Number(DigitsValue(s[i..j]))), j))
    else if LiteralAt(s, i, "null") then
      Success(Lexed(Some(Null), i + 4))
    else if LiteralAt(s, i, "true") then
      Success(Lexed(Some(True), i + 4))
    else if LiteralAt(s, i, "false") then
      Success(Lexed(Some(False), i + 5))
    else if IsWhitespace(c) then
      Success(Lexed(None, i + 1))
    else
      Failure(UnexpectedCharacter(i, c))
  }

  /** A structural character is its own token, one character long. */
  lemma StepStructural(s: seq<char>, i: nat)
    requires i < |s| && StructuralToken(s[i]).Some?
    ensures Step(s, i) == Success(Lexed(StructuralToken(s[i]), i + 1))
  {
  }

  /** Whitespace emits nothing and is one character long. */
  lemma StepWhitespace(s: seq<char>, i: nat)
    requires i < |s| && IsWhitespace(s[i])
    ensures Step(s, i) == Success(Lexed(None, i + 1))
  {
    LiteralFirst(s, i);
  }

  /** A literal word that occurs at `i` starts with the character at `i`. */
  lemma LiteralFirst(s: seq<char>, i: nat)
    requires i < |s|
    ensures LiteralAt(s, i, "null") ==> s[i] == 'n'
    ensures LiteralAt(s, i, "true") ==> s[i] == 't'
    ensures LiteralAt(s, i, "false") ==> s[i] == 'f'
  {
    if i + 4 <= |s| {
      assert s[i..i + 4][0] == s[i];
    }
    if i + 5 <= |s| {
      assert s[i..i + 5][0] == s[i];
    }
  }

  /** A quote starts a string token whose text is the string lexeme at `i`. */
  lemma StepString(s: seq<char>, i: nat)
    requires i < |s| && s[i] == '"'
    ensures var r := Step(s, i);
            && r.Success? && r.value.token.Some? && r.value.token.value.String?
            && StringLexeme(s, i, r.value.token.value.text, r.value.next)
  {
    var j := StringRunEnd(s, i + 1);
    if j < |s| && s[j] == '"' {
      var text := s[i..j + 1];
      assert text[|text| - 1] == s[j];
      forall k | 1 <= k < |text| - 1
        ensures text[k] != '"' && text[k] != Terminator
      {
        assert text[k] == s[i + k];
      }
    } else {
      var text := s[i..j];
      forall k | 1 <= k < |text|
        ensures text[k] != '"' && text[k] != Terminator
      {
        assert text[k] == s[i + k];
      }
    }
  }

  /** A digit starts a number token: the maximal digit run, read in base 10. */
  lemma StepNumber(s: seq<char>, i: nat)
    requires i < |s| && IsDigit(s[i])
    ensures var r := Step(s, i);
            && r.Success?
            && var n := r.value.next;
               && (forall k :: i <= k < n ==> IsDigit(s[k]))
               && (n == |s| || !IsDigit(s[n]))
               && r.value.token == Some(Number(DigitsValue(s[i..n])))
  {
  }

  /** The three literal words are matched in full, with no check of what follows them. */
  lemma StepLiteral(s: seq<char>, i: nat)
    requires i < |s| && s[i] != Terminator
    ensures LiteralAt(s, i, "null") ==> Step(s, i) == Success(Lexed(Some(Null), i + 4))
    ensures LiteralAt(s, i, "true") ==> Step(s, i) == Success(Lexed(Some(True), i + 4))
    ensures LiteralAt(s, i, "false") ==> Step(s, i) == Success(Lexed(Some(False), i + 5))
  {
    if LiteralAt(s, i, "null") || LiteralAt(s, i, "true") || LiteralAt(s, i, "false") {
      assert s[i] == s[i..i + 4][0];
    }
  }

  function Emitted(t: Option<Token>): seq<Token> {
    match t
    case Some(tok) => [tok]
    case None => []
  }

  /**
   * The scanning loop from offset `i`: tokens up to the terminator or the end
   * of the buffer, or the first character no production accepts.
   */
  function Scan(s: seq<char>, i: nat): (r: Result<seq<Token>, LexError>)
    requires i <= |s|
    ensures r.Failure? ==>
              && i <= r.error.offset < |s|
              && s[r.error.offset] == r.error.ch
              && r.error.ch != Terminator
              && !Recognized(s, r.error.offset)
    decreases |s| - i
  {
    if i == |s| || s[i] == Terminator then
      Success([])
    else
      var step :- Step(s, i);
      var rest :- Scan(s, step.next);
      Success(Emitted(step.token) + rest)
  }

  /**
   * The tokenizer: the whole buffer scanned from its first character. It
   * fails only on a character no production accepts, and an empty text has
   * no tokens.
   */
  function Tokenize(s: seq<char>): (r: Result<seq<Token>, LexError>)
    ensures r.Failure? ==> r.error.offset < |s| && r.error.ch == s[r.error.offset] && !Recognized(s, r.error.offset)
    ensures |s| == 0 || s[0] == Terminator ==> r == Success([])
  {
    Scan(s, 0)
  }

  /** Whitespace contributes no token: the scan continues at the next character. */
  lemma ScanSkipsWhitespace(s: seq<char>, i: nat)
    requires i < |s| && IsWhitespace(s[i])
    ensures Scan(s, i) == Scan(s, i + 1)
  {
    StepWhitespace(s, i);
    if Scan(s, i + 1).Success? {
      assert Emitted(None) + Scan(s, i + 1).value == Scan(s, i + 1).value;
    }
  }

  /** A structural character contributes exactly its own token and one character. */
  lemma ScanStructural(s: seq<char>, i: nat)
    requires i < |s| && StructuralToken(s[i]).Some?
    ensures Scan(s, i).Success? <==> Scan(s, i + 1).Success?
    ensures Scan(s, i).Success? ==> Scan(s, i).value == [StructuralToken(s[i]).value] + Scan(s, i + 1).value
  {
    StepStructural(s, i);
    assert Emitted(StructuralToken(s[i])) == [StructuralToken(s[i]).value];
  }

  /**
   * Every production contributes its token, if any, before the rest of the
   * scan: the scan succeeds exactly when the rest does, and an error further
   * on is the error of the whole scan.
   */
  lemma ScanStep(s: seq<char>, i: nat)
    requires i < |s| && s[i] != Terminator && Step(s, i).Success?
    ensures Scan(s, i).Success? <==> Scan(s, Step(s, i).value.next).Success?
    ensures Scan(s, i).Success? ==> Scan(s, i).value == Emitted(Step(s, i).value.token) + Scan(s, Step(s, i).value.next).value
    ensures Scan(s, i).Failure? ==> Scan(s, i) == Scan(s, Step(s, i).value.next)
  {
  }

  /** A rejected character aborts the scan wherever it stands: `1x` is no token stream. */
  lemma TokenizeRejectsAfterNumber()
    ensures Tokenize("1x") == Failure(UnexpectedCharacter(1, 'x'))
  {
    assert DigitRunEnd("1x", 0) == 1;
    ScanRejects("1x", 1);
  }

  /** A character that starts no token aborts the whole scan with an error at its offset. */
  lemma ScanRejects(s: seq<char>, i: nat)
    requires i < |s| && s[i] != Terminator && !Recognized(s, i)
    ensures Scan(s, i) == Failure(UnexpectedCharacter(i, s[i]))
  {
  }

  // The scanning loop exactly as written: the shared `c++` at the bottom of the
  // loop also steps over the character that ended a number, and over the
  // terminator that ended an unterminated string. A closed string ends with
  // the cursor on its closing quote, so there the `c++` lands where the
  // corrected step resumes.

  /**
   * One loop pass as written: the same token as the corrected step, but a
   * number resumes one past the first non-digit, and a string stopped by the
   * terminator resumes one past the terminator.
   */
  function StepAsWritten(s: seq<char>, i: nat): (r: Result<Lexed, LexError>)
    requires i < |s| && s[i] != Terminator
    ensures r.Success? <==> Step(s, i).Success?
    ensures r.Success? ==> r.value.token == Step(s, i).value.token
    ensures r.Success? ==> i < r.value.next <= |s|
    ensures IsDigit(s[i]) ==>
              && r.Success?
              && var n := r.value.next;
                 && (forall k :: i <= k < n - 1 ==> IsDigit(s[k]))
                 && (n == |s| || !IsDigit(s[n - 1]))
    ensures s[i] == '"' ==>
              && r.Success?
              && var e := StringRunEnd(s, i + 1);
                 && (e < |s| && s[e] == '"' ==> r.value.next == Step(s, i).value.next)
                 && (e < |s| && s[e] == Terminator ==> r.value.next == Step(s, i).value.next + 1)
                 && (e == |s| ==> r.value.next == Step(s, i).value.next)
  {
    match Step(s, i)
    case Success(Lexed(Some(Number(v)), j)) =>
      Success(Lexed(Some(Number(v)), if j < |s| then j + 1 else j))
    case Success(Lexed(Some(String(text)), _)) =>
      // the copy loop leaves the cursor on the quote or terminator that stopped it
      var e := StringRunEnd(s, i + 1);
      Success(Lexed(Some(String(text)), if e < |s| then e + 1 else e))
    case other => other
  }

  /**
   * The scanning loop as written, from offset `i`. It fails exactly where the
   * corrected loop would: at a character no production accepts.
   */
  function ScanAsWritten(s: seq<char>, i: nat): (r: Result<seq<Token>, LexError>)
    requires i <= |s|
    ensures r.Failure? ==>
              && i <= r.error.offset < |s|
              && s[r.error.offset] == r.error.ch
              && r.error.ch != Terminator
              && !Recognized(s, r.error.offset)
    ensures i == |s| || s[i] == Terminator ==> r == Success([])
    decreases |s| - i
  {
    if i == |s| || s[i] == Terminator then
      Success([])
    else
      var step :- StepAsWritten(s, i);
      var rest :- ScanAsWritten(s, step.next);
      Success(Emitted(step.token) + rest)
  }

  /** The tokenizer as written: the whole buffer scanned as written from its first character. */
  function TokenizeAsWritten(s: seq<char>): (r: Result<seq<Token>, LexError>)
    ensures r.Failure? ==> r.error.offset < |s| && r.error.ch == s[r.error.offset] && !Recognized(s, r.error.offset)
    ensures |s| == 0 || s[0] == Terminator ==> r == Success([])
  {
    ScanAsWritten(s, 0)
  }

  /**
   * As written, the character right after a digit run is never examined: when
   * it is structural its token is lost.
   */
  lemma AsWrittenSkipsFollower(s: seq<char>, i: nat)
    requires i < |s| && IsDigit(s[i])
    requires DigitRunEnd(s, i) < |s| && StructuralToken(s[DigitRunEnd(s, i)]).Some?
    ensures StepAsWritten(s, i).Success?
    ensures StepAsWritten(s, i).value.next == DigitRunEnd(s, i) + 1
    ensures Step(s, i).Success? && Step(s, i).value.next == DigitRunEnd(s, i)
  {
  }

  /** `[1]` loses its closing bracket as written; the corrected scan keeps it. */
  lemma AsWrittenLosesClosingBracket()
    ensures TokenizeAsWritten("[1]") == Success([ArrayStart, Number(1)])
    ensures Tokenize("[1]") == Success([ArrayStart, Number(1), ArrayEnd])
  {
    var s := "[1]";
    assert DigitRunEnd(s, 1) == 2;
    assert s[1..2] == "1";
    assert DigitsValue("1") == 1 by {
      assert "1"[..0] == [];
    }
    assert Step(s, 1) == Success(Lexed(Some(Number(1)), 2));
    assert StepAsWritten(s, 1) == Success(Lexed(Some(Number(1)), 3));
    assert ScanAsWritten(s, 3) == Success([]);
    assert s[1] != Terminator;
    assert Emitted(Some(Number(1))) + [] == [Number(1)];
    assert ScanAsWritten(s, 1) == Success([Number(1)]);
    assert s[0] == '[' && s[2] == ']';
    assert Step(s, 2) == Success(Lexed(Some(ArrayEnd), 3));
    assert Scan(s, 3) == Success([]);
    assert Emitted(Some(ArrayEnd)) + [] == [ArrayEnd];
    assert Scan(s, 2) == Success([ArrayEnd]);
    assert Emitted(Some(Number(1))) + [ArrayEnd] == [Number(1), ArrayEnd];
    assert Scan(s, 1) == Success([Number(1), ArrayEnd]);
    assert Step(s, 0) == Success(Lexed(Some(ArrayStart), 1));
    assert StepAsWritten(s, 0) == Success(Lexed(Some(ArrayStart), 1));
    assert Emitted(Some(ArrayStart)) + [Number(1)] == [ArrayStart, Number(1)];
    assert Emitted(Some(ArrayStart)) + [Number(1), ArrayEnd] == [ArrayStart, Number(1), ArrayEnd];
  }

  /**
   * As written, an unterminated string stopped by the terminator steps over it
   * and scanning goes on beyond the end of the text; the corrected scan stops.
   */
  lemma AsWrittenReadsPastTerminator()
    ensures TokenizeAsWritten("\"a\0{") == Success([String("\"a"), ObjectStart])
    ensures Tokenize("\"a\0{") == Success([String("\"a")])
  {
    var s := "\"a\0{";
    assert StringRunEnd(s, 1) == 2;
    assert s[0..2] == "\"a";
    assert Step(s, 0) == Success(Lexed(Some(String("\"a")), 2));
    assert StepAsWritten(s, 0) == Success(Lexed(Some(String("\"a")), 3));
    assert s[2] == Terminator && s[3] == '{';
    assert Step(s, 3) == Success(Lexed(Some(ObjectStart), 4));
    assert StepAsWritten(s, 3) == Success(Lexed(Some(ObjectStart), 4));
    assert ScanAsWritten(s, 4) == Success([]);
    assert Emitted(Some(ObjectStart)) + [] == [ObjectStart];
    assert ScanAsWritten(s, 3) == Success([ObjectStart]);
    assert Emitted(Some(String("\"a"))) + [ObjectStart] == [String("\"a"), ObjectStart];
    assert Scan(s, 2) == Success([]);
    assert Emitted(Some(String("\"a"))) + [] == [String("\"a")];
  }

  /** A closed string followed by the terminator ends the scan as written too: only the unterminated string overshoots. */
  lemma AsWrittenStopsAfterClosedString()
    ensures TokenizeAsWritten("\"a\"\0{") == Success([String("\"a\"")])
    ensures Tokenize("\"a\"\0{") == Success([String("\"a\"")])
  {
    var s := "\"a\"\0{";
    assert StringRunEnd(s, 1) == 2;
    assert s[0..3] == "\"a\"";
    assert Step(s, 0) == Success(Lexed(Some(String("\"a\"")), 3));
    assert StepAsWritten(s, 0) == Success(Lexed(Some(String("\"a\"")), 3));
    assert s[3] == Terminator;
    assert Emitted(Some(String("\"a\""))) + [] == [String("\"a\"")];
  }

  /**
   * Everything after a terminator is invisible to the scan: scanning the
   * buffer gives what scanning the text before the terminator gives.
   */
  lemma {:induction false} ScanStopsAtTerminator(s: seq<char>, i: nat, t: nat)
    requires i <= t < |s| && s[t] == Terminator
    ensures Scan(s, i) == Scan(s[..t], i)
    decreases |s| - i
  {
    if i < t && s[i] != Terminator {
      StepPrefix(s, i, t);
      if Step(s, i).Success? {
        ScanStopsAtTerminator(s, Step(s, i).value.next, t);
      }
    } else if i < t {
      assert s[..t][i] == s[i];
    }
  }

  /** A step before a terminator reads nothing past it and resumes at the latest on it. */
  lemma StepPrefix(s: seq<char>, i: nat, t: nat)
    requires i < t < |s| && s[t] == Terminator && s[i] != Terminator
    ensures s[..t][i] == s[i]
    ensures Step(s, i) == Step(s[..t], i)
    ensures Step(s, i).Success? ==> Step(s, i).value.next <= t
  {
    var p := s[..t];
    assert p[i] == s[i];
    if StructuralToken(s[i]).Some? {
    } else if s[i] == '"' {
      StringRunPrefix(s, i + 1, t);
      var j := StringRunEnd(s, i + 1);
      PrefixSlice(s, t, i, j);
      if j < t {
        assert p[j] == s[j];
        PrefixSlice(s, t, i, j + 1);
      }
    } else if IsDigit(s[i]) {
      DigitRunPrefix(s, i, t);
      PrefixSlice(s, t, i, DigitRunEnd(s, i));
    } else {
      LiteralPrefix(s, i, t, "null");
      LiteralPrefix(s, i, t, "true");
      LiteralPrefix(s, i, t, "false");
    }
  }

  lemma PrefixSlice(s: seq<char>, t: nat, a: nat, b: nat)
    requires a <= b <= t <= |s|
    ensures s[..t][a..b] == s[a..b]
  {
  }

  lemma {:induction false} StringRunPrefix(s: seq<char>, i: nat, t: nat)
    requires i <= t < |s| && s[t] == Terminator
    ensures StringRunEnd(s, i) == StringRunEnd(s[..t], i) <= t
    decreases t - i
  {
    if i < t {
      assert s[..t][i] == s[i];
      StringRunPrefix(s, i + 1, t);
    }
  }

  lemma {:induction false} DigitRunPrefix(s: seq<char>, i: nat, t: nat)
    requires i <= t < |s| && s[t] == Terminator
    ensures DigitRunEnd(s, i) == DigitRunEnd(s[..t], i) <= t
    decreases t - i
  {
    if i < t {
      assert s[..t][i] == s[i];
      DigitRunPrefix(s, i + 1, t);
    }
  }

  /** A word without a terminator in it that occurs at `i` ends before the terminator at `t`. */
  lemma LiteralPrefix(s: seq<char>, i: nat, t: nat, word: seq<char>)
    requires i < t < |s| && s[t] == Terminator
    requires forall k :: 0 <= k < |word| ==> word[k] != Terminator
    ensures LiteralAt(s, i, word) <==> LiteralAt(s[..t], i, word)
  {
    if LiteralAt(s, i, word) {
      forall k | i <= k < i + |word|
        ensures s[k] != Terminator
      {
        assert s[k] == s[i..i + |word|][k - i];
      }
      PrefixSlice(s, t, i, i + |word|);
    }
    if LiteralAt(s[..t], i, word) {
      PrefixSlice(s, t, i, i + |word|);
    }
  }
}
