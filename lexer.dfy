/**
 * The scanner: turns source text into tokens and lexical errors while
 * keeping a line counter.
 *
 * StepAt states which rule fires at a position, in the scanner's priority
 * order: blanks first, then the rule functions in the order the scanner
 * declares them (newline run, block comment, line comment, float, int,
 * string, char, identifier/keyword), then the operator rules, a longer
 * operator before its one-character prefix; a character no rule accepts is
 * reported and skipped. Scan repeats StepAt to the end of the text, and the
 * method Tokenize is the scanning loop, proved to compute Scan.
 */
module Lexer {
  import opened Tokens

  datatype LexError = LexError(ch: char, line: nat)

  /** Everything a scan produces: tokens, errors, and the final line counter. */
  datatype Scanned = Scanned(tokens: seq<Token>, errors: seq<LexError>, line: nat)

  /**
   * One step of the scanner: where scanning resumes, the line counter
   * afterwards, and at most one token or one error.
   */
  datatype Step = Step(next: nat, line: nat, token: Option<Token>, error: Option<LexError>)

  predicate IsNewline(c: char) { c == '\n' }
  predicate NotNewline(c: char) { c != '\n' }
  predicate IsBlank(c: char) { c == ' ' || c == '\t' }

  /** The length of the longest run of characters satisfying p that starts at i. */
  function Span(src: string, i: nat, p: char -> bool): (n: nat)
    requires i <= |src|
    ensures i + n <= |src|
    ensures forall k :: i <= k < i + n ==> p(src[k])
    ensures i + n == |src| || !p(src[i + n])
    decreases |src| - i
  {
    if i < |src| && p(src[i]) then 1 + Span(src, i + 1, p) else 0
  }

  function CountNewlines(s: string): (n: nat)
    ensures n <= |s|
    ensures (forall k :: 0 <= k < |s| ==> s[k] == '\n') ==> n == |s|
  {
    if s == [] then 0 else (if s[0] == '\n' then 1 else 0) + CountNewlines(s[1..])
  }

  /** The number a run of decimal digits denotes. */
  function DecimalValue(s: string): (r: nat)
    requires forall k :: 0 <= k < |s| ==> IsDigit(s[k])
    ensures r == 0 <==> forall k :: 0 <= k < |s| ==> s[k] == '0'
  {
    if s == [] then 0
    else
      var last := s[|s| - 1];
      assert IsDigit(last);
      10 * DecimalValue(s[..|s| - 1]) + (last as int - '0' as int)
  }

  predicate StartsWith(src: string, i: nat, prefix: string)
  {
    i + |prefix| <= |src| && src[i..i + |prefix|] == prefix
  }

  predicate IsCloser(src: string, k: nat)
  {
    k + 1 < |src| && src[k] == '*' && src[k + 1] == '/'
  }

  /** The index of the first comment closer at or after i, if there is one. */
  function CloserFrom(src: string, i: nat): (r: Option<nat>)
    requires i <= |src|
    ensures r.Some? ==> i <= r.value && IsCloser(src, r.value)
    ensures r.Some? ==> forall k :: i <= k < r.value ==> !IsCloser(src, k)
    ensures r.None? ==> forall k :: i <= k ==> !IsCloser(src, k)
    decreases |src| - i
  {
    if i + 1 >= |src| then None
    else if IsCloser(src, i) then Some(i)
    else CloserFrom(src, i + 1)
  }

  /**
   * Where a string literal whose opening quote precedes i ends (just past
   * its closing quote): any character but a quote or a backslash stands for
   * itself, a backslash escapes any character but a newline.
   */
  function StringEnd(src: string, i: nat): (r: Option<nat>)
    requires i <= |src|
    ensures r.Some? ==> i < r.value <= |src| && src[r.value - 1] == '"'
    decreases |src| - i
  {
    if i == |src| then None
    else if src[i] == '"' then Some(i + 1)
    else if src[i] == '\\' then
      if i + 1 < |src| && src[i + 1] != '\n' then StringEnd(src, i + 2) else None
    else StringEnd(src, i + 1)
  }

  /** Where a character literal starting at pos ends: one plain or escaped character between quotes. */
  function CharEnd(src: string, pos: nat): (r: Option<nat>)
    requires pos < |src|
    ensures r.Some? ==> pos + 3 <= r.value <= pos + 4 && r.value <= |src|
    ensures r.Some? ==> src[pos] == '\'' && src[r.value - 1] == '\''
    ensures r == Some(pos + 3) <==>
      pos + 2 < |src| && src[pos] == '\'' && src[pos + 1] != '\'' && src[pos + 1] != '\\' && src[pos + 2] == '\''
    ensures r == Some(pos + 4) <==>
      pos + 3 < |src| && src[pos] == '\'' && src[pos + 1] == '\\' && src[pos + 2] != '\n' && src[pos + 3] == '\''
  {
    if src[pos] != '\'' then None
    else if pos + 2 < |src| && src[pos + 1] != '\'' && src[pos + 1] != '\\' && src[pos + 2] == '\'' then Some(pos + 3)
    else if pos + 3 < |src| && src[pos + 1] == '\\' && src[pos + 2] != '\n' && src[pos + 3] == '\'' then Some(pos + 4)
    else None
  }

  function TwoCharOperator(a: char, b: char): (r: Option<Kind>)
    ensures r.Some? ==> IsOperator(r.value) && OperatorText(r.value) == [a, b]
    ensures r.None? ==> forall k :: IsOperator(k) ==> OperatorText(k) != [a, b]
  {
    match [a, b]
    case "++" => Some(Increment)
    case "--" => Some(Decrement)
    case "==" => Some(Equal)
    case "!=" => Some(NotEqual)
    case "<=" => Some(LessEqual)
    case ">=" => Some(GreaterEqual)
    case "+=" => Some(PlusAssign)
    case "-=" => Some(MinusAssign)
    case "*=" => Some(TimesAssign)
    case "/=" => Some(DivideAssign)
    case "%=" => Some(ModAssign)
    case "&&" => Some(And)
    case "||" => Some(Or)
    case _ => None
  }

  function OneCharOperator(c: char): (r: Option<Kind>)
    ensures r.Some? ==> IsOperator(r.value) && OperatorText(r.value) == [c]
    ensures r.None? ==> forall k :: IsOperator(k) ==> OperatorText(k) != [c]
  {
    match c
    case '+' => Some(Plus)
    case '-' => Some(Minus)
    case '*' => Some(Times)
    case '/' => Some(Divide)
    case '%' => Some(Mod)
    case '=' => Some(Assign)
    case '<' => Some(Less)
    case '>' => Some(Greater)
    case '!' => Some(Not)
    case '(' => Some(LParen)
    case ')' => Some(RParen)
    case '{' => Some(LBrace)
    case '}' => Some(RBrace)
    case '[' => Some(LBracket)
    case ']' => Some(RBracket)
    case ';' => Some(Semicolon)
    case ',' => Some(Comma)
    case _ => None
  }

  function Skip(next: nat, line: nat): Step { Step(next, line, None, None) }

  function Emit(next: nat, t: Token): Step { Step(next, t.line, Some(t), None) }

  /** The token an identifier-shaped lexeme becomes: its keyword, or an ID. */
  function Word(lexeme: string, line: nat): (t: Token)
    ensures IsIdentifier(lexeme) ==> ValidToken(t)
  {
    var k := KeywordKind(lexeme);
    Token(if k.Some? then k.value else Id, Text(lexeme), line)
  }

  /** The rule that fires at pos, in the scanner's priority order, and what it does. */
  function StepAt(src: string, pos: nat, line: nat): (s: Step)
    requires pos < |src|
    ensures pos < s.next <= |src|
    ensures line <= s.line
    ensures s.token.Some? ==> s.error.None? && s.line == line && s.token.value.line == line
    ensures s.error.Some? ==> s.error.value == LexError(src[pos], line) && s.next == pos + 1 && s.line == line
    ensures s.token.Some? ==> ValidToken(s.token.value)
  {
    var c := src[pos];
    if IsBlank(c) then Skip(pos + 1, line)
    else if c == '\n' then
      var n := Span(src, pos, IsNewline);
      Skip(pos + n, line + n)
    else if StartsWith(src, pos, "/*") && CloserFrom(src, pos + 2).Some? then
      var close := CloserFrom(src, pos + 2).value;
      Skip(close + 2, line + CountNewlines(src[pos..close + 2]))
    else if StartsWith(src, pos, "//") then
      Skip(pos + 2 + Span(src, pos + 2, NotNewline), line)
    else if IsDigit(c) then NumberAt(src, pos, line)
    else if c == '"' && StringEnd(src, pos + 1).Some? then
      var e := StringEnd(src, pos + 1).value;
      Emit(e, Token(StringLiteral, Text(src[pos..e]), line))
    else if CharEnd(src, pos).Some? then
      var e := CharEnd(src, pos).value;
      Emit(e, Token(CharLiteral, Text(src[pos..e]), line))
    else if IsIdStart(c) then WordAt(src, pos, line)
    else OperatorAt(src, pos, line)
  }

  /** The longest identifier-shaped lexeme at pos, as a keyword or an ID. */
  function WordAt(src: string, pos: nat, line: nat): (s: Step)
    requires pos < |src| && IsIdStart(src[pos])
    ensures pos < s.next <= |src| && s.line == line && s.error.None?
    ensures IsIdentifier(src[pos..s.next]) && (s.next == |src| || !IsIdChar(src[s.next]))
    ensures s.token == Some(Word(src[pos..s.next], line)) && ValidToken(s.token.value)
  {
    var n := Span(src, pos, IsIdChar);
    assert IsIdentifier(src[pos..pos + n]);
    Emit(pos + n, Word(src[pos..pos + n], line))
  }

  /**
   * A float literal when the digits at pos are followed by a dot and a
   * digit, an integer literal otherwise; the digit runs are taken whole.
   */
  function NumberAt(src: string, pos: nat, line: nat): (s: Step)
    requires pos < |src| && IsDigit(src[pos])
    ensures pos < s.next <= |src| && s.line == line && s.error.None?
    ensures s.token.Some? && s.token.value.line == line && ValidToken(s.token.value)
  {
    var d := Span(src, pos, IsDigit);
    if pos + d + 1 < |src| && src[pos + d] == '.' && IsDigit(src[pos + d + 1]) then
      var f := Span(src, pos + d + 1, IsDigit);
      assert IsDigits(src[pos..pos + d]);
      assert IsDigits(src[pos + d + 1..pos + d + 1 + f]);
      Emit(pos + d + 1 + f, Token(FloatLiteral, Decimal(src[pos..pos + d], src[pos + d + 1..pos + d + 1 + f]), line))
    else
      Emit(pos + d, Token(IntLiteral, Number(DecimalValue(src[pos..pos + d])), line))
  }

  /**
   * The operator rules, longest first, then the error rule: a character no
   * rule accepts is reported and skipped.
   */
  function OperatorAt(src: string, pos: nat, line: nat): (s: Step)
    requires pos < |src|
    ensures pos < s.next <= |src| && s.line == line
    ensures s.token.Some? ==> s.error.None? && s.token.value.line == line && ValidToken(s.token.value)
    ensures s.error.Some? ==> s.error.value == LexError(src[pos], line) && s.next == pos + 1
  {
    var c := src[pos];
    if pos + 1 < |src| && TwoCharOperator(c, src[pos + 1]).Some? then
      assert src[pos..pos + 2] == [c, src[pos + 1]];
      Emit(pos + 2, Token(TwoCharOperator(c, src[pos + 1]).value, Text(src[pos..pos + 2]), line))
    else if OneCharOperator(c).Some? then
      assert src[pos..pos + 1] == [c];
      Emit(pos + 1, Token(OneCharOperator(c).value, Text(src[pos..pos + 1]), line))
    else
      Step(pos + 1, line, None, Some(LexError(c, line)))
  }

  /** Scanning a non-empty rest is one step followed by the scan of what follows it. */
  lemma ScanUnfold(src: string, pos: nat, line: nat)
    requires pos < |src|
    ensures var s := StepAt(src, pos, line);
      Scan(src, pos, line) == Scanned(OptionSeq(s.token) + Scan(src, s.next, s.line).tokens,
                                      OptionSeq(s.error) + Scan(src, s.next, s.line).errors,
                                      Scan(src, s.next, s.line).line)
  {
  }

  function OptionSeq<T>(o: Option<T>): seq<T>
  {
    if o.Some? then [o.value] else []
  }

  /** Scanning from pos to the end of the text with the line counter at line. */
  function Scan(src: string, pos: nat, line: nat): (r: Scanned)
    requires pos <= |src|
    ensures line <= r.line
    ensures |r.tokens| + |r.errors| <= |src| - pos
    decreases |src| - pos
  {
    if pos == |src| then Scanned([], [], line)
    else
      var s := StepAt(src, pos, line);
      var rest := Scan(src, s.next, s.line);
      Scanned(OptionSeq(s.token) + rest.tokens, OptionSeq(s.error) + rest.errors, rest.line)
  }

  /** The whole text, with the line counter starting at 1. */
  function Lex(src: string): (r: Scanned)
    ensures 1 <= r.line
    ensures |r.tokens| + |r.errors| <= |src|
  {
    Scan(src, 0, 1)
  }

  /**
   * One pull from the scanner: applies the first rule that matches at pos,
   * raising the line counter in place for newline runs and block comments.
   * It tries the rules in the same order as StepAt, one branch per rule, and
   * its ensures is that equality.
   */
  method Advance(src: string, pos: nat, line: nat) returns (next: nat, newLine: nat, token: Option<Token>, error: Option<LexError>)
    requires pos < |src|
    ensures Step(next, newLine, token, error) == StepAt(src, pos, line)
  {
    var c := src[pos];
    next, newLine, token, error := pos + 1, line, None, None;
    if IsBlank(c) {
    } else if c == '\n' {
      var n := Span(src, pos, IsNewline);
      newLine := line + n;
      next := pos + n;
    } else if StartsWith(src, pos, "/*") && CloserFrom(src, pos + 2).Some? {
      var close := CloserFrom(src, pos + 2).value;
      newLine := line + CountNewlines(src[pos..close + 2]);
      next := close + 2;
    } else if StartsWith(src, pos, "//") {
      next := pos + 2 + Span(src, pos + 2, NotNewline);
    } else if IsDigit(c) {
      var s := NumberAt(src, pos, line);
      next, token := s.next, s.token;
    } else if c == '"' && StringEnd(src, pos + 1).Some? {
      next := StringEnd(src, pos + 1).value;
      token := Some(Token(StringLiteral, Text(src[pos..next]), line));
    } else if CharEnd(src, pos).Some? {
      next := CharEnd(src, pos).value;
      token := Some(Token(CharLiteral, Text(src[pos..next]), line));
    } else if IsIdStart(c) {
      var s := WordAt(src, pos, line);
      next, token := s.next, s.token;
    } else {
      var s := OperatorAt(src, pos, line);
      next, token, error := s.next, s.token, s.error;
    }
  }

  lemma AppendAssociates<T>(a: seq<T>, b: seq<T>, c: seq<T>)
    ensures a + (b + c) == (a + b) + c
  {
  }

  lemma ValidTokensAppend(toks: seq<Token>, t: Token)
    requires ValidTokens(toks) && ValidToken(t)
    ensures ValidTokens(toks + [t])
  {
    var all := toks + [t];
    forall i | 0 <= i < |all|
      ensures ValidToken(all[i])
    {
      if i < |toks| {
        assert all[i] == toks[i];
        assert ValidToken(toks[i]);
      }
    }
  }

  /**
   * The scanning loop: pulls one rule match after another, raising the line
   * counter in place, until the text is exhausted.
   */
  method Tokenize(src: string) returns (tokens: seq<Token>, errors: seq<LexError>, line: nat)
    ensures Scanned(tokens, errors, line) == Lex(src)
    ensures ValidTokens(tokens)
  {
    var pos := 0;
    line := 1;
    tokens, errors := [], [];
    while pos < |src|
      invariant pos <= |src|
      invariant ValidTokens(tokens)
      invariant Lex(src).tokens == tokens + Scan(src, pos, line).tokens
      invariant Lex(src).errors == errors + Scan(src, pos, line).errors
      invariant Lex(src).line == Scan(src, pos, line).line
      decreases |src| - pos
    {
      ScanUnfold(src, pos, line);
      var next, newLine, token, error := Advance(src, pos, line);
      var rest := Scan(src, next, newLine);
      AppendAssociates(tokens, OptionSeq(token), rest.tokens);
      AppendAssociates(errors, OptionSeq(error), rest.errors);
      if token.Some? {
        ValidTokensAppend(tokens, token.value);
      }
      tokens := tokens + OptionSeq(token);
      errors := errors + OptionSeq(error);
      pos, line := next, newLine;
    }
  }
}
