/**
 * What the scanner promises, rule by rule and for a whole scan.
 */
module LexerProperties {
  import opened Tokens
  import opened Lexer

  /** A run of newlines produces nothing and raises the line counter by the run's length. */
  lemma NewlineRunStep(src: string, pos: nat, line: nat)
    requires pos < |src| && src[pos] == '\n'
    ensures var s := StepAt(src, pos, line);
      && s.token.None? && s.error.None?
      && s.line == line + (s.next - pos)
      && (forall k :: pos <= k < s.next ==> src[k] == '\n')
      && (s.next == |src| || src[s.next] != '\n')
  {
  }

  /** Spaces and tabs produce nothing and leave the line counter alone. */
  lemma BlankStep(src: string, pos: nat, line: nat)
    requires pos < |src| && (src[pos] == ' ' || src[pos] == '\t')
    ensures StepAt(src, pos, line) == Step(pos + 1, line, None, None)
  {
  }

  /**
   * A block comment ends at the first closer after its opener, produces
   * nothing, and raises the line counter by the newlines inside it.
   */
  lemma BlockCommentStep(src: string, pos: nat, line: nat, close: nat)
    requires StartsWith(src, pos, "/*")
    requires pos + 2 <= close && IsCloser(src, close)
    requires forall k :: pos + 2 <= k < close ==> !IsCloser(src, k)
    ensures StepAt(src, pos, line) == Step(close + 2, line + CountNewlines(src[pos..close + 2]), None, None)
  {
    assert src[pos..pos + 2] == "/*";
    assert src[pos] == '/';
  }

  /** An opener with no closer after it is not a comment: it scans as a division sign. */
  lemma UnclosedCommentStep(src: string, pos: nat, line: nat)
    requires StartsWith(src, pos, "/*")
    requires forall k :: pos + 2 <= k ==> !IsCloser(src, k)
    ensures StepAt(src, pos, line) == Step(pos + 1, line, Some(Token(Divide, Text("/"), line)), None)
  {
    assert src[pos..pos + 2] == "/*";
    assert src[pos] == '/' && src[pos + 1] == '*';
    assert src[pos..pos + 1] == "/";
  }

  /** A line comment runs up to, not including, the end of its line; the line counter is unchanged. */
  lemma LineCommentStep(src: string, pos: nat, line: nat)
    requires StartsWith(src, pos, "//")
    ensures var s := StepAt(src, pos, line);
      && s.token.None? && s.error.None? && s.line == line
      && (forall k :: pos <= k < s.next ==> src[k] != '\n')
      && (s.next == |src| || src[s.next] == '\n')
  {
    assert src[pos..pos + 2] == "//";
    assert src[pos] == '/' && src[pos + 1] == '/';
  }

  /**
   * Digits, a dot and digits form one float literal; a digit run with no
   * such continuation forms one integer literal whose value is its decimal
   * number. Either way the run of digits is taken whole.
   */
  lemma NumberStep(src: string, pos: nat, line: nat)
    requires pos < |src| && IsDigit(src[pos])
    ensures var s := StepAt(src, pos, line);
      var d := Span(src, pos, IsDigit);
      && s.token.Some? && s.error.None?
      && (if pos + d + 1 < |src| && src[pos + d] == '.' && IsDigit(src[pos + d + 1]) then
            && s.token.value.kind == FloatLiteral
            && s.token.value.value == Decimal(src[pos..pos + d], src[pos + d + 1..s.next])
            && (s.next == |src| || !IsDigit(src[s.next]))
          else
            && s.token.value.kind == IntLiteral
            && s.next == pos + d
            && s.token.value.value == Number(DecimalValue(src[pos..pos + d])))
  {
    assert !IsBlank(src[pos]) && src[pos] != '\n' && !StartsWith(src, pos, "/*") && !StartsWith(src, pos, "//");
    assert StepAt(src, pos, line) == NumberAt(src, pos, line);
    NumberAtForm(src, pos, line);
  }

  lemma NumberAtForm(src: string, pos: nat, line: nat)
    requires pos < |src| && IsDigit(src[pos])
    ensures var s := NumberAt(src, pos, line);
      var d := Span(src, pos, IsDigit);
      && s.token.Some? && s.error.None?
      && (if pos + d + 1 < |src| && src[pos + d] == '.' && IsDigit(src[pos + d + 1]) then
            && s.token.value.kind == FloatLiteral
            && s.token.value.value == Decimal(src[pos..pos + d], src[pos + d + 1..s.next])
            && (s.next == |src| || !IsDigit(src[s.next]))
          else
            && s.token.value.kind == IntLiteral
            && s.next == pos + d
            && s.token.value.value == Number(DecimalValue(src[pos..pos + d])))
  {
  }

  /**
   * An identifier-shaped lexeme, taken whole, is given its upper-cased
   * keyword as its type when it is one of the keywords, and ID otherwise.
   */
  lemma WordStep(src: string, pos: nat, line: nat)
    requires pos < |src| && IsIdStart(src[pos])
    ensures var s := StepAt(src, pos, line);
      var lexeme := src[pos..s.next];
      && s.token.Some? && s.token.value.value == Text(lexeme)
      && IsIdentifier(lexeme)
      && (s.next == |src| || !IsIdChar(src[s.next]))
      && (lexeme in Keywords ==> KindName(s.token.value.kind) == Upper(lexeme))
      && (lexeme !in Keywords <==> s.token.value.kind == Id)
  {
    var c := src[pos];
    assert !IsBlank(c) && c != '\n' && !IsDigit(c) && c != '"';
    assert !StartsWith(src, pos, "/*") && !StartsWith(src, pos, "//");
    assert CharEnd(src, pos).None?;
    var s := StepAt(src, pos, line);
    assert s == WordAt(src, pos, line);
    var lexeme := src[pos..s.next];
    if lexeme in Keywords {
      KeywordKindIsUpperCase(lexeme);
    }
  }

  /** Is c the first character of some operator or punctuation? */
  predicate IsOperatorStart(c: char)
  {
    c in "+-*/%=<>!(){}[];,&|"
  }

  /**
   * Where an operator starts (and no comment does), a two-character
   * operator is preferred to its one-character prefix.
   */
  lemma OperatorStep(src: string, pos: nat, line: nat)
    requires pos < |src| && IsOperatorStart(src[pos])
    requires !StartsWith(src, pos, "//") && !StartsWith(src, pos, "/*")
    ensures var s := StepAt(src, pos, line);
      if pos + 1 < |src| && TwoCharOperator(src[pos], src[pos + 1]).Some? then
        s == Step(pos + 2, line, Some(Token(TwoCharOperator(src[pos], src[pos + 1]).value, Text(src[pos..pos + 2]), line)), None)
      else if OneCharOperator(src[pos]).Some? then
        s == Step(pos + 1, line, Some(Token(OneCharOperator(src[pos]).value, Text([src[pos]]), line)), None)
      else
        s == Step(pos + 1, line, None, Some(LexError(src[pos], line)))
  {
    var c := src[pos];
    assert !IsDigit(c) && !IsIdStart(c) && c != '"' && c != '\'' && !IsBlank(c) && c != '\n';
    assert src[pos..pos + 1] == [c];
  }

  /**
   * Every two-character operator in the text is scanned as itself, never
   * as its one-character prefix followed by another token.
   */
  lemma TwoCharOperatorWins(src: string, pos: nat, line: nat, k: Kind)
    requires IsOperator(k) && |OperatorText(k)| == 2
    requires pos + 1 < |src| && src[pos..pos + 2] == OperatorText(k)
    ensures StepAt(src, pos, line) == Step(pos + 2, line, Some(Token(k, Text(OperatorText(k)), line)), None)
  {
    var a, b := src[pos], src[pos + 1];
    assert [a, b] == OperatorText(k);
    var found := TwoCharOperator(a, b);
    assert found == Some(k) by {
      OperatorTextInjective(found.value, k);
    }
    assert IsOperatorStart(a);
    assert !StartsWith(src, pos, "//") && !StartsWith(src, pos, "/*");
    OperatorStep(src, pos, line);
  }

  /**
   * A one-character operator that does not start a two-character one, nor a
   * comment, is scanned as itself.
   */
  lemma OneCharOperatorScanned(src: string, pos: nat, line: nat, k: Kind)
    requires pos < |src| && IsOperator(k) && OperatorText(k) == [src[pos]]
    requires !(pos + 1 < |src| && TwoCharOperator(src[pos], src[pos + 1]).Some?)
    requires !StartsWith(src, pos, "//") && !StartsWith(src, pos, "/*")
    ensures StepAt(src, pos, line) == Step(pos + 1, line, Some(Token(k, Text(OperatorText(k)), line)), None)
  {
    var found := OneCharOperator(src[pos]);
    assert found == Some(k) by {
      OperatorTextInjective(found.value, k);
    }
    assert IsOperatorStart(src[pos]);
    OperatorStep(src, pos, line);
  }

  /**
   * A character no rule accepts produces one error carrying it and the
   * current line; exactly that character is skipped and the scan goes on.
   */
  lemma UnrecognizedStep(src: string, pos: nat, line: nat)
    requires pos < |src|
    requires var c := src[pos];
      !IsBlank(c) && c != '\n' && !IsDigit(c) && !IsIdStart(c) && c != '"' && c != '\''
      && OneCharOperator(c).None? && (pos + 1 < |src| ==> TwoCharOperator(c, src[pos + 1]).None?)
    ensures StepAt(src, pos, line) == Step(pos + 1, line, None, Some(LexError(src[pos], line)))
    ensures Scan(src, pos, line) ==
      Scanned(Scan(src, pos + 1, line).tokens,
              [LexError(src[pos], line)] + Scan(src, pos + 1, line).errors,
              Scan(src, pos + 1, line).line)
  {
    assert !StartsWith(src, pos, "/*") && !StartsWith(src, pos, "//");
    assert StepAt(src, pos, line) == OperatorAt(src, pos, line);
    OperatorAtError(src, pos, line);
    ScanUnfold(src, pos, line);
  }

  /** A quote with no closing quote after it is an error; scanning resumes just after it. */
  lemma UnterminatedStringStep(src: string, pos: nat, line: nat)
    requires pos < |src| && src[pos] == '"' && StringEnd(src, pos + 1).None?
    ensures StepAt(src, pos, line) == Step(pos + 1, line, None, Some(LexError('"', line)))
  {
    var c := src[pos];
    assert !IsBlank(c) && c != '\n' && !IsDigit(c) && !IsIdStart(c);
    assert !StartsWith(src, pos, "/*") && !StartsWith(src, pos, "//");
    assert CharEnd(src, pos).None?;
    assert StepAt(src, pos, line) == OperatorAt(src, pos, line);
    assert OneCharOperator('"').None?;
    assert pos + 1 < |src| ==> TwoCharOperator('"', src[pos + 1]).None?;
    OperatorAtError(src, pos, line);
  }

  /** Where no operator matches, the operator rules report the character and skip it. */
  lemma OperatorAtError(src: string, pos: nat, line: nat)
    requires pos < |src| && OneCharOperator(src[pos]).None?
    requires pos + 1 < |src| ==> TwoCharOperator(src[pos], src[pos + 1]).None?
    ensures OperatorAt(src, pos, line) == Step(pos + 1, line, None, Some(LexError(src[pos], line)))
  {
  }

  /**
   * Over a whole scan the line counter never goes down: every token and
   * every error carries a line between the starting and the final counter,
   * and tokens come out in non-decreasing line order.
   */
  lemma {:induction false} ScanLines(src: string, pos: nat, line: nat)
    requires pos <= |src|
    ensures var r := Scan(src, pos, line);
      && line <= r.line
      && (forall i :: 0 <= i < |r.tokens| ==> line <= r.tokens[i].line <= r.line)
      && (forall i :: 0 <= i < |r.errors| ==> line <= r.errors[i].line <= r.line)
      && (forall i, j :: 0 <= i < j < |r.tokens| ==> r.tokens[i].line <= r.tokens[j].line)
    decreases |src| - pos
  {
    if pos < |src| {
      var s := StepAt(src, pos, line);
      ScanLines(src, s.next, s.line);
    }
  }

  /** Every token of a scan carries a value that agrees with its kind. */
  lemma {:induction false} ScanTokensValid(src: string, pos: nat, line: nat)
    requires pos <= |src|
    ensures ValidTokens(Scan(src, pos, line).tokens)
    decreases |src| - pos
  {
    if pos < |src| {
      var s := StepAt(src, pos, line);
      ScanTokensValid(src, s.next, s.line);
    }
  }

  /** Every lexical error of a scan names a character of the scanned rest of the text. */
  lemma {:induction false} ScanErrorsFromSource(src: string, pos: nat, line: nat)
    requires pos <= |src|
    ensures forall e :: e in Scan(src, pos, line).errors ==> e.ch in src[pos..]
    decreases |src| - pos
  {
    if pos < |src| {
      var s := StepAt(src, pos, line);
      ScanErrorsFromSource(src, s.next, s.line);
      forall e | e in Scan(src, s.next, s.line).errors
        ensures e.ch in src[pos..]
      {
        LaterCharIn(src, pos, s.next, e.ch);
      }
      assert src[pos..][0] == src[pos];
    }
  }

  /** A character of a later suffix is a character of an earlier one. */
  lemma LaterCharIn(src: string, pos: nat, later: nat, c: char)
    requires pos <= later <= |src| && c in src[later..]
    ensures c in src[pos..]
  {
    var k :| 0 <= k < |src[later..]| && src[later..][k] == c;
    assert src[pos..][k + later - pos] == c;
  }

  /** "a+=1" scans as an identifier, a compound assignment and an integer literal. */
  lemma PlusAssignExample()
    ensures Lex("a+=1").tokens == [Token(Id, Text("a"), 1), Token(PlusAssign, Text("+="), 1), Token(IntLiteral, Number(1), 1)]
  {
    var src := "a+=1";
    PlusAssignFirstStep();
    PlusAssignSecondStep();
    PlusAssignLastStep();
    assert Scan(src, 4, 1).tokens == [];
    assert Scan(src, 3, 1).tokens == [Token(IntLiteral, Number(1), 1)];
    assert Scan(src, 1, 1).tokens == [Token(PlusAssign, Text("+="), 1), Token(IntLiteral, Number(1), 1)];
  }

  lemma PlusAssignFirstStep()
    ensures StepAt("a+=1", 0, 1) == Emit(1, Token(Id, Text("a"), 1))
  {
    var src := "a+=1";
    assert Span(src, 1, IsIdChar) == 0;
    assert Span(src, 0, IsIdChar) == 1;
    assert src[0..1] == "a";
    assert KeywordKind("a") == None;
  }

  lemma PlusAssignSecondStep()
    ensures StepAt("a+=1", 1, 1) == Emit(3, Token(PlusAssign, Text("+="), 1))
  {
    var src := "a+=1";
    assert TwoCharOperator('+', '=') == Some(PlusAssign);
    assert src[1..3] == "+=";
  }

  lemma PlusAssignLastStep()
    ensures StepAt("a+=1", 3, 1) == Emit(4, Token(IntLiteral, Number(1), 1))
  {
    var src := "a+=1";
    assert Span(src, 4, IsDigit) == 0;
    assert Span(src, 3, IsDigit) == 1;
    assert DecimalValue("1") == 1;
  }

  /** "1.5" scans as one float literal, not as an integer, a dot and an integer. */
  lemma FloatExample()
    ensures Lex("1.5").tokens == [Token(FloatLiteral, Decimal("1", "5"), 1)]
  {
    var src := "1.5";
    assert Span(src, 1, IsDigit) == 0;
    assert Span(src, 0, IsDigit) == 1;
    assert Span(src, 3, IsDigit) == 0;
    assert Span(src, 2, IsDigit) == 1;
    assert src[0..1] == "1" && src[2..3] == "5";
    assert StepAt(src, 0, 1) == Emit(3, Token(FloatLiteral, Decimal("1", "5"), 1));
  }
}
