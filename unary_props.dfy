/**
 * What the syntax analyzer promises about unary operations: the shape of
 * the increment and decrement forms, and how far a sign or a negation
 * reaches.
 */
module UnaryProperties {
  import opened Tokens
  import opened Ast
  import opened Parser
  import opened ParserProperties

  predicate IsStep(k: Kind)
  {
    k == Increment || k == Decrement
  }

  /**
   * `++ID` and `--ID`: a UnaryOp holding the operator's text, on the
   * operator's line, whose one child is the ID leaf.
   */
  lemma PrefixStep(toks: seq<Token>, pos: nat)
    requires ValidTokens(toks) && pos < |toks| && IsStep(toks[pos].kind) && At(toks, pos + 1, Id)
    ensures ParseUnary(toks, pos) == Ok(Parsed(
        Node(UnaryOp, [Leaf(ID, toks[pos + 1].value, toks[pos + 1].line)], Some(toks[pos].value), Some(toks[pos].line)),
        pos + 2))
  {
    assert ValidToken(toks[pos]) && ValidToken(toks[pos + 1]);
  }

  /** `++` or `--` not followed by an identifier is rejected at the token after it. */
  lemma PrefixStepNeedsId(toks: seq<Token>, pos: nat)
    requires ValidTokens(toks) && pos < |toks| && IsStep(toks[pos].kind) && !At(toks, pos + 1, Id)
    ensures ParseUnary(toks, pos) == Err(Fail(toks, pos + 1))
  {
  }

  /**
   * `ID++` and `ID--`: the same node as the prefix form, a UnaryOp with
   * the operator's text and line whose one child is the ID leaf.
   */
  lemma PostfixStep(toks: seq<Token>, pos: nat)
    requires ValidTokens(toks) && At(toks, pos, Id) && pos + 1 < |toks| && IsStep(toks[pos + 1].kind)
    ensures ParseUnary(toks, pos) == Ok(Parsed(
        Node(UnaryOp, [Leaf(ID, toks[pos].value, toks[pos].line)], Some(toks[pos + 1].value), Some(toks[pos + 1].line)),
        pos + 2))
  {
    assert ValidToken(toks[pos]) && ValidToken(toks[pos + 1]);
    IdOperand(toks, pos);
    assert !IsAssignOperator(toks[pos + 1].kind);
  }

  /**
   * `!e` and `-e`: a UnaryOp holding the operator's text, on its line,
   * whose one child is the operand parsed at the operator's floor, so the
   * operand takes in every operator at least as tight as that floor.
   */
  lemma PrefixOperation(toks: seq<Token>, pos: nat, operand: Result<Parsed>)
    requires ValidTokens(toks) && (At(toks, pos, Not) || At(toks, pos, Minus))
    requires operand == ParseExpr(toks, pos + 1, OperandFloor(toks[pos].kind)) && operand.Ok?
    ensures ValidToken(toks[pos])
    ensures var u := ParseUnary(toks, pos);
      && u.Ok?
      && u.value.node == Node(UnaryOp, [operand.value.node], Some(toks[pos].value), Some(toks[pos].line))
      && u.value.next == operand.value.next
  {
    assert ValidToken(toks[pos]);
  }

  /** An expression is its first operand followed by the binary operators that apply to it. */
  lemma OperandThenRest(toks: seq<Token>, pos: nat, floor: nat, operand: Result<Parsed>)
    requires ValidTokens(toks) && pos <= |toks|
    requires operand == ParseUnary(toks, pos) && operand.Ok?
    ensures ParseExpr(toks, pos, floor) == BinaryRest(toks, operand.value.node, operand.value.next, floor)
  {
  }

  /**
   * An operand followed by an operator that reaches the floor: the operator
   * takes the operand as its left side and the expression at its own floor
   * as its right side. With the floor of a sign, this is why `-a*b` is
   * `-(a*b)`; an operator below the floor leaves the operand alone
   * (ParserProperties.OperandAlone), which is why `!a&&b` is `(!a)&&b`.
   */
  lemma OperandTakesOperator(toks: seq<Token>, pos: nat, floor: nat, operand: Result<Parsed>, p: nat, right: Result<Parsed>)
    requires ValidTokens(toks) && pos <= |toks|
    requires operand == ParseUnary(toks, pos) && operand.Ok? && p == operand.value.next
    requires p < |toks| && IsBinaryOperator(toks[p].kind) && Precedence(toks[p].kind) >= floor
    requires right == ParseExpr(toks, p + 1, OperandFloor(toks[p].kind)) && right.Ok?
    requires Stops(toks, right.value.next, floor)
    ensures ValidToken(toks[p])
    ensures ParseExpr(toks, pos, floor) == Ok(Parsed(BinaryNode(toks[p], operand.value.node, right.value.node), right.value.next))
  {
    assert ParseExpr(toks, pos, floor) == BinaryRest(toks, operand.value.node, p, floor) by {
      OperandThenRest(toks, pos, floor, operand);
    }
    RestTakesLast(toks, operand.value.node, p, floor, right.value.node, right.value.next);
  }
}
