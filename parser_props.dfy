/**
 * What the syntax analyzer promises about the trees it builds: how
 * operators group, and the shape of declarations, assignments, unary
 * operations, calls, for statements and whole programs.
 */
module ParserProperties {
  import opened Tokens
  import opened Ast
  import opened Parser

  /** A token that is an operand on its own: an identifier or a literal. */
  predicate IsAtom(k: Kind)
  {
    k == Id || IsLiteral(k)
  }

  /** The node an operand token becomes. */
  function AtomNode(t: Token): (n: Node)
    requires ValidToken(t) && IsAtom(t.kind)
    ensures IsExpr(n) && n.line == Some(t.line)
  {
    if t.kind == Id then IdLeaf(t) else Leaf(Literal, t.value, t.line)
  }

  /** The end of the input, or a token that closes an expression. */
  predicate Closes(toks: seq<Token>, pos: nat)
  {
    pos == |toks| || (pos < |toks| && toks[pos].kind in {RParen, RBracket, Semicolon, Comma})
  }

  /** No expression goes on past a closer. */
  lemma ClosesStops(toks: seq<Token>, pos: nat, floor: nat)
    requires Closes(toks, pos)
    ensures Stops(toks, pos, floor)
  {
  }

  /** What may follow an operand token without extending it. */
  predicate EndsOperand(toks: seq<Token>, pos: nat)
  {
    Closes(toks, pos) || (pos < |toks| && IsBinaryOperator(toks[pos].kind))
  }

  lemma AtomOperand(toks: seq<Token>, pos: nat)
    requires ValidTokens(toks) && pos < |toks| && IsAtom(toks[pos].kind) && EndsOperand(toks, pos + 1)
    ensures ParseUnary(toks, pos) == Ok(Parsed(AtomNode(toks[pos]), pos + 1))
  {
    assert ValidToken(toks[pos]);
    UnaryIsPrimary(toks, pos);
    if toks[pos].kind == Id {
      PrimaryIsIdExpr(toks, pos);
      assert pos + 1 < |toks| ==> !IsAssignOperator(toks[pos + 1].kind);
    }
  }

  lemma RestStops(toks: seq<Token>, left: Node, pos: nat, floor: nat)
    requires ValidTokens(toks) && pos <= |toks| && IsExpr(left)
    requires Stops(toks, pos, floor)
    ensures BinaryRest(toks, left, pos, floor) == Ok(Parsed(left, pos))
  {
  }

  /** An operand followed by no operator of the level is the whole expression. */
  lemma OperandAlone(toks: seq<Token>, pos: nat, floor: nat, operand: Result<Parsed>)
    requires ValidTokens(toks) && pos <= |toks|
    requires operand == ParseUnary(toks, pos) && operand.Ok? && Stops(toks, operand.value.next, floor)
    ensures ParseExpr(toks, pos, floor) == operand
  {
    RestStops(toks, operand.value.node, operand.value.next, floor);
  }

  /** An operand token followed by a closer, or by an operator too weak for the floor, stands alone. */
  lemma AtomExpr(toks: seq<Token>, pos: nat, floor: nat)
    requires ValidTokens(toks) && pos < |toks| && IsAtom(toks[pos].kind)
    requires Closes(toks, pos + 1)
      || (pos + 1 < |toks| && IsBinaryOperator(toks[pos + 1].kind) && Precedence(toks[pos + 1].kind) < floor)
    ensures ParseExpr(toks, pos, floor) == Ok(Parsed(AtomNode(toks[pos]), pos + 1))
  {
    AtomOperand(toks, pos);
    RestStops(toks, AtomNode(toks[pos]), pos + 1, floor);
  }

  /** One operator taken in: its right operand parsed at the operator's floor, then the rest. */
  lemma RestTakes(toks: seq<Token>, left: Node, pos: nat, floor: nat, right: Node, after: nat)
    requires ValidTokens(toks) && pos < |toks| && IsExpr(left)
    requires IsBinaryOperator(toks[pos].kind) && Precedence(toks[pos].kind) >= floor
    requires ParseExpr(toks, pos + 1, OperandFloor(toks[pos].kind)) == Ok(Parsed(right, after))
    ensures ValidToken(toks[pos]) && IsExpr(right) && pos < after <= |toks|
    ensures BinaryRest(toks, left, pos, floor) == BinaryRest(toks, BinaryNode(toks[pos], left, right), after, floor)
  {
    assert ValidToken(toks[pos]);
  }

  /**
   * `a op1 b op2 c`: the second operator is taken into the right operand
   * of the first exactly when it binds more tightly; otherwise the first
   * operation becomes the left operand of the second. Every binary level
   * is left-associative, so `a-b-c` and `a<b<c` group to the left and
   * `1+2*3` groups as `1+(2*3)`.
   */
  lemma TwoOperatorGrouping(toks: seq<Token>)
    requires ValidTokens(toks) && TwoOperators(toks)
    ensures ParseExpr(toks, 0, 0) == Ok(Parsed(
      if Precedence(toks[3].kind) > Precedence(toks[1].kind) then
        BinaryNode(toks[1], AtomNode(toks[0]), BinaryNode(toks[3], AtomNode(toks[2]), AtomNode(toks[4])))
      else
        BinaryNode(toks[3], BinaryNode(toks[1], AtomNode(toks[0]), AtomNode(toks[2])), AtomNode(toks[4])),
      5))
  {
    assert ValidToken(toks[1]) && ValidToken(toks[3]);
    AtomOperand(toks, 0);
    if Precedence(toks[3].kind) > Precedence(toks[1].kind) {
      TighterSecond(toks);
    } else {
      LooserSecond(toks);
    }
  }

  /** `a op1 b op2 c` with its operands and operators in place, closed after c. */
  predicate TwoOperators(toks: seq<Token>)
  {
    && 5 <= |toks| && Closes(toks, 5)
    && IsAtom(toks[0].kind) && IsAtom(toks[2].kind) && IsAtom(toks[4].kind)
    && IsBinaryOperator(toks[1].kind) && IsBinaryOperator(toks[3].kind)
  }

  /** An operator taken in whose right operand ends at a closer: nothing further is taken. */
  lemma RestTakesLast(toks: seq<Token>, left: Node, pos: nat, floor: nat, right: Node, after: nat)
    requires ValidTokens(toks) && pos < |toks| && IsExpr(left)
    requires IsBinaryOperator(toks[pos].kind) && Precedence(toks[pos].kind) >= floor
    requires ParseExpr(toks, pos + 1, OperandFloor(toks[pos].kind)) == Ok(Parsed(right, after))
    requires Stops(toks, after, floor)
    ensures ValidToken(toks[pos]) && IsExpr(right)
    ensures BinaryRest(toks, left, pos, floor) == Ok(Parsed(BinaryNode(toks[pos], left, right), after))
  {
    RestTakes(toks, left, pos, floor, right, after);
    RestStops(toks, BinaryNode(toks[pos], left, right), after, floor);
  }

  lemma TightRightOperand(toks: seq<Token>)
    requires ValidTokens(toks) && TwoOperators(toks)
    requires Precedence(toks[3].kind) >= OperandFloor(toks[1].kind)
    ensures ValidToken(toks[2]) && ValidToken(toks[3]) && ValidToken(toks[4])
    ensures ParseExpr(toks, 2, OperandFloor(toks[1].kind))
      == Ok(Parsed(BinaryNode(toks[3], AtomNode(toks[2]), AtomNode(toks[4])), 5))
  {
    assert ValidToken(toks[2]) && ValidToken(toks[3]) && ValidToken(toks[4]);
    AtomOperand(toks, 2);
    AtomExpr(toks, 4, OperandFloor(toks[3].kind));
    ClosesStops(toks, 5, OperandFloor(toks[1].kind));
    RestTakesLast(toks, AtomNode(toks[2]), 3, OperandFloor(toks[1].kind), AtomNode(toks[4]), 5);
  }

  lemma TighterSecond(toks: seq<Token>)
    requires ValidTokens(toks) && TwoOperators(toks)
    requires Precedence(toks[3].kind) > Precedence(toks[1].kind)
    ensures BinaryRest(toks, AtomNode(toks[0]), 1, 0)
      == Ok(Parsed(BinaryNode(toks[1], AtomNode(toks[0]), BinaryNode(toks[3], AtomNode(toks[2]), AtomNode(toks[4]))), 5))
  {
    assert ValidToken(toks[0]) && ValidToken(toks[1]);
    TightRightOperand(toks);
    var inner := BinaryNode(toks[3], AtomNode(toks[2]), AtomNode(toks[4]));
    ClosesStops(toks, 5, 0);
    RestTakesLast(toks, AtomNode(toks[0]), 1, 0, inner, 5);
  }

  lemma LooseFirstOperation(toks: seq<Token>)
    requires ValidTokens(toks) && TwoOperators(toks)
    requires Precedence(toks[3].kind) <= Precedence(toks[1].kind)
    ensures ValidToken(toks[0]) && ValidToken(toks[1]) && ValidToken(toks[2])
    ensures BinaryRest(toks, AtomNode(toks[0]), 1, 0)
      == BinaryRest(toks, BinaryNode(toks[1], AtomNode(toks[0]), AtomNode(toks[2])), 3, 0)
  {
    assert ValidToken(toks[0]) && ValidToken(toks[1]) && ValidToken(toks[2]);
    AtomExpr(toks, 2, OperandFloor(toks[1].kind));
    RestTakes(toks, AtomNode(toks[0]), 1, 0, AtomNode(toks[2]), 3);
  }

  lemma LooseSecondOperation(toks: seq<Token>)
    requires ValidTokens(toks) && TwoOperators(toks)
    ensures ValidToken(toks[0]) && ValidToken(toks[1]) && ValidToken(toks[3]) && ValidToken(toks[4])
    ensures BinaryRest(toks, BinaryNode(toks[1], AtomNode(toks[0]), AtomNode(toks[2])), 3, 0)
      == Ok(Parsed(BinaryNode(toks[3], BinaryNode(toks[1], AtomNode(toks[0]), AtomNode(toks[2])), AtomNode(toks[4])), 5))
  {
    assert ValidToken(toks[0]) && ValidToken(toks[1]) && ValidToken(toks[2]);
    assert ValidToken(toks[3]) && ValidToken(toks[4]);
    var first := BinaryNode(toks[1], AtomNode(toks[0]), AtomNode(toks[2]));
    AtomExpr(toks, 4, OperandFloor(toks[3].kind));
    ClosesStops(toks, 5, 0);
    RestTakesLast(toks, first, 3, 0, AtomNode(toks[4]), 5);
  }

  lemma LooserSecond(toks: seq<Token>)
    requires ValidTokens(toks) && TwoOperators(toks)
    requires Precedence(toks[3].kind) <= Precedence(toks[1].kind)
    ensures BinaryRest(toks, AtomNode(toks[0]), 1, 0)
      == Ok(Parsed(BinaryNode(toks[3], BinaryNode(toks[1], AtomNode(toks[0]), AtomNode(toks[2])), AtomNode(toks[4])), 5))
  {
    LooseFirstOperation(toks);
    LooseSecondOperation(toks);
  }

  /** An empty token list is a program whose empty statement list carries the final line. */
  lemma EmptyProgram(endLine: nat)
    ensures Parse([], endLine) == Ok(Node(Program, [Node(StatementList, [], None, Some(endLine))], None, Some(endLine)))
  {
    assert ParseStatements([], 0, false) == Ok(ParsedList([], 0));
  }

  /**
   * A program has one child, its statement list, from which the parsed
   * statements come back in source order.
   */
  lemma ProgramStatements(toks: seq<Token>, endLine: nat)
    requires ValidTokens(toks) && Parse(toks, endLine).Ok?
    ensures ParseStatements(toks, 0, false).Ok?
    ensures Parse(toks, endLine).value.children == [NestStatements(ParseStatements(toks, 0, false).value.nodes, endLine)]
    ensures Statements(Parse(toks, endLine).value.children[0]) == ParseStatements(toks, 0, false).value.nodes
  {
    NestStatementsRoundTrip(ParseStatements(toks, 0, false).value.nodes, endLine);
  }

  /** Stopping before every binary operator means stopping at any level. */
  lemma StopsAnyLevel(toks: seq<Token>, pos: nat, floor: nat)
    requires Stops(toks, pos, 0)
    ensures Stops(toks, pos, floor)
  {
  }

  /** An operand that starts with no unary operator is a primary expression. */
  lemma UnaryIsPrimary(toks: seq<Token>, pos: nat)
    requires ValidTokens(toks) && pos < |toks|
    requires toks[pos].kind !in {Not, Minus, Increment, Decrement}
    ensures ParseUnary(toks, pos) == ParsePrimary(toks, pos)
  {
  }

  /** A primary expression that starts with an identifier is parsed by the identifier rules. */
  lemma PrimaryIsIdExpr(toks: seq<Token>, pos: nat)
    requires ValidTokens(toks) && At(toks, pos, Id)
    ensures ParsePrimary(toks, pos) == ParseIdExpr(toks, pos)
  {
    assert !IsLiteral(toks[pos].kind);
  }

  lemma IdOperand(toks: seq<Token>, pos: nat)
    requires ValidTokens(toks) && At(toks, pos, Id)
    ensures ParseUnary(toks, pos) == ParseIdExpr(toks, pos)
  {
    UnaryIsPrimary(toks, pos);
    PrimaryIsIdExpr(toks, pos);
  }

  /** An operand that is an assignment is followed by no binary operator. */
  lemma AssignmentOperand(toks: seq<Token>, pos: nat)
    requires ValidTokens(toks) && At(toks, pos, Id)
    requires pos + 1 < |toks| && IsAssignOperator(toks[pos + 1].kind)
    requires ParseExpr(toks, pos + 2, 0).Ok?
    ensures ValidToken(toks[pos]) && ValidToken(toks[pos + 1])
    ensures ParseUnary(toks, pos)
      == Ok(Parsed(AssignmentNode(toks[pos], toks[pos + 1], ParseExpr(toks, pos + 2, 0).value.node),
                   ParseExpr(toks, pos + 2, 0).value.next))
    ensures Stops(toks, ParseUnary(toks, pos).value.next, 0)
  {
    assert ValidToken(toks[pos]) && ValidToken(toks[pos + 1]);
    IdOperand(toks, pos);
  }

  /**
   * `ID op e` for each of the six assignment operators: the identifier,
   * the operator and the right-hand side, in that order, on the
   * identifier's line. The right-hand side takes in every binary operator
   * whatever the level the assignment stands at, so `a = b + c` assigns
   * `b + c`.
   */
  lemma AssignmentTakesRest(toks: seq<Token>, pos: nat, floor: nat)
    requires ValidTokens(toks) && At(toks, pos, Id)
    requires pos + 1 < |toks| && IsAssignOperator(toks[pos + 1].kind)
    requires ParseExpr(toks, pos + 2, 0).Ok?
    ensures var rhs := ParseExpr(toks, pos + 2, 0).value;
      ParseExpr(toks, pos, floor) == Ok(Parsed(
        Node(Assignment,
             [Leaf(ID, toks[pos].value, toks[pos].line), Leaf(Operator, toks[pos + 1].value, toks[pos + 1].line), rhs.node],
             None, Some(toks[pos].line)),
        rhs.next))
  {
    AssignmentOperand(toks, pos);
    var assignment := ParseUnary(toks, pos).value;
    StopsAnyLevel(toks, assignment.next, floor);
    RestStops(toks, assignment.node, assignment.next, floor);
  }

  /** `a = b = e` assigns to a the assignment `b = e`: assignments nest to the right. */
  lemma AssignmentsNestRight(toks: seq<Token>, pos: nat)
    requires ValidTokens(toks) && At(toks, pos, Id) && At(toks, pos + 2, Id)
    requires pos + 3 < |toks| && IsAssignOperator(toks[pos + 1].kind) && IsAssignOperator(toks[pos + 3].kind)
    requires ParseExpr(toks, pos + 4, 0).Ok?
    ensures ValidToken(toks[pos]) && ValidToken(toks[pos + 1]) && ValidToken(toks[pos + 2]) && ValidToken(toks[pos + 3])
    ensures var rhs := ParseExpr(toks, pos + 4, 0).value;
      ParseExpr(toks, pos, 0) == Ok(Parsed(
        AssignmentNode(toks[pos], toks[pos + 1], AssignmentNode(toks[pos + 2], toks[pos + 3], rhs.node)),
        rhs.next))
  {
    assert ValidToken(toks[pos]) && ValidToken(toks[pos + 1]) && ValidToken(toks[pos + 2]) && ValidToken(toks[pos + 3]);
    AssignmentTakesRest(toks, pos + 2, 0);
    AssignmentTakesRest(toks, pos, 0);
  }

  /** `ID [ e ]` with its index parsed and the bracket closed. */
  predicate ClosedAccess(toks: seq<Token>, pos: nat, index: Result<Parsed>)
    requires ValidTokens(toks) && pos + 2 <= |toks|
  {
    && At(toks, pos, Id) && At(toks, pos + 1, LBracket)
    && index == ParseExpr(toks, pos + 2, 0) && index.Ok? && At(toks, index.value.next, RBracket)
  }

  /** An operand that starts with `ID [` is an element access or assignment. */
  lemma ElementOperand(toks: seq<Token>, pos: nat)
    requires ValidTokens(toks) && At(toks, pos, Id) && At(toks, pos + 1, LBracket)
    ensures ParseUnary(toks, pos) == ParseElement(toks, pos)
  {
    IdOperand(toks, pos);
    IdExprIsElement(toks, pos);
  }

  lemma IdExprIsElement(toks: seq<Token>, pos: nat)
    requires ValidTokens(toks) && At(toks, pos, Id) && At(toks, pos + 1, LBracket)
    ensures ParseIdExpr(toks, pos) == ParseElement(toks, pos)
  {
    assert !IsAssignOperator(toks[pos + 1].kind);
    assert !At(toks, pos + 1, Increment) && !At(toks, pos + 1, Decrement) && !At(toks, pos + 1, LParen);
  }

  /** `ID [ e ]`: the access holds the ID and the index, on the identifier's line. */
  lemma AccessParsed(toks: seq<Token>, pos: nat, index: Result<Parsed>)
    requires ValidTokens(toks) && pos + 2 <= |toks| && ClosedAccess(toks, pos, index)
    ensures ValidToken(toks[pos])
    ensures ParseAccess(toks, pos) == Ok(Parsed(AccessNode(toks[pos], index.value.node), index.value.next + 1))
  {
    assert ValidToken(toks[pos]);
  }

  /** With no `=` after it, the access is the whole element expression. */
  lemma AccessAlone(toks: seq<Token>, pos: nat, access: Result<Parsed>)
    requires ValidTokens(toks) && At(toks, pos, Id) && At(toks, pos + 1, LBracket)
    requires access == ParseAccess(toks, pos) && access.Ok? && !At(toks, access.value.next, Assign)
    ensures ParseElement(toks, pos) == access
  {
  }

  /** With `=` after it, the access is assigned to. */
  lemma AccessAssigned(toks: seq<Token>, pos: nat, access: Result<Parsed>)
    requires ValidTokens(toks) && At(toks, pos, Id) && At(toks, pos + 1, LBracket)
    requires access == ParseAccess(toks, pos) && access.Ok? && At(toks, access.value.next, Assign)
    ensures ParseElement(toks, pos) == ParseElementAssignment(toks, access.value.node, access.value.next)
  {
  }

  /** `= e2` after an element access: the access, the `=` operator and the right-hand side. */
  lemma ElementAssignmentParsed(toks: seq<Token>, access: Node, pos: nat, rhs: Result<Parsed>)
    requires ValidTokens(toks) && At(toks, pos, Assign) && access.kind == ArrayAccess && IsExpr(access)
    requires rhs == ParseExpr(toks, pos + 1, 0) && rhs.Ok?
    ensures ValidToken(toks[pos])
    ensures ParseElementAssignment(toks, access, pos)
      == Ok(Parsed(Node(ArrayAssignment, [access, OperatorLeaf(toks[pos]), rhs.value.node], None, access.line), rhs.value.next))
  {
    assert ValidToken(toks[pos]);
  }

  /** The token of `=` carries the text "=". */
  lemma AssignText(t: Token)
    requires ValidToken(t) && t.kind == Assign
    ensures t.value == Text("=")
  {
  }

  /**
   * `ID [ e ] = e2`: an element assignment whose children are the access
   * (the ID and the index, on the identifier's line), the `=` operator and
   * the right-hand side, on the identifier's line; the right-hand side
   * takes in every binary operator.
   */
  lemma ElementAssignmentForm(toks: seq<Token>, pos: nat, floor: nat, index: Result<Parsed>, rhs: Result<Parsed>)
    requires ValidTokens(toks) && pos + 2 <= |toks| && ClosedAccess(toks, pos, index)
    requires At(toks, index.value.next + 1, Assign)
    requires rhs == ParseExpr(toks, index.value.next + 2, 0) && rhs.Ok?
    ensures ParseExpr(toks, pos, floor) == Ok(Parsed(
        Node(ArrayAssignment,
             [Node(ArrayAccess, [Leaf(ID, toks[pos].value, toks[pos].line), index.value.node], None, Some(toks[pos].line)),
              Leaf(Operator, Text("="), toks[index.value.next + 1].line),
              rhs.value.node],
             None, Some(toks[pos].line)),
        rhs.value.next))
  {
    AccessParsed(toks, pos, index);
    AccessAssigned(toks, pos, ParseAccess(toks, pos));
    ElementAssignmentParsed(toks, AccessNode(toks[pos], index.value.node), index.value.next + 1, rhs);
    AssignText(toks[index.value.next + 1]);
    StopsAnyLevel(toks, rhs.value.next, floor);
    ElementExpr(toks, pos, floor, ParseElement(toks, pos));
  }

  /** An element expression that nothing binds to is the whole expression. */
  lemma ElementExpr(toks: seq<Token>, pos: nat, floor: nat, e: Result<Parsed>)
    requires ValidTokens(toks) && At(toks, pos, Id) && At(toks, pos + 1, LBracket)
    requires e == ParseElement(toks, pos) && e.Ok? && Stops(toks, e.value.next, floor)
    ensures ParseExpr(toks, pos, floor) == e
  {
    ElementOperand(toks, pos);
    OperandAlone(toks, pos, floor, ParseUnary(toks, pos));
  }

  /** An element access followed by a compound assignment operator ends before it. */
  lemma ElementAccessAlone(toks: seq<Token>, pos: nat, index: Result<Parsed>)
    requires ValidTokens(toks) && pos + 2 <= |toks| && ClosedAccess(toks, pos, index)
    requires index.value.next + 1 < |toks| && IsAssignOperator(toks[index.value.next + 1].kind)
    requires toks[index.value.next + 1].kind != Assign
    ensures ValidToken(toks[pos])
    ensures ParseExpr(toks, pos, 0) == Ok(Parsed(AccessNode(toks[pos], index.value.node), index.value.next + 1))
  {
    AccessParsed(toks, pos, index);
    AccessAlone(toks, pos, ParseAccess(toks, pos));
    ElementOperand(toks, pos);
    assert !IsBinaryOperator(toks[index.value.next + 1].kind);
    OperandAlone(toks, pos, 0, ParseUnary(toks, pos));
  }

  /** A statement that starts with an identifier is an expression statement. */
  lemma IdStatement(toks: seq<Token>, pos: nat)
    requires ValidTokens(toks) && At(toks, pos, Id)
    ensures ParseStatement(toks, pos) == ParseExpressionStatement(toks, pos)
  {
    assert !IsTypeKeyword(toks[pos].kind);
  }

  /**
   * `ID [ e ] += e2` and the other compound operators on an element are
   * rejected at the operator: only `=` assigns to an element.
   */
  lemma CompoundElementAssignmentRejected(toks: seq<Token>, pos: nat, index: Result<Parsed>)
    requires ValidTokens(toks) && pos + 2 <= |toks| && ClosedAccess(toks, pos, index)
    requires index.value.next + 1 < |toks| && IsAssignOperator(toks[index.value.next + 1].kind)
    requires toks[index.value.next + 1].kind != Assign
    ensures ParseStatement(toks, pos) == Err(UnexpectedToken(toks[index.value.next + 1]))
  {
    ElementAccessAlone(toks, pos, index);
    ExpressionStatementUnclosed(toks, pos, ParseExpr(toks, pos, 0));
    IdStatement(toks, pos);
  }

  /** An expression statement whose expression is not followed by `;` fails at the token after it. */
  lemma ExpressionStatementUnclosed(toks: seq<Token>, pos: nat, e: Result<Parsed>)
    requires ValidTokens(toks) && pos < |toks| && toks[pos].kind != Semicolon
    requires e == ParseExpr(toks, pos, 0) && e.Ok? && !At(toks, e.value.next, Semicolon)
    ensures ParseExpressionStatement(toks, pos) == Err(Fail(toks, e.value.next))
  {
  }
}
