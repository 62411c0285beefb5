/**
 * The syntax analyzer. The grammar is an LALR grammar whose conflicts are
 * settled by an operator precedence table; here it is parsed top-down, with
 * precedence climbing for expressions. Every rule builds the node the
 * corresponding grammar action builds: same kind, same children in the same
 * order, same value, same line.
 *
 * How the table settles each conflict:
 *  - an operand of a rule whose last terminal is op takes in every further
 *    operator that binds more tightly than op, and one of equal level only
 *    when op's level is right-associative (OperandFloor);
 *  - `ID =` and the other assignment operators are never an operator after
 *    an expression, so an assignment may stand wherever an operand may, and
 *    its right-hand side takes in every binary operator;
 *  - `else` is shifted, so it belongs to the nearest `if`;
 *  - a statement list is grown one statement at a time from the first one.
 *
 * A parse either gives a tree or stops at the first token it cannot use.
 */
module Parser {
  import opened Tokens
  import opened Ast
  import Lexer
  import LexerProperties

  datatype SyntaxError = UnexpectedToken(token: Token) | UnexpectedEnd

  datatype Result<T> = Ok(value: T) | Err(error: SyntaxError)

  /** A node and the position of the first token after it. */
  datatype Parsed = Parsed(node: Node, next: nat)

  datatype ParsedList = ParsedList(nodes: seq<Node>, next: nat)

  /** The three clauses between the parentheses of a for statement. */
  datatype ForClauses = ForClauses(init: Node, cond: Node, update: Node, next: nat)

  /** The level of a token type in the precedence table (0: not listed). */
  function Precedence(k: Kind): (r: nat)
    ensures IsAssignOperator(k) <==> r == 1
    ensures IsBinaryOperator(k) ==> 2 <= r <= 7
    ensures r <= 9
  {
    if k in {Assign, PlusAssign, MinusAssign, TimesAssign, DivideAssign, ModAssign} then 1
    else if k == Or then 2
    else if k == And then 3
    else if k in {Equal, NotEqual} then 4
    else if k in {Less, LessEqual, Greater, GreaterEqual} then 5
    else if k in {Plus, Minus} then 6
    else if k in {Times, Divide, Mod} then 7
    else if k in {Not, Increment, Decrement} then 8
    else if k == LBracket then 9
    else 0
  }

  /** Of the operators, only the assignments and the unary row group to the right. */
  predicate RightAssociative(k: Kind)
    ensures IsAssignOperator(k) ==> RightAssociative(k)
    ensures IsBinaryOperator(k) ==> !RightAssociative(k)
  {
    Precedence(k) == 1 || Precedence(k) == 8
  }

  /**
   * The lowest level an operator must have to be taken into the operand of
   * a rule whose precedence is that of k.
   */
  function OperandFloor(k: Kind): (r: nat)
    ensures Precedence(k) <= r <= Precedence(k) + 1
    ensures r == Precedence(k) <==> RightAssociative(k)
  {
    if RightAssociative(k) then Precedence(k) else Precedence(k) + 1
  }

  predicate IsBinaryOperator(k: Kind)
  {
    k in {Plus, Minus, Times, Divide, Mod, Equal, NotEqual, Less, LessEqual, Greater, GreaterEqual, And, Or}
  }

  predicate IsAssignOperator(k: Kind)
  {
    k in {Assign, PlusAssign, MinusAssign, TimesAssign, DivideAssign, ModAssign}
  }

  predicate IsLiteral(k: Kind)
  {
    k in {IntLiteral, FloatLiteral, CharLiteral, StringLiteral}
  }

  predicate At(toks: seq<Token>, pos: nat, k: Kind)
  {
    pos < |toks| && toks[pos].kind == k
  }

  /** The error for a parse that cannot go on at pos. */
  function Fail(toks: seq<Token>, pos: nat): SyntaxError
  {
    if pos < |toks| then UnexpectedToken(toks[pos]) else UnexpectedEnd
  }

  /** The ID leaf of an identifier token. */
  function IdLeaf(t: Token): (n: Node)
    requires ValidToken(t) && t.kind == Id
    ensures IsIdLeaf(n) && n.value == Some(t.value) && n.line == Some(t.line)
  {
    Leaf(ID, t.value, t.line)
  }

  /** The Type leaf of a type keyword. */
  function TypeLeaf(t: Token): (n: Node)
    requires ValidToken(t) && IsTypeKeyword(t.kind)
    ensures IsTextLeaf(n, Type, TypeNames) && n.value == Some(t.value) && n.line == Some(t.line)
  {
    Leaf(Type, t.value, t.line)
  }

  /** The Operator leaf of an assignment operator. */
  function OperatorLeaf(t: Token): (n: Node)
    requires ValidToken(t) && IsAssignOperator(t.kind)
    ensures IsTextLeaf(n, Operator, AssignOperators) && n.value == Some(t.value) && n.line == Some(t.line)
    ensures t.kind == Assign ==> IsTextLeaf(n, Operator, {"="})
  {
    Leaf(Operator, t.value, t.line)
  }

  /** A binary operation: the operator's text and line, the operands in order. */
  function BinaryNode(op: Token, left: Node, right: Node): (n: Node)
    requires ValidToken(op) && IsBinaryOperator(op.kind) && IsExpr(left) && IsExpr(right)
    ensures IsExpr(n) && n.kind == BinaryOp && n.line == Some(op.line)
  {
    Node(BinaryOp, [left, right], Some(op.value), Some(op.line))
  }

  /** `!e` or `-e`. */
  function PrefixNode(op: Token, operand: Node): (n: Node)
    requires ValidToken(op) && (op.kind == Not || op.kind == Minus) && IsExpr(operand)
    ensures IsExpr(n) && n.kind == UnaryOp && n.line == Some(op.line)
  {
    Node(UnaryOp, [operand], Some(op.value), Some(op.line))
  }

  /** `++ID`, `--ID`, `ID++` or `ID--`: the same node, on the operator's line. */
  function StepNode(op: Token, id: Token): (n: Node)
    requires ValidToken(op) && (op.kind == Increment || op.kind == Decrement)
    requires ValidToken(id) && id.kind == Id
    ensures IsExpr(n) && n.kind == UnaryOp && n.line == Some(op.line)
  {
    Node(UnaryOp, [IdLeaf(id)], Some(op.value), Some(op.line))
  }

  /** `ID op e` on the identifier's line. */
  function AssignmentNode(id: Token, op: Token, rhs: Node): (n: Node)
    requires ValidToken(id) && id.kind == Id && ValidToken(op) && IsAssignOperator(op.kind) && IsExpr(rhs)
    ensures IsExpr(n) && n.kind == Assignment && n.line == Some(id.line)
  {
    Node(Assignment, [IdLeaf(id), OperatorLeaf(op), rhs], None, Some(id.line))
  }

  /** `ID [ e ]` on the identifier's line. */
  function AccessNode(id: Token, index: Node): (n: Node)
    requires ValidToken(id) && id.kind == Id && IsExpr(index)
    ensures IsExpr(n) && n.kind == ArrayAccess && n.line == Some(id.line)
  {
    Node(ArrayAccess, [IdLeaf(id), index], None, Some(id.line))
  }

  /** `ID [ e ] = e` on the line of the access. */
  function ElementAssignmentNode(access: Node, op: Token, rhs: Node): (n: Node)
    requires access.kind == ArrayAccess && IsExpr(access)
    requires ValidToken(op) && op.kind == Assign && IsExpr(rhs)
    ensures IsExpr(n) && n.kind == ArrayAssignment && n.line == access.line
  {
    Node(ArrayAssignment, [access, OperatorLeaf(op), rhs], None, access.line)
  }

  /**
   * The argument list of a call, on the line of the token it starts at: the
   * first argument's, or the identifier's when there are none.
   */
  function ArgumentsNode(first: Token, args: seq<Node>): (n: Node)
    requires forall i :: 0 <= i < |args| ==> IsExpr(args[i])
    ensures IsArgumentList(n) && n.children == args && n.line == Some(first.line)
  {
    Inner(ArgumentList, args, first.line)
  }

  /** `ID ( arguments )` on the identifier's line. */
  function CallNode(id: Token, args: Node): (n: Node)
    requires ValidToken(id) && id.kind == Id && IsArgumentList(args)
    ensures IsExpr(n) && n.kind == FunctionCall && n.line == Some(id.line)
  {
    Node(FunctionCall, [IdLeaf(id), args], None, Some(id.line))
  }

  /** `type ID`, with the initialiser when there is one, on the type's line. */
  function DeclarationNode(ty: Token, id: Token, init: seq<Node>): (n: Node)
    requires ValidToken(ty) && IsTypeKeyword(ty.kind) && ValidToken(id) && id.kind == Id
    requires |init| <= 1 && forall i :: 0 <= i < |init| ==> IsExpr(init[i])
    ensures IsDeclaration(n) && IsStatement(n) && n.line == Some(ty.line)
  {
    Inner(Declaration, [TypeLeaf(ty), IdLeaf(id)] + init, ty.line)
  }

  /** `type ID [ n ]`, the size a leaf holding the literal's number, on the type's line. */
  function ArrayDeclarationNode(ty: Token, id: Token, size: Token): (n: Node)
    requires ValidToken(ty) && IsTypeKeyword(ty.kind) && ValidToken(id) && id.kind == Id
    requires ValidToken(size) && size.kind == IntLiteral
    ensures IsStatement(n) && n.line == Some(ty.line)
  {
    Inner(ArrayDeclaration, [TypeLeaf(ty), IdLeaf(id), Leaf(Size, size.value, size.line)], ty.line)
  }

  /** `if ( e ) s`, with the else branch when there is one, on the keyword's line. */
  function IfNode(kw: Token, cond: Node, body: Node, alt: seq<Node>): (n: Node)
    requires IsExpr(cond) && IsStatement(body)
    requires |alt| <= 1 && forall i :: 0 <= i < |alt| ==> IsStatement(alt[i])
    ensures IsStatement(n) && n.line == Some(kw.line)
  {
    var n := Inner(IfStatement, [cond, body] + alt, kw.line);
    assert n.children[0] == cond && n.children[1] == body;
    assert |alt| == 1 ==> n.children[2] == alt[0];
    n
  }

  /** `for ( init ; cond ; update ) s` on the keyword's line. */
  function ForNode(kw: Token, clauses: ForClauses, body: Node): (n: Node)
    requires IsDeclaration(clauses.init) || IsExprOrEmpty(clauses.init)
    requires IsExprOrEmpty(clauses.cond) && IsExprOrEmpty(clauses.update) && IsStatement(body)
    ensures IsStatement(n) && n.line == Some(kw.line)
  {
    Inner(ForStatement, [clauses.init, clauses.cond, clauses.update, body], kw.line)
  }

  /**
   * An expression at the given level can end at pos: the input ends, or
   * the next token is no binary operator of at least that level.
   */
  predicate Stops(toks: seq<Token>, pos: nat, floor: nat)
  {
    pos == |toks| || (pos < |toks| && (!IsBinaryOperator(toks[pos].kind) || Precedence(toks[pos].kind) < floor))
  }

  /** An expression whose operators all have at least the given level. */
  function ParseExpr(toks: seq<Token>, pos: nat, floor: nat): (r: Result<Parsed>)
    requires ValidTokens(toks) && pos <= |toks|
    ensures r.Ok? ==> pos < r.value.next <= |toks| && IsExpr(r.value.node)
    ensures r.Ok? ==> Stops(toks, r.value.next, floor)
    decreases |toks| - pos, 6
  {
    match ParseUnary(toks, pos)
    case Err(e) => Err(e)
    case Ok(operand) => BinaryRest(toks, operand.node, operand.next, floor)
  }

  /** Binary operators of at least the given level, each grouping what is to its left. */
  function BinaryRest(toks: seq<Token>, left: Node, pos: nat, floor: nat): (r: Result<Parsed>)
    requires ValidTokens(toks) && pos <= |toks| && IsExpr(left)
    ensures r.Ok? ==> pos <= r.value.next <= |toks| && IsExpr(r.value.node)
    ensures r.Ok? ==> Stops(toks, r.value.next, floor)
    decreases |toks| - pos, 6
  {
    if pos < |toks| && IsBinaryOperator(toks[pos].kind) && Precedence(toks[pos].kind) >= floor then
      var op := toks[pos];
      match ParseExpr(toks, pos + 1, OperandFloor(op.kind))
      case Err(e) => Err(e)
      case Ok(right) =>
        assert ValidToken(toks[pos]);
        var node := BinaryNode(op, left, right.node);
        BinaryRest(toks, node, right.next, floor)
    else
      Ok(Parsed(left, pos))
  }

  /** `!e`, `-e`, `++ID`, `--ID`, or a primary expression. */
  function ParseUnary(toks: seq<Token>, pos: nat): (r: Result<Parsed>)
    requires ValidTokens(toks) && pos <= |toks|
    ensures r.Ok? ==> pos < r.value.next <= |toks| && IsExpr(r.value.node)
    decreases |toks| - pos, 5
  {
    if At(toks, pos, Not) || At(toks, pos, Minus) then
      ParsePrefix(toks, pos)
    else if At(toks, pos, Increment) || At(toks, pos, Decrement) then
      if At(toks, pos + 1, Id) then
        assert ValidToken(toks[pos]) && ValidToken(toks[pos + 1]);
        Ok(Parsed(StepNode(toks[pos], toks[pos + 1]), pos + 2))
      else
        Err(Fail(toks, pos + 1))
    else
      ParsePrimary(toks, pos)
  }

  /** `!e` or `-e`: the operand takes in the operators that bind more tightly than the sign. */
  function ParsePrefix(toks: seq<Token>, pos: nat): (r: Result<Parsed>)
    requires ValidTokens(toks) && (At(toks, pos, Not) || At(toks, pos, Minus))
    ensures r.Ok? ==> pos < r.value.next <= |toks| && IsExpr(r.value.node)
    decreases |toks| - pos, 4
  {
    var op := toks[pos];
    match ParseExpr(toks, pos + 1, OperandFloor(op.kind))
    case Err(e) => Err(e)
    case Ok(operand) =>
      assert ValidToken(toks[pos]);
      Ok(Parsed(PrefixNode(op, operand.node), operand.next))
  }

  /** A literal, a parenthesised expression, or an expression that starts with an identifier. */
  function ParsePrimary(toks: seq<Token>, pos: nat): (r: Result<Parsed>)
    requires ValidTokens(toks) && pos <= |toks|
    ensures r.Ok? ==> pos < r.value.next <= |toks| && IsExpr(r.value.node)
    decreases |toks| - pos, 4
  {
    if pos == |toks| then Err(UnexpectedEnd)
    else
      var t := toks[pos];
      if IsLiteral(t.kind) then
        Ok(Parsed(Leaf(Literal, t.value, t.line), pos + 1))
      else if t.kind == LParen then
        match ParseExpr(toks, pos + 1, 0)
        case Err(e) => Err(e)
        case Ok(inner) =>
          if At(toks, inner.next, RParen) then Ok(Parsed(inner.node, inner.next + 1))
          else Err(Fail(toks, inner.next))
      else if t.kind == Id then
        ParseIdExpr(toks, pos)
      else
        Err(UnexpectedToken(t))
  }

  /**
   * What an identifier starts: an assignment, a postfix step, a call, an
   * element access or assignment, or the identifier alone.
   */
  function ParseIdExpr(toks: seq<Token>, pos: nat): (r: Result<Parsed>)
    requires ValidTokens(toks) && At(toks, pos, Id)
    ensures r.Ok? ==> pos < r.value.next <= |toks| && IsExpr(r.value.node)
    decreases |toks| - pos, 3
  {
    assert ValidToken(toks[pos]);
    if pos + 1 < |toks| && IsAssignOperator(toks[pos + 1].kind) then
      ParseAssignment(toks, pos)
    else if At(toks, pos + 1, Increment) || At(toks, pos + 1, Decrement) then
      assert ValidToken(toks[pos + 1]);
      Ok(Parsed(StepNode(toks[pos + 1], toks[pos]), pos + 2))
    else if At(toks, pos + 1, LParen) then
      ParseCall(toks, pos)
    else if At(toks, pos + 1, LBracket) then
      ParseElement(toks, pos)
    else
      Ok(Parsed(IdLeaf(toks[pos]), pos + 1))
  }

  /** `ID op e` for `=` and the five compound assignment operators. */
  function ParseAssignment(toks: seq<Token>, pos: nat): (r: Result<Parsed>)
    requires ValidTokens(toks) && At(toks, pos, Id)
    requires pos + 1 < |toks| && IsAssignOperator(toks[pos + 1].kind)
    ensures r.Ok? ==> pos < r.value.next <= |toks| && IsExpr(r.value.node)
    decreases |toks| - pos, 2
  {
    match ParseExpr(toks, pos + 2, 0)
    case Err(e) => Err(e)
    case Ok(rhs) =>
      assert ValidToken(toks[pos]) && ValidToken(toks[pos + 1]);
      Ok(Parsed(AssignmentNode(toks[pos], toks[pos + 1], rhs.node), rhs.next))
  }

  /** `ID ( )` or `ID ( arguments )`. */
  function ParseCall(toks: seq<Token>, pos: nat): (r: Result<Parsed>)
    requires ValidTokens(toks) && At(toks, pos, Id) && At(toks, pos + 1, LParen)
    ensures r.Ok? ==> pos < r.value.next <= |toks| && IsExpr(r.value.node)
    ensures r.Ok? ==> r.value.node.kind == FunctionCall
    decreases |toks| - pos, 2
  {
    assert ValidToken(toks[pos]);
    if At(toks, pos + 2, RParen) then
      Ok(Parsed(CallNode(toks[pos], ArgumentsNode(toks[pos], [])), pos + 3))
    else if pos + 2 == |toks| then
      Err(UnexpectedEnd)
    else
      match ParseArgs(toks, pos + 2)
      case Err(e) => Err(e)
      case Ok(args) =>
        if At(toks, args.next, RParen) then
          Ok(Parsed(CallNode(toks[pos], ArgumentsNode(toks[pos + 2], args.nodes)), args.next + 1))
        else
          Err(Fail(toks, args.next))
  }

  /** Comma-separated arguments, in source order. */
  function ParseArgs(toks: seq<Token>, pos: nat): (r: Result<ParsedList>)
    requires ValidTokens(toks) && pos <= |toks|
    ensures r.Ok? ==> pos < r.value.next <= |toks| && r.value.nodes != []
    ensures r.Ok? ==> forall i :: 0 <= i < |r.value.nodes| ==> IsExpr(r.value.nodes[i])
    decreases |toks| - pos, 7
  {
    match ParseExpr(toks, pos, 0)
    case Err(e) => Err(e)
    case Ok(arg) =>
      if At(toks, arg.next, Comma) then
        match ParseArgs(toks, arg.next + 1)
        case Err(e) => Err(e)
        case Ok(rest) => Ok(ParsedList([arg.node] + rest.nodes, rest.next))
      else
        Ok(ParsedList([arg.node], arg.next))
  }

  /** `ID [ e ]`, and `ID [ e ] = e` when an assignment follows. */
  function ParseElement(toks: seq<Token>, pos: nat): (r: Result<Parsed>)
    requires ValidTokens(toks) && At(toks, pos, Id) && At(toks, pos + 1, LBracket)
    ensures r.Ok? ==> pos < r.value.next <= |toks| && IsExpr(r.value.node)
    decreases |toks| - pos, 2
  {
    match ParseAccess(toks, pos)
    case Err(e) => Err(e)
    case Ok(access) =>
      if At(toks, access.next, Assign) then ParseElementAssignment(toks, access.node, access.next)
      else Ok(access)
  }

  /** `ID [ e ]`: the identifier and the index, on the identifier's line. */
  function ParseAccess(toks: seq<Token>, pos: nat): (r: Result<Parsed>)
    requires ValidTokens(toks) && At(toks, pos, Id) && At(toks, pos + 1, LBracket)
    ensures r.Ok? ==> pos < r.value.next <= |toks| && IsExpr(r.value.node) && r.value.node.kind == ArrayAccess
    decreases |toks| - pos, 1
  {
    match ParseExpr(toks, pos + 2, 0)
    case Err(e) => Err(e)
    case Ok(index) =>
      if !At(toks, index.next, RBracket) then Err(Fail(toks, index.next))
      else
        assert ValidToken(toks[pos]);
        Ok(Parsed(AccessNode(toks[pos], index.node), index.next + 1))
  }

  /** `= e` after an element access. */
  function ParseElementAssignment(toks: seq<Token>, access: Node, pos: nat): (r: Result<Parsed>)
    requires ValidTokens(toks) && At(toks, pos, Assign)
    requires access.kind == ArrayAccess && IsExpr(access)
    ensures r.Ok? ==> pos < r.value.next <= |toks| && IsExpr(r.value.node)
    decreases |toks| - pos, 0
  {
    match ParseExpr(toks, pos + 1, 0)
    case Err(e) => Err(e)
    case Ok(rhs) =>
      assert ValidToken(toks[pos]);
      Ok(Parsed(ElementAssignmentNode(access, toks[pos], rhs.node), rhs.next))
  }

  /** `type ID` or `type ID = e`, with nothing after it consumed. */
  function ParseDeclarator(toks: seq<Token>, pos: nat): (r: Result<Parsed>)
    requires ValidTokens(toks) && pos < |toks| && IsTypeKeyword(toks[pos].kind)
    ensures r.Ok? ==> pos < r.value.next <= |toks| && IsDeclaration(r.value.node)
    ensures r.Ok? ==> r.value.node.line == Some(toks[pos].line)
    decreases |toks| - pos, 7
  {
    if !At(toks, pos + 1, Id) then Err(Fail(toks, pos + 1))
    else
      assert ValidToken(toks[pos]) && ValidToken(toks[pos + 1]);
      if At(toks, pos + 2, Assign) then
        match ParseExpr(toks, pos + 3, 0)
        case Err(e) => Err(e)
        case Ok(init) => Ok(Parsed(DeclarationNode(toks[pos], toks[pos + 1], [init.node]), init.next))
      else
        Ok(Parsed(DeclarationNode(toks[pos], toks[pos + 1], []), pos + 2))
  }

  /** `type ID [ n ] ;`, whose size is the literal's number. */
  function ParseArrayDeclaration(toks: seq<Token>, pos: nat): (r: Result<Parsed>)
    requires ValidTokens(toks) && pos < |toks| && IsTypeKeyword(toks[pos].kind)
    requires At(toks, pos + 1, Id) && At(toks, pos + 2, LBracket)
    ensures r.Ok? ==> pos < r.value.next <= |toks| && IsStatement(r.value.node)
    ensures r.Ok? ==> r.value.node.line == Some(toks[pos].line)
    decreases |toks| - pos, 7
  {
    if !At(toks, pos + 3, IntLiteral) then Err(Fail(toks, pos + 3))
    else if !At(toks, pos + 4, RBracket) then Err(Fail(toks, pos + 4))
    else if !At(toks, pos + 5, Semicolon) then Err(Fail(toks, pos + 5))
    else
      assert ValidToken(toks[pos]) && ValidToken(toks[pos + 1]) && ValidToken(toks[pos + 3]);
      Ok(Parsed(ArrayDeclarationNode(toks[pos], toks[pos + 1], toks[pos + 3]), pos + 6))
  }

  /** `type ID ;`, `type ID = e ;` or `type ID [ n ] ;`. */
  function ParseDeclaration(toks: seq<Token>, pos: nat): (r: Result<Parsed>)
    requires ValidTokens(toks) && pos < |toks| && IsTypeKeyword(toks[pos].kind)
    ensures r.Ok? ==> pos < r.value.next <= |toks| && IsStatement(r.value.node)
    ensures r.Ok? ==> r.value.node.line == Some(toks[pos].line)
    decreases |toks| - pos, 8
  {
    if At(toks, pos + 1, Id) && At(toks, pos + 2, LBracket) then
      ParseArrayDeclaration(toks, pos)
    else
      match ParseDeclarator(toks, pos)
      case Err(e) => Err(e)
      case Ok(decl) =>
        if At(toks, decl.next, Semicolon) then
          assert decl.node.kind == Declaration && IsStatement(decl.node);
          Ok(Parsed(decl.node, decl.next + 1))
        else Err(Fail(toks, decl.next))
  }

  /** `{ statements }`; an empty body carries the line of the closing brace. */
  function ParseBlock(toks: seq<Token>, pos: nat): (r: Result<Parsed>)
    requires ValidTokens(toks) && At(toks, pos, LBrace)
    ensures r.Ok? ==> pos < r.value.next <= |toks| && IsStatement(r.value.node)
    ensures r.Ok? ==> r.value.node.line == Some(toks[pos].line)
    decreases |toks| - pos, 8
  {
    match ParseStatements(toks, pos + 1, true)
    case Err(e) => Err(e)
    case Ok(body) =>
      NestStatementsWellFormed(body.nodes, toks[body.next].line);
      Ok(Parsed(Inner(Block, [NestStatements(body.nodes, toks[body.next].line)], toks[pos].line), body.next + 1))
  }

  /** `( e )` after a keyword. */
  function ParseCondition(toks: seq<Token>, pos: nat): (r: Result<Parsed>)
    requires ValidTokens(toks) && pos <= |toks|
    ensures r.Ok? ==> pos < r.value.next <= |toks| && IsExpr(r.value.node)
    decreases |toks| - pos, 7
  {
    if !At(toks, pos, LParen) then Err(Fail(toks, pos))
    else
      match ParseExpr(toks, pos + 1, 0)
      case Err(e) => Err(e)
      case Ok(cond) =>
        if At(toks, cond.next, RParen) then Ok(Parsed(cond.node, cond.next + 1))
        else Err(Fail(toks, cond.next))
  }

  /** `if ( e ) s` or `if ( e ) s else s`. */
  function ParseIf(toks: seq<Token>, pos: nat): (r: Result<Parsed>)
    requires ValidTokens(toks) && At(toks, pos, KwIf)
    ensures r.Ok? ==> pos < r.value.next <= |toks| && IsStatement(r.value.node)
    ensures r.Ok? ==> r.value.node.line == Some(toks[pos].line)
    decreases |toks| - pos, 8
  {
    match ParseCondition(toks, pos + 1)
    case Err(e) => Err(e)
    case Ok(cond) =>
      match ParseStatement(toks, cond.next)
      case Err(e) => Err(e)
      case Ok(body) =>
        match ParseElse(toks, body.next)
        case Err(e) => Err(e)
        case Ok(alt) => Ok(Parsed(IfNode(toks[pos], cond.node, body.node, alt.nodes), alt.next))
  }

  /**
   * The else branch after the first branch of an `if`, if there is one: an
   * `else` here belongs to the `if` just before it, the nearest one.
   */
  function ParseElse(toks: seq<Token>, pos: nat): (r: Result<ParsedList>)
    requires ValidTokens(toks) && pos <= |toks|
    ensures r.Ok? ==> pos <= r.value.next <= |toks| && |r.value.nodes| <= 1
    ensures r.Ok? ==> forall i :: 0 <= i < |r.value.nodes| ==> IsStatement(r.value.nodes[i])
    ensures r.Ok? && r.value.nodes == [] ==> r.value.next == pos
    decreases |toks| - pos, 7
  {
    if At(toks, pos, KwElse) then
      match ParseStatement(toks, pos + 1)
      case Err(e) => Err(e)
      case Ok(alt) => Ok(ParsedList([alt.node], alt.next))
    else
      Ok(ParsedList([], pos))
  }

  /** `while ( e ) s`. */
  function ParseWhile(toks: seq<Token>, pos: nat): (r: Result<Parsed>)
    requires ValidTokens(toks) && At(toks, pos, KwWhile)
    ensures r.Ok? ==> pos < r.value.next <= |toks| && IsStatement(r.value.node)
    ensures r.Ok? ==> r.value.node.line == Some(toks[pos].line)
    decreases |toks| - pos, 8
  {
    match ParseCondition(toks, pos + 1)
    case Err(e) => Err(e)
    case Ok(cond) =>
      match ParseStatement(toks, cond.next)
      case Err(e) => Err(e)
      case Ok(body) => Ok(Parsed(Inner(WhileStatement, [cond.node, body.node], toks[pos].line), body.next))
  }

  /**
   * An optional expression ending where `stop` stands; when it is omitted
   * it is an Empty node carrying the line of the token that ends it.
   */
  function ParseClause(toks: seq<Token>, pos: nat, stop: Kind): (r: Result<Parsed>)
    requires ValidTokens(toks) && pos <= |toks|
    ensures r.Ok? ==> pos <= r.value.next <= |toks| && IsExprOrEmpty(r.value.node)
    ensures r.Ok? && r.value.node.kind == Empty ==> r.value.next == pos && At(toks, pos, stop)
    decreases |toks| - pos, 7
  {
    if At(toks, pos, stop) then Ok(Parsed(Inner(Empty, [], toks[pos].line), pos))
    else ParseExpr(toks, pos, 0)
  }

  /** The first clause of a for statement: a declaration, an expression, or nothing. */
  function ParseForInit(toks: seq<Token>, pos: nat): (r: Result<Parsed>)
    requires ValidTokens(toks) && pos <= |toks|
    ensures r.Ok? ==> pos <= r.value.next <= |toks|
    ensures r.Ok? ==> IsDeclaration(r.value.node) || IsExprOrEmpty(r.value.node)
    decreases |toks| - pos, 8
  {
    if pos < |toks| && IsTypeKeyword(toks[pos].kind) then ParseDeclarator(toks, pos)
    else ParseClause(toks, pos, Semicolon)
  }

  /** `( init ; cond ; update )` of a for statement. */
  function ParseForClauses(toks: seq<Token>, pos: nat): (r: Result<ForClauses>)
    requires ValidTokens(toks) && pos <= |toks|
    ensures r.Ok? ==> pos < r.value.next <= |toks|
    ensures r.Ok? ==> IsDeclaration(r.value.init) || IsExprOrEmpty(r.value.init)
    ensures r.Ok? ==> IsExprOrEmpty(r.value.cond) && IsExprOrEmpty(r.value.update)
    decreases |toks| - pos, 8
  {
    if !At(toks, pos, LParen) then Err(Fail(toks, pos))
    else
      match ParseForInit(toks, pos + 1)
      case Err(e) => Err(e)
      case Ok(init) =>
        if !At(toks, init.next, Semicolon) then Err(Fail(toks, init.next))
        else
          match ParseClause(toks, init.next + 1, Semicolon)
          case Err(e) => Err(e)
          case Ok(cond) =>
            if !At(toks, cond.next, Semicolon) then Err(Fail(toks, cond.next))
            else
              match ParseClause(toks, cond.next + 1, RParen)
              case Err(e) => Err(e)
              case Ok(update) =>
                if !At(toks, update.next, RParen) then Err(Fail(toks, update.next))
                else Ok(ForClauses(init.node, cond.node, update.node, update.next + 1))
  }

  /** `for ( init ; cond ; update ) s`: always four children. */
  function ParseFor(toks: seq<Token>, pos: nat): (r: Result<Parsed>)
    requires ValidTokens(toks) && At(toks, pos, KwFor)
    ensures r.Ok? ==> pos < r.value.next <= |toks| && IsStatement(r.value.node)
    ensures r.Ok? ==> r.value.node.line == Some(toks[pos].line)
    decreases |toks| - pos, 8
  {
    match ParseForClauses(toks, pos + 1)
    case Err(e) => Err(e)
    case Ok(clauses) =>
      match ParseStatement(toks, clauses.next)
      case Err(e) => Err(e)
      case Ok(body) =>
        Ok(Parsed(ForNode(toks[pos], clauses, body.node), body.next))
  }

  /** `return ;` or `return e ;`. */
  function ParseReturn(toks: seq<Token>, pos: nat): (r: Result<Parsed>)
    requires ValidTokens(toks) && At(toks, pos, KwReturn)
    ensures r.Ok? ==> pos < r.value.next <= |toks| && IsStatement(r.value.node)
    ensures r.Ok? ==> r.value.node.line == Some(toks[pos].line)
    decreases |toks| - pos, 8
  {
    var line := toks[pos].line;
    if At(toks, pos + 1, Semicolon) then Ok(Parsed(Inner(ReturnStatement, [], line), pos + 2))
    else
      match ParseExpr(toks, pos + 1, 0)
      case Err(e) => Err(e)
      case Ok(value) =>
        if At(toks, value.next, Semicolon) then Ok(Parsed(Inner(ReturnStatement, [value.node], line), value.next + 1))
        else Err(Fail(toks, value.next))
  }

  /** `e ;` or a lone `;`, carrying the line of its first token. */
  function ParseExpressionStatement(toks: seq<Token>, pos: nat): (r: Result<Parsed>)
    requires ValidTokens(toks) && pos < |toks|
    ensures r.Ok? ==> pos < r.value.next <= |toks| && IsStatement(r.value.node)
    ensures r.Ok? ==> r.value.node.line == Some(toks[pos].line)
    decreases |toks| - pos, 8
  {
    var line := toks[pos].line;
    if toks[pos].kind == Semicolon then Ok(Parsed(Inner(ExpressionStatement, [], line), pos + 1))
    else
      match ParseExpr(toks, pos, 0)
      case Err(e) => Err(e)
      case Ok(e) =>
        if At(toks, e.next, Semicolon) then Ok(Parsed(Inner(ExpressionStatement, [e.node], line), e.next + 1))
        else Err(Fail(toks, e.next))
  }

  /** One statement, chosen by its first token, carrying that token's line. */
  function ParseStatement(toks: seq<Token>, pos: nat): (r: Result<Parsed>)
    requires ValidTokens(toks) && pos <= |toks|
    ensures r.Ok? ==> pos < r.value.next <= |toks| && IsStatement(r.value.node)
    ensures r.Ok? ==> r.value.node.line == Some(toks[pos].line)
    decreases |toks| - pos, 9
  {
    if pos == |toks| then Err(UnexpectedEnd)
    else
      var k := toks[pos].kind;
      if IsTypeKeyword(k) then ParseDeclaration(toks, pos)
      else if k == LBrace then ParseBlock(toks, pos)
      else if k == KwIf then ParseIf(toks, pos)
      else if k == KwWhile then ParseWhile(toks, pos)
      else if k == KwFor then ParseFor(toks, pos)
      else if k == KwReturn then ParseReturn(toks, pos)
      else if k == KwBreak || k == KwContinue then
        if At(toks, pos + 1, Semicolon) then
          Ok(Parsed(Inner(if k == KwBreak then BreakStatement else ContinueStatement, [], toks[pos].line), pos + 2))
        else
          Err(Fail(toks, pos + 1))
      else ParseExpressionStatement(toks, pos)
  }

  /**
   * Statements up to the end of the input, or, inside a block, up to the
   * closing brace (which is left for the block to take).
   */
  function ParseStatements(toks: seq<Token>, pos: nat, inBlock: bool): (r: Result<ParsedList>)
    requires ValidTokens(toks) && pos <= |toks|
    ensures r.Ok? ==> pos <= r.value.next <= |toks|
    ensures r.Ok? ==> forall i :: 0 <= i < |r.value.nodes| ==> IsStatement(r.value.nodes[i])
    ensures r.Ok? && inBlock ==> At(toks, r.value.next, RBrace)
    ensures r.Ok? && !inBlock ==> r.value.next == |toks|
    ensures r.Ok? && r.value.nodes == [] ==> r.value.next == pos
    ensures r.Ok? && r.value.nodes != [] ==> pos < |toks| && r.value.nodes[0].line == Some(toks[pos].line)
    decreases |toks| - pos, 10
  {
    if pos == |toks| then
      if inBlock then Err(UnexpectedEnd) else Ok(ParsedList([], pos))
    else if inBlock && toks[pos].kind == RBrace then
      Ok(ParsedList([], pos))
    else
      match ParseStatement(toks, pos)
      case Err(e) => Err(e)
      case Ok(first) =>
        match ParseStatements(toks, first.next, inBlock)
        case Err(e) => Err(e)
        case Ok(rest) => Ok(ParsedList([first.node] + rest.nodes, rest.next))
  }

  /**
   * A whole program. endLine is the scanner's line counter once the input
   * is used up: an empty program's statement list carries it.
   */
  function Parse(toks: seq<Token>, endLine: nat): (r: Result<Node>)
    requires ValidTokens(toks)
    ensures r.Ok? ==> IsProgram(r.value)
    ensures r.Ok? ==> r.value.line == if toks == [] then Some(endLine) else Some(toks[0].line)
  {
    match ParseStatements(toks, 0, false)
    case Err(e) => Err(e)
    case Ok(list) =>
      NestStatementsWellFormed(list.nodes, endLine);
      var body := NestStatements(list.nodes, endLine);
      Ok(Node(Program, [body], None, body.line))
  }

  /** What analysing a text gives: the tree or the syntax error, and the lexical errors reported on the way. */
  datatype Analysis = Analysis(tree: Result<Node>, lexErrors: seq<Lexer.LexError>)

  /**
   * Source text to tree: the scanner's tokens, then the parse. The scanner
   * reports its errors and goes on, so they come back beside the tree.
   */
  function ParseSource(src: string): (r: Analysis)
    ensures r.tree.Ok? ==> IsProgram(r.tree.value)
    ensures r.lexErrors == Lexer.Lex(src).errors
    ensures forall e :: e in r.lexErrors ==> e.ch in src && 1 <= e.line
  {
    var scanned := Lexer.Lex(src);
    LexerProperties.ScanTokensValid(src, 0, 1);
    LexerProperties.ScanErrorsFromSource(src, 0, 1);
    LexerProperties.ScanLines(src, 0, 1);
    assert src[0..] == src;
    Analysis(Parse(scanned.tokens, scanned.line), scanned.errors)
  }
}
