/**
 * The syntax tree. As in the analyzer, every node has a kind, an ordered
 * list of children, an optional value and an optional line; the predicates
 * below state which shapes the analyzer builds for each kind of node.
 */
module Ast {
  import opened Tokens

  datatype NodeKind =
    | Program | StatementList | ExpressionStatement | Block
    | Declaration | ArrayDeclaration | Type | ID | Size
    | IfStatement | WhileStatement | ForStatement | Empty
    | ReturnStatement | BreakStatement | ContinueStatement
    | Assignment | ArrayAssignment | Operator | BinaryOp | UnaryOp
    | ArrayAccess | FunctionCall | ArgumentList | Literal

  datatype Node = Node(kind: NodeKind, children: seq<Node>, value: Option<Value>, line: Option<nat>)

  /** The name a node kind is printed with. */
  function KindText(k: NodeKind): string
  {
    match k
    case Program => "Program"
    case StatementList => "StatementList"
    case ExpressionStatement => "ExpressionStatement"
    case Block => "Block"
    case Declaration => "Declaration"
    case ArrayDeclaration => "ArrayDeclaration"
    case Type => "Type"
    case ID => "ID"
    case Size => "Size"
    case IfStatement => "IfStatement"
    case WhileStatement => "WhileStatement"
    case ForStatement => "ForStatement"
    case Empty => "Empty"
    case ReturnStatement => "ReturnStatement"
    case BreakStatement => "BreakStatement"
    case ContinueStatement => "ContinueStatement"
    case Assignment => "Assignment"
    case ArrayAssignment => "ArrayAssignment"
    case Operator => "Operator"
    case BinaryOp => "BinaryOp"
    case UnaryOp => "UnaryOp"
    case ArrayAccess => "ArrayAccess"
    case FunctionCall => "FunctionCall"
    case ArgumentList => "ArgumentList"
    case Literal => "Literal"
  }

  /** A node with a value and no children. */
  function Leaf(kind: NodeKind, v: Value, line: nat): Node
  {
    Node(kind, [], Some(v), Some(line))
  }

  /** A node with children and no value. */
  function Inner(kind: NodeKind, children: seq<Node>, line: nat): Node
  {
    Node(kind, children, None, Some(line))
  }

  const BinaryOperators: set<string> := {"+", "-", "*", "/", "%", "==", "!=", "<", "<=", ">", ">=", "&&", "||"}
  const UnaryOperators: set<string> := {"!", "-", "++", "--"}
  const StepOperators: set<string> := {"++", "--"}
  const AssignOperators: set<string> := {"=", "+=", "-=", "*=", "/=", "%="}
  const TypeNames: set<string> := {"int", "float", "char", "void"}

  predicate IsLeaf(n: Node, k: NodeKind)
  {
    n.kind == k && n.children == [] && n.value.Some? && n.line.Some?
  }

  /** A leaf whose value is a piece of text drawn from the given set. */
  predicate IsTextLeaf(n: Node, k: NodeKind, texts: set<string>)
  {
    IsLeaf(n, k) && n.value.value.Text? && n.value.value.s in texts
  }

  predicate IsIdLeaf(n: Node)
  {
    IsLeaf(n, ID) && n.value.value.Text? && IsIdentifier(n.value.value.s)
  }

  predicate HasOperatorValue(n: Node, ops: set<string>)
  {
    n.value.Some? && n.value.value.Text? && n.value.value.s in ops
  }

  predicate IsEmpty(n: Node)
  {
    n.kind == Empty && n.children == [] && n.value.None? && n.line.Some?
  }

  /** The shapes of expression nodes. */
  predicate IsExpr(n: Node)
    decreases n
  {
    n.line.Some? &&
    match n.kind
    case Literal => n.children == [] && n.value.Some?
    case ID => IsIdLeaf(n)
    case BinaryOp =>
      |n.children| == 2 && HasOperatorValue(n, BinaryOperators)
      && IsExpr(n.children[0]) && IsExpr(n.children[1])
    case UnaryOp =>
      |n.children| == 1 && HasOperatorValue(n, UnaryOperators)
      && (if n.value.value.s in StepOperators then IsIdLeaf(n.children[0]) else IsExpr(n.children[0]))
    case Assignment =>
      |n.children| == 3 && n.value.None?
      && IsIdLeaf(n.children[0]) && IsTextLeaf(n.children[1], Operator, AssignOperators) && IsExpr(n.children[2])
    case ArrayAssignment =>
      |n.children| == 3 && n.value.None?
      && n.children[0].kind == ArrayAccess && IsExpr(n.children[0])
      && IsTextLeaf(n.children[1], Operator, {"="}) && IsExpr(n.children[2])
    case ArrayAccess =>
      |n.children| == 2 && n.value.None? && IsIdLeaf(n.children[0]) && IsExpr(n.children[1])
    case FunctionCall =>
      |n.children| == 2 && n.value.None? && IsIdLeaf(n.children[0])
      && IsArgumentList(n.children[1])
    case _ => false
  }

  predicate IsArgumentList(n: Node)
    decreases n, 0
  {
    n.kind == ArgumentList && n.value.None? && n.line.Some?
    && forall i :: 0 <= i < |n.children| ==> IsExpr(n.children[i])
  }

  /** `type ID`, optionally followed by an initialiser. */
  predicate IsDeclaration(n: Node)
  {
    n.kind == Declaration && n.value.None? && n.line.Some?
    && (|n.children| == 2 || |n.children| == 3)
    && IsTextLeaf(n.children[0], Type, TypeNames) && IsIdLeaf(n.children[1])
    && (|n.children| == 3 ==> IsExpr(n.children[2]))
  }

  predicate IsExprOrEmpty(n: Node)
  {
    IsExpr(n) || IsEmpty(n)
  }

  /** The shapes of statement nodes. */
  predicate IsStatement(n: Node)
    decreases n
  {
    var c := n.children;
    n.value.None? && n.line.Some? &&
    match n.kind
    case Declaration => IsDeclaration(n)
    case ArrayDeclaration =>
      |c| == 3 && IsTextLeaf(c[0], Type, TypeNames) && IsIdLeaf(c[1])
      && IsLeaf(c[2], Size) && c[2].value.value.Number?
    case ExpressionStatement => |c| <= 1 && (|c| == 1 ==> IsExpr(c[0]))
    case Block => |c| == 1 && IsStatementList(c[0])
    case IfStatement =>
      (|c| == 2 || |c| == 3) && IsExpr(c[0]) && IsStatement(c[1]) && (|c| == 3 ==> IsStatement(c[2]))
    case WhileStatement => |c| == 2 && IsExpr(c[0]) && IsStatement(c[1])
    case ForStatement =>
      |c| == 4 && (IsDeclaration(c[0]) || IsExprOrEmpty(c[0]))
      && IsExprOrEmpty(c[1]) && IsExprOrEmpty(c[2]) && IsStatement(c[3])
    case ReturnStatement => |c| <= 1 && (|c| == 1 ==> IsExpr(c[0]))
    case BreakStatement => c == []
    case ContinueStatement => c == []
    case _ => false
  }

  /**
   * A statement list is empty, holds one statement, or pairs a non-empty
   * statement list with the statement that follows it.
   */
  predicate IsStatementList(n: Node)
    decreases n
  {
    var c := n.children;
    n.kind == StatementList && n.value.None? && n.line.Some?
    && (|c| == 0
        || (|c| == 1 && IsStatement(c[0]))
        || (|c| == 2 && IsStatementList(c[0]) && c[0].children != [] && IsStatement(c[1])))
  }

  predicate IsProgram(n: Node)
  {
    n.kind == Program && n.value.None? && |n.children| == 1
    && IsStatementList(n.children[0]) && n.line == n.children[0].line
  }

  /** The statements a statement list holds, in source order. */
  function Statements(n: Node): (r: seq<Node>)
    ensures IsStatementList(n) ==> forall i :: 0 <= i < |r| ==> IsStatement(r[i])
    decreases n
  {
    if |n.children| == 2 then Statements(n.children[0]) + [n.children[1]] else n.children
  }

  /**
   * The statement list the analyzer builds for a run of statements: each
   * statement after the first is paired with the list before it. An empty
   * list carries emptyLine, a non-empty one the line of its first statement.
   */
  function NestStatements(stmts: seq<Node>, emptyLine: nat): (r: Node)
    ensures r.kind == StatementList && r.value.None?
    ensures r.line == if stmts == [] then Some(emptyLine) else stmts[0].line
    ensures |r.children| == if |stmts| < 2 then |stmts| else 2
    decreases |stmts|
  {
    if |stmts| == 0 then Node(StatementList, [], None, Some(emptyLine))
    else if |stmts| == 1 then Node(StatementList, [stmts[0]], None, stmts[0].line)
    else
      var init := NestStatements(stmts[..|stmts| - 1], emptyLine);
      Node(StatementList, [init, stmts[|stmts| - 1]], None, init.line)
  }

  /** Nesting loses nothing: the statements come back out in order. */
  lemma {:induction false} NestStatementsRoundTrip(stmts: seq<Node>, emptyLine: nat)
    ensures Statements(NestStatements(stmts, emptyLine)) == stmts
    decreases |stmts|
  {
    if |stmts| >= 2 {
      NestStatementsRoundTrip(stmts[..|stmts| - 1], emptyLine);
      assert stmts[..|stmts| - 1] + [stmts[|stmts| - 1]] == stmts;
    }
  }

  /** A statement list built from well-formed statements is well formed. */
  lemma {:induction false} NestStatementsWellFormed(stmts: seq<Node>, emptyLine: nat)
    requires forall i :: 0 <= i < |stmts| ==> IsStatement(stmts[i])
    ensures IsStatementList(NestStatements(stmts, emptyLine))
    decreases |stmts|
  {
    if |stmts| >= 2 {
      NestStatementsWellFormed(stmts[..|stmts| - 1], emptyLine);
    }
  }
}
