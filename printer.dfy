/**
 * The tree printer: one line per node, indented two spaces per level, with
 * the node's value after a colon and its line in brackets when present,
 * children in their stored order under their parent.
 *
 * Render is the specification; ToText is the accumulating loop the printer
 * runs, proved to produce exactly Render's text.
 */
module Printer {
  import opened Tokens
  import opened Ast
  import Lexer

  function DigitChar(d: nat): (c: char)
    requires d < 10
    ensures IsDigit(c) && c as int - '0' as int == d
  {
    ('0' as int + d) as char
  }

  /** The decimal numeral of n, without leading zeros. */
  function NatText(n: nat): (r: string)
    ensures IsDigits(r)
    ensures |r| > 1 ==> r[0] != '0'
    decreases n
  {
    if n < 10 then [DigitChar(n)] else NatText(n / 10) + [DigitChar(n % 10)]
  }

  /** Reading the numeral back gives the number. */
  lemma {:induction false} NatTextRoundTrip(n: nat)
    ensures Lexer.DecimalValue(NatText(n)) == n
    decreases n
  {
    if n >= 10 {
      NatTextRoundTrip(n / 10);
      var r := NatText(n);
      assert r[..|r| - 1] == NatText(n / 10);
    }
  }

  /** How a node value is written after the colon. */
  function ValueText(v: Value): string
  {
    match v
    case Text(s) => s
    case Number(k) => NatText(k)
    case Decimal(whole, frac) => whole + "." + frac
  }

  /** A number value prints as decimal digits that read back to it; a text value prints verbatim. */
  lemma ValueTextReadsBack(v: Value)
    ensures v.Text? ==> ValueText(v) == v.s
    ensures v.Number? ==> IsDigits(ValueText(v)) && Lexer.DecimalValue(ValueText(v)) == v.n
  {
    if v.Number? {
      NatTextRoundTrip(v.n);
    }
  }

  function Indent(level: nat): (r: string)
    ensures |r| == 2 * level
    ensures forall i :: 0 <= i < |r| ==> r[i] == ' '
  {
    seq(2 * level, i => ' ')
  }

  function ValuePart(n: Node): string
  {
    if n.value.Some? then ": " + ValueText(n.value.value) else ""
  }

  function LinePart(n: Node): string
  {
    if n.line.Some? then " [linha " + NatText(n.line.value) + "]" else ""
  }

  /** The line a node prints as, newline included. */
  function Header(n: Node, level: nat): string
  {
    Indent(level) + KindText(n.kind) + ValuePart(n) + LinePart(n) + "\n"
  }

  /** The printed tree: the node's line, then each child printed one level deeper. */
  function Render(n: Node, level: nat): string
    decreases n, |n.children| + 1
  {
    Header(n, level) + RenderChildren(n, 0, level + 1)
  }

  /** Children i, i+1, ... of n printed in order at the given level. */
  function RenderChildren(n: Node, i: nat, level: nat): string
    requires i <= |n.children|
    decreases n, |n.children| - i
  {
    if i == |n.children| then ""
    else Render(n.children[i], level) + RenderChildren(n, i + 1, level)
  }

  /** The node's own line, built piece by piece as the printer does. */
  method HeaderText(n: Node, level: nat) returns (result: string)
    ensures result == Header(n, level)
  {
    result := Indent(level) + KindText(n.kind);
    if n.value.Some? {
      result := result + ": " + ValueText(n.value.value);
    }
    assert result == Indent(level) + KindText(n.kind) + ValuePart(n);
    if n.line.Some? {
      result := result + " [linha " + NatText(n.line.value) + "]";
    }
    assert result == Indent(level) + KindText(n.kind) + ValuePart(n) + LinePart(n);
    result := result + "\n";
  }

  /**
   * The printer's loop: the node's line, then the text of each child
   * appended in turn.
   */
  method ToText(n: Node, level: nat) returns (result: string)
    ensures result == Render(n, level)
    decreases n, |n.children| + 1
  {
    result := HeaderText(n, level);
    var i := 0;
    while i < |n.children|
      invariant i <= |n.children|
      invariant result + RenderChildren(n, i, level + 1) == Render(n, level)
      decreases |n.children| - i
    {
      var child := ToText(n.children[i], level + 1);
      var rest := RenderChildren(n, i + 1, level + 1);
      assert RenderChildren(n, i, level + 1) == child + rest;
      assert result + (child + rest) == (result + child) + rest;
      result := result + child;
      i := i + 1;
    }
  }

  /** Every node of the tree, in the order the printer visits them, with its depth. */
  function Preorder(n: Node, level: nat): seq<(Node, nat)>
    decreases n, |n.children| + 1
  {
    [(n, level)] + PreorderChildren(n, 0, level + 1)
  }

  function PreorderChildren(n: Node, i: nat, level: nat): seq<(Node, nat)>
    requires i <= |n.children|
    decreases n, |n.children| - i
  {
    if i == |n.children| then []
    else Preorder(n.children[i], level) + PreorderChildren(n, i + 1, level)
  }

  /** The concatenated lines of a list of visited nodes. */
  function Headers(visits: seq<(Node, nat)>): string
  {
    if visits == [] then "" else Header(visits[0].0, visits[0].1) + Headers(visits[1..])
  }

  lemma {:induction false} HeadersAppend(a: seq<(Node, nat)>, b: seq<(Node, nat)>)
    ensures Headers(a + b) == Headers(a) + Headers(b)
    decreases |a|
  {
    if a == [] {
      assert a + b == b;
    } else {
      var ab := a + b;
      assert ab[0] == a[0];
      assert ab[1..] == a[1..] + b;
      HeadersAppend(a[1..], b);
      var h := Header(a[0].0, a[0].1);
      calc {
        Headers(ab);
        h + Headers(ab[1..]);
        h + (Headers(a[1..]) + Headers(b));
        (h + Headers(a[1..])) + Headers(b);
      }
    }
  }

  /**
   * The printed text is the nodes' lines in preorder: each node at its
   * depth, a parent before its children, children in stored order.
   */
  lemma {:induction false} RenderIsPreorder(n: Node, level: nat)
    ensures Render(n, level) == Headers(Preorder(n, level))
    decreases n, |n.children| + 1
  {
    RenderChildrenIsPreorder(n, 0, level + 1);
    HeadersAppend([(n, level)], PreorderChildren(n, 0, level + 1));
  }

  lemma {:induction false} RenderChildrenIsPreorder(n: Node, i: nat, level: nat)
    requires i <= |n.children|
    ensures RenderChildren(n, i, level) == Headers(PreorderChildren(n, i, level))
    decreases n, |n.children| - i
  {
    if i < |n.children| {
      RenderIsPreorder(n.children[i], level);
      RenderChildrenIsPreorder(n, i + 1, level);
      HeadersAppend(Preorder(n.children[i], level), PreorderChildren(n, i + 1, level));
    }
  }

  /** The number of nodes in a tree. */
  function Size(n: Node): nat
    decreases n, |n.children| + 1
  {
    1 + SizeChildren(n, 0)
  }

  function SizeChildren(n: Node, i: nat): nat
    requires i <= |n.children|
    decreases n, |n.children| - i
  {
    if i == |n.children| then 0 else Size(n.children[i]) + SizeChildren(n, i + 1)
  }

  /**
   * The preorder visits every node exactly once, the root at the starting
   * level and every other node deeper.
   */
  lemma {:induction false} PreorderShape(n: Node, level: nat)
    ensures var p := Preorder(n, level);
      && |p| == Size(n)
      && p[0] == (n, level)
      && forall k :: 1 <= k < |p| ==> p[k].1 > level
    decreases n, |n.children| + 1
  {
    PreorderChildrenShape(n, 0, level + 1);
  }

  lemma {:induction false} PreorderChildrenShape(n: Node, i: nat, level: nat)
    requires i <= |n.children|
    ensures var p := PreorderChildren(n, i, level);
      && |p| == SizeChildren(n, i)
      && forall k :: 0 <= k < |p| ==> p[k].1 >= level
    decreases n, |n.children| - i
  {
    if i < |n.children| {
      PreorderShape(n.children[i], level);
      PreorderChildrenShape(n, i + 1, level);
    }
  }

  /** A tree none of whose values contains a newline. */
  predicate NoNewlineValues(n: Node)
    decreases n, |n.children| + 1
  {
    (n.value.Some? ==> '\n' !in ValueText(n.value.value)) && NoNewlineValuesFrom(n, 0)
  }

  predicate NoNewlineValuesFrom(n: Node, i: nat)
    requires i <= |n.children|
    decreases n, |n.children| - i
  {
    i == |n.children| || (NoNewlineValues(n.children[i]) && NoNewlineValuesFrom(n, i + 1))
  }

  lemma {:induction false} CountNewlinesAppend(a: string, b: string)
    ensures Lexer.CountNewlines(a + b) == Lexer.CountNewlines(a) + Lexer.CountNewlines(b)
    decreases |a|
  {
    if a == [] {
      assert a + b == b;
    } else {
      CountNewlinesAppend(a[1..], b);
      assert (a + b)[0] == a[0];
      assert (a + b)[1..] == a[1..] + b;
    }
  }

  /** No kind name holds a newline; checked a few kinds at a time. */
  lemma NoNewlineInKindText(k: NodeKind)
    ensures '\n' !in KindText(k)
  {
    if k in {Program, StatementList, Block, ExpressionStatement, Empty} {
      NoNewlineInListKinds(k);
    } else if k in {Declaration, ArrayDeclaration, Type, ID, NodeKind.Size} {
      NoNewlineInDeclarationKinds(k);
    } else if k in {IfStatement, WhileStatement, ForStatement, ReturnStatement, BreakStatement, ContinueStatement} {
      NoNewlineInControlKinds(k);
    } else if k in {Assignment, ArrayAssignment, Operator, ArrayAccess, Literal} {
      NoNewlineInAssignmentKinds(k);
    } else {
      NoNewlineInOperationKinds(k);
    }
  }

  lemma NoNewlineInListKinds(k: NodeKind)
    requires k in {Program, StatementList, Block, ExpressionStatement, Empty}
    ensures '\n' !in KindText(k)
  {
  }

  lemma NoNewlineInDeclarationKinds(k: NodeKind)
    requires k in {Declaration, ArrayDeclaration, Type, ID, NodeKind.Size}
    ensures '\n' !in KindText(k)
  {
  }

  lemma NoNewlineInControlKinds(k: NodeKind)
    requires k in {IfStatement, WhileStatement, ForStatement, ReturnStatement, BreakStatement, ContinueStatement}
    ensures '\n' !in KindText(k)
  {
  }

  lemma NoNewlineInAssignmentKinds(k: NodeKind)
    requires k in {Assignment, ArrayAssignment, Operator, ArrayAccess, Literal}
    ensures '\n' !in KindText(k)
  {
  }

  lemma NoNewlineInOperationKinds(k: NodeKind)
    requires k in {BinaryOp, UnaryOp, FunctionCall, ArgumentList}
    ensures '\n' !in KindText(k)
  {
  }

  /** A node's own line holds exactly one newline, at its end, when its value holds none. */
  lemma HeaderNewlines(n: Node, level: nat)
    requires n.value.Some? ==> '\n' !in ValueText(n.value.value)
    ensures Lexer.CountNewlines(Header(n, level)) == 1
  {
    NoNewlineCount(Indent(level));
    NoNewlineInKindText(n.kind);
    NoNewlineCount(KindText(n.kind));
    NoNewlineCount(ValuePart(n));
    NoNewlineCount(LinePart(n));
    CountNewlinesAppend(Indent(level), KindText(n.kind));
    CountNewlinesAppend(Indent(level) + KindText(n.kind), ValuePart(n));
    CountNewlinesAppend(Indent(level) + KindText(n.kind) + ValuePart(n), LinePart(n));
    CountNewlinesAppend(Indent(level) + KindText(n.kind) + ValuePart(n) + LinePart(n), "\n");
  }

  lemma {:induction false} NoNewlineCount(s: string)
    requires '\n' !in s
    ensures Lexer.CountNewlines(s) == 0
    decreases |s|
  {
    if s != [] {
      assert s[0] != '\n';
      assert forall c :: c in s[1..] ==> c in s;
      NoNewlineCount(s[1..]);
    }
  }

  /** One printed line per node. */
  lemma {:induction false} RenderLineCount(n: Node, level: nat)
    requires NoNewlineValues(n)
    ensures Lexer.CountNewlines(Render(n, level)) == Size(n)
    decreases n, |n.children| + 1
  {
    HeaderNewlines(n, level);
    RenderChildrenLineCount(n, 0, level + 1);
    CountNewlinesAppend(Header(n, level), RenderChildren(n, 0, level + 1));
  }

  lemma {:induction false} RenderChildrenLineCount(n: Node, i: nat, level: nat)
    requires i <= |n.children| && NoNewlineValuesFrom(n, i)
    ensures Lexer.CountNewlines(RenderChildren(n, i, level)) == SizeChildren(n, i)
    decreases n, |n.children| - i
  {
    if i < |n.children| {
      RenderLineCount(n.children[i], level);
      RenderChildrenLineCount(n, i + 1, level);
      CountNewlinesAppend(Render(n.children[i], level), RenderChildren(n, i + 1, level));
    }
  }

  /**
   * A node's line opens with exactly two spaces per level, then the kind
   * name, and ends with its newline.
   */
  lemma HeaderLayout(n: Node, level: nat)
    ensures var h := Header(n, level);
      && h[..2 * level] == Indent(level)
      && h[2 * level] != ' '
      && h[2 * level..2 * level + |KindText(n.kind)|] == KindText(n.kind)
      && h[|h| - 1] == '\n'
  {
    var k := KindText(n.kind);
    assert |k| > 0 && k[0] != ' ';
    assert Header(n, level) == Indent(level) + (k + ValuePart(n) + LinePart(n) + "\n");
  }

  /** After the kind name, the value follows only when present, the line only when present. */
  lemma HeaderForms(n: Node, level: nat)
    ensures n.value.None? && n.line.None? ==> Header(n, level) == Indent(level) + KindText(n.kind) + "\n"
    ensures n.value.Some? && n.line.None? ==>
      Header(n, level) == Indent(level) + KindText(n.kind) + ": " + ValueText(n.value.value) + "\n"
    ensures n.value.None? && n.line.Some? ==>
      Header(n, level) == Indent(level) + KindText(n.kind) + " [linha " + NatText(n.line.value) + "]\n"
    ensures n.value.Some? && n.line.Some? ==>
      Header(n, level) == Indent(level) + KindText(n.kind) + ": " + ValueText(n.value.value) + " [linha " + NatText(n.line.value) + "]\n"
  {
  }
}
