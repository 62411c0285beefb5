/**
 * What the syntax analyzer promises about function calls: an identifier
 * and an argument list, with the arguments in source order.
 */
module CallProperties {
  import opened Tokens
  import opened Ast
  import opened Parser
  import opened ParserProperties

  /** An operand that starts with `ID (` is a call. */
  lemma CallOperand(toks: seq<Token>, pos: nat)
    requires ValidTokens(toks) && At(toks, pos, Id) && At(toks, pos + 1, LParen)
    ensures ParseUnary(toks, pos) == ParseCall(toks, pos)
  {
    IdOperand(toks, pos);
    assert !IsAssignOperator(toks[pos + 1].kind);
  }

  /**
   * `ID ( )`: a FunctionCall with the ID leaf and an empty argument list,
   * both the call and the list on the identifier's line.
   */
  lemma CallWithoutArguments(toks: seq<Token>, pos: nat)
    requires ValidTokens(toks) && At(toks, pos, Id) && At(toks, pos + 1, LParen) && At(toks, pos + 2, RParen)
    ensures ParseCall(toks, pos) == Ok(Parsed(
        Node(FunctionCall,
             [Leaf(ID, toks[pos].value, toks[pos].line), Node(ArgumentList, [], None, Some(toks[pos].line))],
             None, Some(toks[pos].line)),
        pos + 3))
  {
    assert ValidToken(toks[pos]);
  }

  /**
   * `ID ( a1 , ... , an )`: a FunctionCall with the ID leaf and an argument
   * list holding the parsed arguments, on the line of the first argument.
   */
  lemma CallWithArguments(toks: seq<Token>, pos: nat, args: Result<ParsedList>)
    requires ValidTokens(toks) && At(toks, pos, Id) && At(toks, pos + 1, LParen)
    requires pos + 2 < |toks| && toks[pos + 2].kind != RParen
    requires args == ParseArgs(toks, pos + 2) && args.Ok? && At(toks, args.value.next, RParen)
    ensures ParseCall(toks, pos) == Ok(Parsed(
        Node(FunctionCall,
             [Leaf(ID, toks[pos].value, toks[pos].line), Node(ArgumentList, args.value.nodes, None, Some(toks[pos + 2].line))],
             None, Some(toks[pos].line)),
        args.value.next + 1))
  {
    assert ValidToken(toks[pos]);
  }

  /** An argument followed by `,`: it comes first, then the arguments after the comma. */
  lemma ArgumentThenMore(toks: seq<Token>, pos: nat, arg: Result<Parsed>, rest: Result<ParsedList>)
    requires ValidTokens(toks) && pos <= |toks|
    requires arg == ParseExpr(toks, pos, 0) && arg.Ok? && At(toks, arg.value.next, Comma)
    requires rest == ParseArgs(toks, arg.value.next + 1) && rest.Ok?
    ensures var r := ParseArgs(toks, pos);
      r.Ok? && r.value.nodes == [arg.value.node] + rest.value.nodes && r.value.next == rest.value.next
  {
    assert ParseArgs(toks, pos) == Ok(ParsedList([arg.value.node] + rest.value.nodes, rest.value.next));
  }

  /** An argument not followed by `,` is the last one. */
  lemma LastArgument(toks: seq<Token>, pos: nat, arg: Result<Parsed>)
    requires ValidTokens(toks) && pos <= |toks|
    requires arg == ParseExpr(toks, pos, 0) && arg.Ok? && !At(toks, arg.value.next, Comma)
    ensures var r := ParseArgs(toks, pos); r.Ok? && r.value.nodes == [arg.value.node] && r.value.next == arg.value.next
  {
  }

  /** n + 1 operand tokens separated by commas, closed by `)`. */
  predicate AtomList(toks: seq<Token>, pos: nat, n: nat)
    decreases n
  {
    pos < |toks| && IsAtom(toks[pos].kind)
    && if n == 0 then At(toks, pos + 1, RParen)
       else At(toks, pos + 1, Comma) && AtomList(toks, pos + 2, n - 1)
  }

  /** The nodes of the operand tokens of an AtomList, in source order. */
  function AtomNodes(toks: seq<Token>, pos: nat, n: nat): (r: seq<Node>)
    requires ValidTokens(toks) && AtomList(toks, pos, n)
    ensures |r| == n + 1
    decreases n
  {
    assert ValidToken(toks[pos]);
    if n == 0 then [AtomNode(toks[pos])]
    else [AtomNode(toks[pos])] + AtomNodes(toks, pos + 2, n - 1)
  }

  /** The i-th operand of an AtomList sits at pos + 2i. */
  lemma {:induction false} AtomListOperand(toks: seq<Token>, pos: nat, n: nat, i: nat)
    requires AtomList(toks, pos, n) && i <= n
    ensures pos + 2 * i < |toks| && IsAtom(toks[pos + 2 * i].kind)
    decreases n
  {
    if i > 0 {
      AtomListOperand(toks, pos + 2, n - 1, i - 1);
      assert pos + 2 + 2 * (i - 1) == pos + 2 * i;
    }
  }

  /** The i-th node is the node of the i-th operand token, at pos + 2i, for every i. */
  lemma {:induction false} AtomNodesInOrder(toks: seq<Token>, pos: nat, n: nat, i: nat)
    requires ValidTokens(toks) && AtomList(toks, pos, n) && i <= n
    ensures pos + 2 * i < |toks| && ValidToken(toks[pos + 2 * i]) && IsAtom(toks[pos + 2 * i].kind)
    ensures AtomNodes(toks, pos, n)[i] == AtomNode(toks[pos + 2 * i])
    decreases n
  {
    AtomListOperand(toks, pos, n, i);
    if i > 0 {
      AtomNodesInOrder(toks, pos + 2, n - 1, i - 1);
      assert pos + 2 + 2 * (i - 1) == pos + 2 * i;
    }
  }

  /**
   * Arguments that are all identifiers or literals come out one node per
   * argument, in the order they are written, and the list ends at the `)`.
   */
  lemma {:induction false} AtomArguments(toks: seq<Token>, pos: nat, n: nat)
    requires ValidTokens(toks) && AtomList(toks, pos, n)
    ensures var r := ParseArgs(toks, pos);
      r.Ok? && r.value.nodes == AtomNodes(toks, pos, n) && r.value.next == pos + 2 * n + 1
    decreases n
  {
    if n == 0 {
      LastAtom(toks, pos);
    } else {
      var rest := ParseArgs(toks, pos + 2);
      AtomArguments(toks, pos + 2, n - 1);
      AtomThenMore(toks, pos, rest);
    }
  }

  lemma LastAtom(toks: seq<Token>, pos: nat)
    requires ValidTokens(toks) && pos < |toks| && IsAtom(toks[pos].kind) && At(toks, pos + 1, RParen)
    ensures ValidToken(toks[pos])
    ensures var r := ParseArgs(toks, pos); r.Ok? && r.value.nodes == [AtomNode(toks[pos])] && r.value.next == pos + 1
  {
    assert toks[pos + 1].kind == RParen && Closes(toks, pos + 1);
    var arg := ParseExpr(toks, pos, 0);
    AtomExpr(toks, pos, 0);
    assert arg.value.node == AtomNode(toks[pos]) && arg.value.next == pos + 1;
    LastArgument(toks, pos, arg);
  }

  lemma AtomThenMore(toks: seq<Token>, pos: nat, rest: Result<ParsedList>)
    requires ValidTokens(toks) && pos < |toks| && IsAtom(toks[pos].kind) && At(toks, pos + 1, Comma)
    requires rest == ParseArgs(toks, pos + 2) && rest.Ok?
    ensures ValidToken(toks[pos])
    ensures var r := ParseArgs(toks, pos);
      r.Ok? && r.value.nodes == [AtomNode(toks[pos])] + rest.value.nodes && r.value.next == rest.value.next
  {
    assert toks[pos + 1].kind == Comma && Closes(toks, pos + 1);
    var arg := ParseExpr(toks, pos, 0);
    AtomExpr(toks, pos, 0);
    assert arg.value.node == AtomNode(toks[pos]) && arg.value.next == pos + 1;
    ArgumentThenMore(toks, pos, arg, rest);
  }
}
