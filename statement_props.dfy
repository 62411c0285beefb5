/**
 * What the syntax analyzer promises about statements: the children of
 * declarations and for statements, and which `if` an `else` belongs to.
 */
module StatementProperties {
  import opened Tokens
  import opened Ast
  import opened Parser

  /** A statement that starts with a type keyword is a declaration. */
  lemma StatementIsDeclaration(toks: seq<Token>, pos: nat)
    requires ValidTokens(toks) && pos < |toks| && IsTypeKeyword(toks[pos].kind)
    ensures ParseStatement(toks, pos) == ParseDeclaration(toks, pos)
  {
  }

  /** A declarator that is not an array declaration ends the declaration at its `;`. */
  lemma DeclaratorClosed(toks: seq<Token>, pos: nat, decl: Result<Parsed>)
    requires ValidTokens(toks) && pos < |toks| && IsTypeKeyword(toks[pos].kind)
    requires !At(toks, pos + 2, LBracket)
    requires decl == ParseDeclarator(toks, pos) && decl.Ok? && At(toks, decl.value.next, Semicolon)
    ensures ParseDeclaration(toks, pos) == Ok(Parsed(decl.value.node, decl.value.next + 1))
  {
    assert !(At(toks, pos + 1, Id) && At(toks, pos + 2, LBracket));
  }

  /** A declaration statement is its declarator and the `;` after it. */
  lemma DeclarationStatement(toks: seq<Token>, pos: nat, decl: Result<Parsed>)
    requires ValidTokens(toks) && pos < |toks| && IsTypeKeyword(toks[pos].kind)
    requires !At(toks, pos + 2, LBracket)
    requires decl == ParseDeclarator(toks, pos) && decl.Ok? && At(toks, decl.value.next, Semicolon)
    ensures var r := ParseStatement(toks, pos); r.Ok? && r.value.node == decl.value.node && r.value.next == decl.value.next + 1
  {
    StatementIsDeclaration(toks, pos);
    DeclaratorClosed(toks, pos, decl);
  }

  /** The children of a declaration node: the type leaf, the ID leaf, then the initialiser if any. */
  lemma DeclarationNodeChildren(ty: Token, id: Token, init: seq<Node>)
    requires ValidToken(ty) && IsTypeKeyword(ty.kind) && ValidToken(id) && id.kind == Id
    requires |init| <= 1 && forall i :: 0 <= i < |init| ==> IsExpr(init[i])
    ensures DeclarationNode(ty, id, init)
      == Node(Declaration, [Leaf(Type, ty.value, ty.line), Leaf(ID, id.value, id.line)] + init, None, Some(ty.line))
  {
  }

  lemma InitDeclarationNode(ty: Token, id: Token, init: Node)
    requires ValidToken(ty) && IsTypeKeyword(ty.kind) && ValidToken(id) && id.kind == Id && IsExpr(init)
    ensures DeclarationNode(ty, id, [init])
      == Node(Declaration, [Leaf(Type, ty.value, ty.line), Leaf(ID, id.value, id.line), init], None, Some(ty.line))
  {
    DeclarationNodeChildren(ty, id, [init]);
    assert [Leaf(Type, ty.value, ty.line), Leaf(ID, id.value, id.line)] + [init]
      == [Leaf(Type, ty.value, ty.line), Leaf(ID, id.value, id.line), init];
  }

  /** `type ID` with no `=` after it: the type and the identifier. */
  lemma BareDeclarator(toks: seq<Token>, pos: nat)
    requires ValidTokens(toks) && pos < |toks| && IsTypeKeyword(toks[pos].kind)
    requires At(toks, pos + 1, Id) && !At(toks, pos + 2, Assign)
    ensures ValidToken(toks[pos]) && ValidToken(toks[pos + 1])
    ensures ParseDeclarator(toks, pos) == Ok(Parsed(DeclarationNode(toks[pos], toks[pos + 1], []), pos + 2))
  {
    assert ValidToken(toks[pos]) && ValidToken(toks[pos + 1]);
  }

  /** `type ID = e`: the type, the identifier and the initialiser. */
  lemma InitDeclarator(toks: seq<Token>, pos: nat, init: Result<Parsed>)
    requires ValidTokens(toks) && pos < |toks| && IsTypeKeyword(toks[pos].kind)
    requires At(toks, pos + 1, Id) && At(toks, pos + 2, Assign)
    requires init == ParseExpr(toks, pos + 3, 0) && init.Ok?
    ensures ValidToken(toks[pos]) && ValidToken(toks[pos + 1])
    ensures ParseDeclarator(toks, pos) == Ok(Parsed(
        Node(Declaration,
             [Leaf(Type, toks[pos].value, toks[pos].line), Leaf(ID, toks[pos + 1].value, toks[pos + 1].line), init.value.node],
             None, Some(toks[pos].line)),
        init.value.next))
  {
    assert ValidToken(toks[pos]) && ValidToken(toks[pos + 1]);
    InitDeclarationNode(toks[pos], toks[pos + 1], init.value.node);
  }

  /**
   * `type ID ;`: a declaration with two children, the type and then the
   * identifier, each on its own token's line, the declaration on the
   * type's line.
   */
  lemma DeclarationForm(toks: seq<Token>, pos: nat)
    requires ValidTokens(toks) && pos < |toks| && IsTypeKeyword(toks[pos].kind)
    requires At(toks, pos + 1, Id) && At(toks, pos + 2, Semicolon)
    ensures var r := ParseStatement(toks, pos);
      && r.Ok?
      && r.value.node == Node(Declaration,
             [Leaf(Type, toks[pos].value, toks[pos].line), Leaf(ID, toks[pos + 1].value, toks[pos + 1].line)],
             None, Some(toks[pos].line))
      && r.value.next == pos + 3
  {
    var decl := ParseDeclarator(toks, pos);
    BareDeclarator(toks, pos);
    DeclarationStatement(toks, pos, decl);
    DeclarationNodeChildren(toks[pos], toks[pos + 1], []);
    assert [Leaf(Type, toks[pos].value, toks[pos].line), Leaf(ID, toks[pos + 1].value, toks[pos + 1].line)] + []
      == [Leaf(Type, toks[pos].value, toks[pos].line), Leaf(ID, toks[pos + 1].value, toks[pos + 1].line)];
  }

  /**
   * `type ID = e ;`: a declaration with three children, the type, the
   * identifier and the initialiser, on the type's line.
   */
  lemma InitializedDeclarationForm(toks: seq<Token>, pos: nat, init: Result<Parsed>)
    requires ValidTokens(toks) && pos < |toks| && IsTypeKeyword(toks[pos].kind)
    requires At(toks, pos + 1, Id) && At(toks, pos + 2, Assign)
    requires init == ParseExpr(toks, pos + 3, 0) && init.Ok? && At(toks, init.value.next, Semicolon)
    ensures var r := ParseStatement(toks, pos);
      && r.Ok?
      && r.value.node == Node(Declaration,
             [Leaf(Type, toks[pos].value, toks[pos].line), Leaf(ID, toks[pos + 1].value, toks[pos + 1].line), init.value.node],
             None, Some(toks[pos].line))
      && r.value.next == init.value.next + 1
  {
    var decl := ParseDeclarator(toks, pos);
    InitDeclarator(toks, pos, init);
    DeclarationStatement(toks, pos, decl);
  }

  /**
   * `type ID [ n ] ;`: an array declaration whose children are the type,
   * the identifier and a Size leaf holding the number n on the literal's
   * line.
   */
  lemma ArrayDeclarationForm(toks: seq<Token>, pos: nat)
    requires ValidTokens(toks) && pos < |toks| && IsTypeKeyword(toks[pos].kind)
    requires At(toks, pos + 1, Id) && At(toks, pos + 2, LBracket) && At(toks, pos + 3, IntLiteral)
    requires At(toks, pos + 4, RBracket) && At(toks, pos + 5, Semicolon)
    ensures toks[pos + 3].value.Number?
    ensures ParseStatement(toks, pos) == Ok(Parsed(
        Node(ArrayDeclaration,
             [Leaf(Type, toks[pos].value, toks[pos].line), Leaf(ID, toks[pos + 1].value, toks[pos + 1].line),
              Leaf(Size, Number(toks[pos + 3].value.n), toks[pos + 3].line)],
             None, Some(toks[pos].line)),
        pos + 6))
  {
    assert ValidToken(toks[pos + 3]);
    StatementIsDeclaration(toks, pos);
  }

  /** A declaration whose declarator is not followed by `;` is rejected there. */
  lemma DeclarationUnclosed(toks: seq<Token>, pos: nat, decl: Result<Parsed>)
    requires ValidTokens(toks) && pos < |toks| && IsTypeKeyword(toks[pos].kind)
    requires !At(toks, pos + 2, LBracket)
    requires decl == ParseDeclarator(toks, pos) && decl.Ok? && !At(toks, decl.value.next, Semicolon)
    ensures ParseStatement(toks, pos) == Err(Fail(toks, decl.value.next))
  {
    StatementIsDeclaration(toks, pos);
  }

  /** A statement that starts with `if` is an if statement. */
  lemma StatementIsIf(toks: seq<Token>, pos: nat)
    requires ValidTokens(toks) && At(toks, pos, KwIf)
    ensures ParseStatement(toks, pos) == ParseIf(toks, pos)
  {
    assert !IsTypeKeyword(KwIf);
  }

  /** With no `else` next, an if statement has no else branch and ends where its body ends. */
  lemma NoElse(toks: seq<Token>, pos: nat)
    requires ValidTokens(toks) && pos <= |toks| && !At(toks, pos, KwElse)
    ensures ParseElse(toks, pos) == Ok(ParsedList([], pos))
  {
  }

  /** An `else` next is taken, with the statement after it. */
  lemma ElseTaken(toks: seq<Token>, pos: nat, alt: Result<Parsed>)
    requires ValidTokens(toks) && At(toks, pos, KwElse)
    requires alt == ParseStatement(toks, pos + 1) && alt.Ok?
    ensures ParseElse(toks, pos) == Ok(ParsedList([alt.value.node], alt.value.next))
  {
  }

  /** `if ( e ) s` with its else branch, if any. */
  lemma IfParsed(toks: seq<Token>, pos: nat, cond: Result<Parsed>, body: Result<Parsed>, alt: Result<ParsedList>)
    requires ValidTokens(toks) && At(toks, pos, KwIf)
    requires cond == ParseCondition(toks, pos + 1) && cond.Ok?
    requires body == ParseStatement(toks, cond.value.next) && body.Ok?
    requires alt == ParseElse(toks, body.value.next) && alt.Ok?
    ensures ParseIf(toks, pos) == Ok(Parsed(Node(IfStatement, [cond.value.node, body.value.node] + alt.value.nodes, None, Some(toks[pos].line)), alt.value.next))
  {
  }

  /**
   * An if statement parsed without an else branch is never followed by
   * `else`: an `else` after a body always joins the `if` just before it.
   */
  lemma IfWithoutElseNotBeforeElse(toks: seq<Token>, pos: nat)
    requires ValidTokens(toks) && At(toks, pos, KwIf) && ParseIf(toks, pos).Ok?
    requires |ParseIf(toks, pos).value.node.children| == 2
    ensures !At(toks, ParseIf(toks, pos).value.next, KwElse)
  {
    var cond := ParseCondition(toks, pos + 1);
    var body := ParseStatement(toks, cond.value.next);
    var alt := ParseElse(toks, body.value.next);
    IfParsed(toks, pos, cond, body, alt);
  }

  /**
   * When an `else` follows the body of an `if`, that `if` takes it: the if
   * statement has three children: the condition, the body, and then the
   * branch after the `else`.
   */
  lemma ElseJoinsNearestIf(toks: seq<Token>, pos: nat, cond: Result<Parsed>, body: Result<Parsed>)
    requires ValidTokens(toks) && At(toks, pos, KwIf)
    requires cond == ParseCondition(toks, pos + 1) && cond.Ok?
    requires body == ParseStatement(toks, cond.value.next) && body.Ok? && At(toks, body.value.next, KwElse)
    requires ParseIf(toks, pos).Ok?
    ensures var n := ParseIf(toks, pos).value.node;
      |n.children| == 3 && n.children[0] == cond.value.node && n.children[1] == body.value.node
  {
    IfParsed(toks, pos, cond, body, ParseElse(toks, body.value.next));
  }

  /** A statement that starts with `for` is a for statement. */
  lemma StatementIsFor(toks: seq<Token>, pos: nat)
    requires ValidTokens(toks) && At(toks, pos, KwFor)
    ensures ParseStatement(toks, pos) == ParseFor(toks, pos)
  {
    assert !IsTypeKeyword(KwFor);
  }

  /** A clause that is omitted is an Empty node on the line of the token that ends it. */
  lemma OmittedClause(toks: seq<Token>, pos: nat, stop: Kind)
    requires ValidTokens(toks) && At(toks, pos, stop)
    ensures ParseClause(toks, pos, stop) == Ok(Parsed(Node(Empty, [], None, Some(toks[pos].line)), pos))
  {
  }

  /** An omitted first clause is an Empty node too. */
  lemma OmittedInit(toks: seq<Token>, pos: nat)
    requires ValidTokens(toks) && At(toks, pos, Semicolon)
    ensures ParseForInit(toks, pos) == Ok(Parsed(Node(Empty, [], None, Some(toks[pos].line)), pos))
  {
    assert !IsTypeKeyword(Semicolon);
    OmittedClause(toks, pos, Semicolon);
  }

  /**
   * `( ; ; )`: all three clauses are Empty nodes, on the lines of the
   * first `;`, the second `;` and the `)`.
   */
  lemma OmittedClauses(toks: seq<Token>, pos: nat)
    requires ValidTokens(toks) && At(toks, pos, LParen) && At(toks, pos + 1, Semicolon)
    requires At(toks, pos + 2, Semicolon) && At(toks, pos + 3, RParen)
    ensures ParseForClauses(toks, pos) == Ok(ForClauses(
        Node(Empty, [], None, Some(toks[pos + 1].line)),
        Node(Empty, [], None, Some(toks[pos + 2].line)),
        Node(Empty, [], None, Some(toks[pos + 3].line)),
        pos + 4))
  {
    OmittedInit(toks, pos + 1);
    OmittedClause(toks, pos + 2, Semicolon);
    OmittedClause(toks, pos + 3, RParen);
  }

  /** `for ( init ; cond ; update ) s`: four children, the three clauses then the body. */
  lemma ForParsed(toks: seq<Token>, pos: nat, clauses: Result<ForClauses>, body: Result<Parsed>)
    requires ValidTokens(toks) && At(toks, pos, KwFor)
    requires clauses == ParseForClauses(toks, pos + 1) && clauses.Ok?
    requires body == ParseStatement(toks, clauses.value.next) && body.Ok?
    ensures ParseFor(toks, pos) == Ok(Parsed(
        Node(ForStatement, [clauses.value.init, clauses.value.cond, clauses.value.update, body.value.node], None, Some(toks[pos].line)),
        body.value.next))
  {
  }

  /**
   * `for ( ; ; ) s`: a for statement with three Empty children, each on
   * the line of the token that ends its clause, and then the body.
   */
  lemma EmptyFor(toks: seq<Token>, pos: nat, body: Result<Parsed>)
    requires ValidTokens(toks) && At(toks, pos, KwFor) && At(toks, pos + 1, LParen) && At(toks, pos + 2, Semicolon)
    requires At(toks, pos + 3, Semicolon) && At(toks, pos + 4, RParen)
    requires body == ParseStatement(toks, pos + 5) && body.Ok?
    ensures ParseFor(toks, pos) == Ok(Parsed(
        Node(ForStatement,
             [Node(Empty, [], None, Some(toks[pos + 2].line)),
              Node(Empty, [], None, Some(toks[pos + 3].line)),
              Node(Empty, [], None, Some(toks[pos + 4].line)),
              body.value.node],
             None, Some(toks[pos].line)),
        body.value.next))
  {
    OmittedClauses(toks, pos + 1);
    ForParsed(toks, pos, ParseForClauses(toks, pos + 1), body);
  }
}
