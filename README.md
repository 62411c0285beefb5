# Front end of a small C-like language: scanner, syntax analyzer, tree printer

This project models the two front-end stages of a compiler for a small C-like
language, and proves properties of the model.

- **The scanner** (`python_lexer.py`) turns source text into typed tokens and
  keeps a line counter. Newline runs and comments move the counter. Spaces and
  tabs are skipped. An unrecognised character is reported and skipped, and
  scanning goes on.
- **The syntax analyzer** (`python_parser.py`) builds a tree of `ASTNode`s.
  Every node has a kind, ordered children, an optional value and an optional
  line. The precedence table decides how operators group.
- **The printer** (`ASTNode.__str__`) renders a tree one line per node,
  indented by depth.

Modules:

- `Tokens` (tokens.dfy): token kinds, values, the keyword table, and
  `ValidToken`. `ValidToken` says a token's value agrees with its kind.
- `Lexer` (lexer.dfy): the scanner.
  - `StepAt` is one rule firing. It states the rule priority explicitly:
    blanks, then newline runs, block comments, line comments, numbers,
    strings, characters, words, and finally the operators, longest first.
  - `Scan`/`Lex` is the whole scan, as a function.
  - `Tokenize` is the scanner's loop as a method, proved equal to `Lex`.
- `LexerProperties` (lexer_props.dfy): what each rule does, and what holds
  over a whole scan.
- `Ast` (ast.dfy): the node datatype. It holds predicates for the shapes the
  analyzer builds, and the left-nested `StatementList` encoding with its
  inverse.
- `Parser` (parser.dfy): the grammar's rule actions, written as recursive
  descent with precedence climbing over the token sequence. Each parse
  returns a tree or a single syntax error.
- `ParserProperties`, `StatementProperties`, `UnaryProperties`,
  `CallProperties`: the exact node shapes and the operator grouping that the
  rule actions and the precedence table fix.
- `Printer` (printer.dfy): `Render` is the specification of `__str__`.
  `ToText` is its accumulating loop as a method, proved equal to `Render`.

## Model

| member | source | states |
|---|---|---|
| Tokens.KeywordKind | python_lexer.py:3-6 | a lexeme gets a keyword token type exactly when it is one of the eleven keywords |
| Tokens.KeywordNameIsUpperCase | python_lexer.py:23 | every keyword token type is named by its keyword upper-cased |
| Tokens.KeywordKindIsUpperCase | python_lexer.py:94-98 | a keyword lexeme's token type spells the lexeme back and is named by the lexeme upper-cased |
| Tokens.OperatorText | python_lexer.py:25-59 | every operator or punctuation lexeme is one or two characters long |
| Lexer.Span | python_lexer.py:64 | a run is maximal: every character in it satisfies the class, and the character after it does not |
| Lexer.CountNewlines | python_lexer.py:69 | the newline count is at most the length, and equals it for a run of newlines |
| Lexer.CloserFrom | python_lexer.py:68 | finds the first `*/` at or after a position (non-greedy), or reports that none follows |
| Lexer.StringEnd | python_lexer.py:87 | a string literal ends just after a closing double quote |
| Lexer.CharEnd | python_lexer.py:90-92 | a character literal ends 3 characters on exactly when one character other than a quote or a backslash sits between the quotes, 4 on exactly when a backslash and a character other than a newline do, and nowhere otherwise |
| Lexer.TwoCharOperator | python_lexer.py:32-49 | two characters are recognised exactly when they spell the lexeme of a two-character operator, and then as that operator |
| Lexer.OneCharOperator | python_lexer.py:25-59 | a character is recognised exactly when it is the lexeme of a one-character operator or punctuation, and then as that kind |
| Lexer.Word | python_lexer.py:94-98 | an identifier-shaped lexeme becomes a well-formed token (keyword or ID) |
| Lexer.WordAt | python_lexer.py:95 | takes the longest identifier-shaped lexeme; the character after it is not an identifier character |
| Lexer.NumberAt | python_lexer.py:76-84 | a digit start always yields one well-formed literal token on the current line |
| Lexer.OperatorAt | python_lexer.py:25-59 | an operator token on the current line, or else the error for that one character, skipped |
| Lexer.StepAt | python_lexer.py:61-102 | every step advances; the line counter never decreases; a token carries the current line and a value agreeing with its type; an error holds the character and line and skips exactly it |
| Lexer.Advance | python_lexer.py:61-102 | one iteration of the scanner's loop computes exactly the rule step |
| Lexer.Tokenize | python_lexer.py:100-104 | the scanner loop returns exactly the tokens, errors and final line of the scan, and all its tokens are well-formed |
| Lexer.Scan | python_lexer.py:100-104 | scanning a rest of the text never lowers the line counter and reports at most one token or error per character |
| Lexer.Lex | python_lexer.py:100-104 | the whole text scanned from line 1: the counter ends at 1 or more, with at most one token or error per character |
| Lexer.DecimalValue | python_lexer.py:83 | the number a digit run denotes is 0 exactly when every digit is 0; Printer.NatTextRoundTrip gives its inverse |
| LexerProperties.NewlineRunStep | python_lexer.py:63-65 | a newline run yields no token and raises the counter by its length; it is taken whole |
| LexerProperties.BlankStep | python_lexer.py:61 | a space or tab yields nothing and leaves the counter alone |
| LexerProperties.BlockCommentStep | python_lexer.py:67-70 | a block comment ends at the first closer, yields nothing, and raises the counter by the newlines inside it |
| LexerProperties.UnclosedCommentStep | python_lexer.py:67-70 | `/*` with no closer after it is not a comment and scans as a division sign |
| LexerProperties.LineCommentStep | python_lexer.py:72-74 | a line comment runs to the end of its line, yields nothing, and leaves the counter alone |
| LexerProperties.NumberStep | python_lexer.py:76-84 | digits, dot, digits form one float literal with both digit runs taken whole; otherwise the digit run is one integer literal whose value is its decimal number |
| LexerProperties.WordStep | python_lexer.py:94-98 | the whole identifier-shaped lexeme is the token value; its type is the upper-cased keyword exactly when it is a keyword, and ID otherwise |
| LexerProperties.OperatorStep | python_lexer.py:32-59 | a two-character operator beats its one-character prefix; an unknown character is an error |
| Tokens.OperatorTextInjective | python_lexer.py:25-59 | no two operator kinds share a lexeme |
| LexerProperties.TwoCharOperatorWins | python_lexer.py:32-49 | each of the 13 two-character operators in the text is scanned as that one token, never as its one-character prefix |
| LexerProperties.OneCharOperatorScanned | python_lexer.py:25-59 | a one-character operator that starts neither a two-character operator nor a comment is scanned as that one token |
| LexerProperties.UnrecognizedStep | python_lexer.py:100-102 | an unrecognised character gives one error holding it and the line; the scan resumes one character later with all later tokens kept |
| LexerProperties.UnterminatedStringStep | python_lexer.py:86-88 | a double quote with no closing quote is an error, and scanning resumes just after it |
| LexerProperties.ScanLines | python_lexer.py:63-70 | over a whole scan the counter never decreases; token and error lines lie between the start and final counter; token lines never decrease |
| LexerProperties.ScanTokensValid | python_lexer.py:76-98 | every token of a scan has a value agreeing with its type |
| LexerProperties.ScanErrorsFromSource | python_lexer.py:100-102 | every lexical error names a character of the scanned text |
| LexerProperties.PlusAssignExample | python_lexer.py:42 | `a+=1` scans as ID, PLUS_ASSIGN, INT_LITERAL |
| LexerProperties.FloatExample | python_lexer.py:76-79 | `1.5` scans as one float literal |
| Ast.NestStatements | python_parser.py:57-66 | the list node has no value, at most two children, and the first statement's line (or the end line when empty) |
| Ast.NestStatementsRoundTrip | python_parser.py:57-66 | flattening the left-nested `StatementList[StatementList, stmt]` encoding gives back the statements in order |
| Ast.NestStatementsWellFormed | python_parser.py:57-66 | nesting statements gives a well-formed statement list |
| Ast.IsExpr | python_parser.py:185-289 | the node shapes the expression rule actions build: kind, children in order, value and line |
| Ast.IsStatement | python_parser.py:68-183 | the node shapes the statement rule actions build |
| Ast.IsProgram | python_parser.py:53-55 | a Program holds one StatementList and takes its line |
| Ast.Statements | python_parser.py:57-66 | the statements a well-formed StatementList holds are all well-formed statements |
| Printer.NatText | python_parser.py:29 | a line number prints as decimal digits without leading zeros |
| Printer.NatTextRoundTrip | python_parser.py:29 | reading the printed digits back gives the number |
| Printer.Indent | python_parser.py:22 | the indentation is two spaces per level |
| Printer.ValueText | python_parser.py:26 | how a value is written after the colon: text as it is, a number in decimal, a float literal as its two digit strings around a dot; its properties are in Printer.ValueTextReadsBack |
| Printer.ValueTextReadsBack | python_parser.py:26 | a text value prints verbatim; a number value prints as decimal digits that read back to the number |
| Printer.Header | python_parser.py:22-31 | the line a node prints as: indentation, kind, optional value and line, newline; its layout is stated by Printer.HeaderLayout, Printer.HeaderForms and Printer.HeaderNewlines |
| Printer.Render | python_parser.py:21-39 | the printed tree: the node's line, then its children one level deeper; its shape is stated by Printer.RenderIsPreorder and Printer.RenderLineCount |
| Printer.RenderChildren | python_parser.py:33-35 | the children from the i-th on, printed in their stored order; stated by Printer.RenderIsPreorder through the preorder of the children |
| Printer.HeaderText | python_parser.py:22-31 | the node's own line built piece by piece equals its specified line |
| Printer.ToText | python_parser.py:21-39 | the printer's accumulating loop produces exactly the rendered tree |
| Printer.RenderIsPreorder | python_parser.py:33-35 | the text is the nodes' lines in preorder: parent first, children in stored order, one level deeper |
| Printer.PreorderShape | python_parser.py:33-35 | the preorder visits each node once; the root at its level and every other node deeper |
| Printer.HeaderNewlines | python_parser.py:31 | when the node's value (if any) prints without a newline, the node's own line holds exactly one newline |
| Printer.RenderLineCount | python_parser.py:21-39 | when no value in the tree holds a newline (NoNewlineValues), the tree prints as exactly one line per node |
| Printer.HeaderLayout | python_parser.py:22-31 | a line opens with two spaces per level, then the kind name, and ends with a newline |
| Printer.HeaderForms | python_parser.py:25-31 | the node line in each of the four cases: kind alone, kind with `: value`, kind with ` [linha n]`, and kind with both, value first |
| Parser.Precedence | python_parser.py:41-51 | the levels of the precedence table: the assignment operators exactly at level 1, every binary operator between 2 and 7 |
| Parser.RightAssociative | python_parser.py:41-51 | the assignment operators group to the right, every binary operator to the left |
| Parser.OperandFloor | python_parser.py:41-51 | an operand takes in operators of its rule's own level exactly when that level groups to the right, and every tighter one |
| Parser.IdLeaf | python_parser.py:287-289 | an identifier leaf holds the name and the token's line |
| Parser.TypeLeaf | python_parser.py:98 | a type leaf holds the type keyword and its line |
| Parser.OperatorLeaf | python_parser.py:196 | an operator leaf holds the assignment operator lexeme and its line |
| Parser.BinaryNode | python_parser.py:220-223 | a binary node is an expression on the operator's line |
| Parser.PrefixNode | python_parser.py:241 | `!e` and `-e` give a unary node on the operator's line |
| Parser.StepNode | python_parser.py:232-235 | prefix `++`/`--` give a unary node on the operator's line |
| Parser.AssignmentNode | python_parser.py:200-204 | an assignment node is an expression on the identifier's line |
| Parser.AccessNode | python_parser.py:249-252 | an element access node is on the identifier's line |
| Parser.ElementAssignmentNode | python_parser.py:194-198 | an element assignment node is on the access's line |
| Parser.ArgumentsNode | python_parser.py:272-278 | the argument list holds exactly the given arguments, in order |
| Parser.CallNode | python_parser.py:261-265 | a call node is an expression on the identifier's line |
| Parser.DeclarationNode | python_parser.py:96-106 | a declaration node is a statement on the type's line |
| Parser.ArrayDeclarationNode | python_parser.py:107-112 | an array declaration node is a statement on the type's line |
| Parser.IfNode | python_parser.py:121-127 | an if node is a statement on the keyword's line |
| Parser.ForNode | python_parser.py:133-135 | a for node is a statement on the keyword's line |
| Parser.ParseExpr | python_parser.py:41-51 | a parsed expression is well-formed, consumes input, and stops where no operator at least as tight as the floor follows |
| Parser.BinaryRest | python_parser.py:206-223 | the operator loop yields a well-formed expression that stops below the floor |
| Parser.ParseUnary | python_parser.py:225-241 | an operand is a well-formed expression and consumes input |
| Parser.ParsePrefix | python_parser.py:226-227 | a signed operand is a well-formed expression |
| Parser.ParsePrimary | python_parser.py:243-289 | a group, literal, identifier, call or element is a well-formed expression |
| Parser.ParseIdExpr | python_parser.py:185-192 | an expression opening with an identifier is well-formed |
| Parser.ParseAssignment | python_parser.py:185-204 | an assignment is a well-formed expression |
| Parser.ParseCall | python_parser.py:258-270 | a call parses to a FunctionCall node |
| Parser.ParseArgs | python_parser.py:272-278 | an argument list is non-empty and all its entries are expressions |
| Parser.ParseElement | python_parser.py:254-256 | an element access, or an element assignment, is well-formed |
| Parser.ParseAccess | python_parser.py:247-252 | `ID [ e ]` parses to an ArrayAccess node |
| Parser.ParseElementAssignment | python_parser.py:192-198 | `access = e` is a well-formed expression |
| Parser.ParseDeclarator | python_parser.py:92-106 | a declarator is a declaration node on the type's line |
| Parser.ParseArrayDeclaration | python_parser.py:107-112 | an array declaration is a statement on the type's line |
| Parser.ParseDeclaration | python_parser.py:92-112 | every declaration form is a statement on the type's line |
| Parser.ParseBlock | python_parser.py:88-90 | a block is a statement on its brace's line |
| Parser.ParseCondition | python_parser.py:122 | a parenthesised condition is an expression |
| Parser.ParseIf | python_parser.py:121-127 | an if is a statement on the keyword's line |
| Parser.ParseElse | python_parser.py:123 | at most one else-branch statement; none consumes nothing |
| Parser.ParseWhile | python_parser.py:129-131 | a while is a statement on the keyword's line |
| Parser.ParseClause | python_parser.py:159-167 | a for clause is an expression, or an Empty node exactly when the stop token follows directly |
| Parser.ParseForInit | python_parser.py:137-157 | a for initialiser is a declaration, an expression or Empty |
| Parser.ParseForClauses | python_parser.py:133-167 | the three clauses are well-formed |
| Parser.ParseFor | python_parser.py:133-135 | a for is a statement on the keyword's line |
| Parser.ParseReturn | python_parser.py:169-175 | a return is a statement on the keyword's line |
| Parser.ParseExpressionStatement | python_parser.py:80-86 | an expression statement is a statement on its first token's line |
| Parser.ParseStatement | python_parser.py:68-78 | every statement form is a well-formed statement on its first token's line |
| Parser.ParseStatements | python_parser.py:57-66 | statements run up to the closing brace (in a block) or the end of input, with the first on its token's line |
| Parser.Parse | python_parser.py:53-55 | the result is a Program on the first token's line (or the end line) |
| Parser.ParseSource | python_parser.py:306 | scanning then parsing any source text yields a well-formed Program or a syntax error, together with every lexical error of the scan, each naming a character of the text at a line of 1 or more |
| ParserProperties.AtomNode | python_parser.py:280-289 | a literal or identifier operand is an expression leaf on its token's line |
| ParserProperties.AtomOperand | python_parser.py:280-289 | a literal or identifier before a closer or binary operator is one leaf operand |
| ParserProperties.RestStops | python_parser.py:206-223 | no operator at least as tight as the floor follows: the operand is the whole expression |
| ParserProperties.AtomExpr | python_parser.py:280-289 | a literal or identifier before a closer, or before a looser operator, is the whole expression |
| ParserProperties.RestTakes | python_parser.py:206-223 | an operator at least as tight as the floor makes a BinaryOp with the left operand first, the right second |
| ParserProperties.RestTakesLast | python_parser.py:220-223 | a last operator makes one BinaryOp of the two operands |
| ParserProperties.TwoOperatorGrouping | python_parser.py:41-51 | `a op1 b op2 c` groups to the right exactly when op2 binds tighter (`1+2*3` is `+(1,*(2,3))`), otherwise to the left (`a-b-c`, `a<b<c`) |
| ParserProperties.TightRightOperand | python_parser.py:41-51 | a tighter second operator takes the middle operand |
| ParserProperties.TighterSecond | python_parser.py:41-51 | with a tighter second operator the tree is `op1(a, op2(b, c))` |
| ParserProperties.LooseFirstOperation | python_parser.py:41-51 | with an equal or looser second operator the first operation closes first |
| ParserProperties.LooseSecondOperation | python_parser.py:41-51 | the closed first operation becomes the left operand of the second |
| ParserProperties.LooserSecond | python_parser.py:41-51 | with an equal or looser second operator the tree is `op2(op1(a, b), c)` |
| ParserProperties.EmptyProgram | python_parser.py:53-66 | empty input is a Program holding one empty StatementList |
| ParserProperties.ProgramStatements | python_parser.py:53-66 | a Program has exactly one child, the nested StatementList, which flattens to the parsed statements |
| ParserProperties.UnaryIsPrimary | python_parser.py:225-241 | an operand that does not open with a unary operator is a primary |
| ParserProperties.PrimaryIsIdExpr | python_parser.py:287-289 | a primary opening with an identifier goes through the identifier alternatives |
| ParserProperties.IdOperand | python_parser.py:185-192 | an operand opening with an identifier goes through the identifier alternatives |
| ParserProperties.AssignmentOperand | python_parser.py:185-204 | `ID op e` is an assignment whose right side extends as far as an expression can |
| ParserProperties.AssignmentTakesRest | python_parser.py:200-204 | `ID op e` gives `Assignment[ID, Operator(op), e]` for `=` and all five compound operators, at any level |
| ParserProperties.AssignmentsNestRight | python_parser.py:42 | `a = b = e` nests to the right: `a = (b = e)` |
| ParserProperties.ElementOperand | python_parser.py:254-256 | an operand opening with `ID [` is an element |
| ParserProperties.IdExprIsElement | python_parser.py:247-256 | an identifier followed by `[` is an element access |
| ParserProperties.AccessParsed | python_parser.py:247-252 | `ID [ e ]` gives `ArrayAccess[ID, e]` on the identifier's line |
| ParserProperties.AccessAlone | python_parser.py:254-256 | an access not followed by `=` is the whole element |
| ParserProperties.AccessAssigned | python_parser.py:192-193 | an access followed by `=` starts an element assignment |
| ParserProperties.ElementAssignmentParsed | python_parser.py:193-198 | `access = e` gives `ArrayAssignment[access, Operator, e]` on the access's line |
| ParserProperties.ElementAssignmentForm | python_parser.py:192-198 | `ID [ i ] = e` gives `ArrayAssignment[ArrayAccess[ID, i], Operator('='), e]` |
| ParserProperties.ElementExpr | python_parser.py:254-256 | an element that nothing tighter follows is the whole expression |
| ParserProperties.ElementAccessAlone | python_parser.py:247-252 | before a compound assignment operator, `ID [ i ]` is a bare access |
| ParserProperties.IdStatement | python_parser.py:68-86 | a statement opening with an identifier is an expression statement |
| ParserProperties.CompoundElementAssignmentRejected | python_parser.py:185-192 | `ID [ i ] += e;` (any compound operator) is a syntax error at the operator |
| ParserProperties.ExpressionStatementUnclosed | python_parser.py:80-86 | an expression not followed by `;` is a syntax error at the token after it |
| StatementProperties.StatementIsDeclaration | python_parser.py:68-78 | a statement opening with a type keyword is a declaration |
| StatementProperties.DeclaratorClosed | python_parser.py:92-106 | a non-array declarator followed by `;` is the whole declaration |
| StatementProperties.DeclarationStatement | python_parser.py:92-106 | a declaration statement is its declarator and the `;` after it |
| StatementProperties.DeclarationNodeChildren | python_parser.py:96-106 | the children of a declaration are the type leaf, the ID leaf, then the initialiser if any |
| StatementProperties.InitDeclarationNode | python_parser.py:101-106 | an initialised declaration has exactly the type, the ID and the initialiser as children |
| StatementProperties.BareDeclarator | python_parser.py:96-100 | `type ID` with no `=` is the two-leaf declaration |
| StatementProperties.InitDeclarator | python_parser.py:101-106 | `type ID = e` gives `Declaration[Type, ID, e]` |
| StatementProperties.DeclarationForm | python_parser.py:96-100 | `type ID ;` gives `Declaration[Type, ID]`, each leaf on its token's line |
| StatementProperties.InitializedDeclarationForm | python_parser.py:101-106 | `type ID = e ;` gives `Declaration[Type, ID, e]` on the type's line |
| StatementProperties.ArrayDeclarationForm | python_parser.py:107-112 | `type ID [ n ] ;` gives `ArrayDeclaration[Type, ID, Size(n)]`, the size on the literal's line |
| StatementProperties.DeclarationUnclosed | python_parser.py:92-95 | a declarator not followed by `;` is a syntax error there |
| StatementProperties.StatementIsIf | python_parser.py:68-78 | a statement opening with `if` is an if statement |
| StatementProperties.NoElse | python_parser.py:122 | without `else` there is no third child and nothing is consumed |
| StatementProperties.ElseTaken | python_parser.py:123 | an `else` contributes exactly the statement after it |
| StatementProperties.IfParsed | python_parser.py:121-127 | an if is `IfStatement[cond, then]` or `IfStatement[cond, then, else]` on the keyword's line |
| StatementProperties.IfWithoutElseNotBeforeElse | python_parser.py:121-127 | an if without an else branch is never followed by `else` |
| StatementProperties.ElseJoinsNearestIf | python_parser.py:121-127 | an `else` after the then-branch belongs to this (the nearest) if, which gets three children |
| StatementProperties.StatementIsFor | python_parser.py:68-78 | a statement opening with `for` is a for statement |
| StatementProperties.OmittedClause | python_parser.py:159-167 | an omitted condition or update is an Empty node with no children on the next token's line |
| StatementProperties.OmittedInit | python_parser.py:153-155 | an omitted initialiser is an Empty node with no children |
| StatementProperties.OmittedClauses | python_parser.py:137-167 | `( ; ; )` gives three Empty clauses |
| StatementProperties.ForParsed | python_parser.py:133-135 | a for is `ForStatement[init, cond, update, body]`, exactly four children |
| StatementProperties.EmptyFor | python_parser.py:133-167 | `for ( ; ; ) s` has three Empty children and then the body |
| UnaryProperties.PrefixStep | python_parser.py:232-235 | `++ID` and `--ID` give `UnaryOp(op)` with exactly one ID child, on the operator's line |
| UnaryProperties.PrefixStepNeedsId | python_parser.py:228-229 | `++`/`--` not followed by an identifier is a syntax error |
| UnaryProperties.PostfixStep | python_parser.py:236-239 | `ID++` and `ID--` give `UnaryOp(op)` with exactly one ID child, on the operator's line |
| UnaryProperties.PrefixOperation | python_parser.py:240-241 | `!e` and `-e` give `UnaryOp(op)` on the operator's line whose one child is the operand parsed at the operator's floor, so it takes in every operator at least as tight as the sign's row of the precedence table |
| UnaryProperties.OperandThenRest | python_parser.py:206-223 | an expression is its first operand followed by the operator loop |
| UnaryProperties.OperandTakesOperator | python_parser.py:41-51 | an operand followed by an operator whose level reaches the floor becomes that operator's left child, with the right operand parsed at the operator's own floor; with a sign's floor this makes `-a*b` into `-(a*b)` |
| ParserProperties.OperandAlone | python_parser.py:220-223 | an operand followed by an operator below the floor is the whole expression at that floor; with a sign's floor this makes `!a&&b` into `(!a)&&b` |
| CallProperties.CallOperand | python_parser.py:258-260 | an operand `ID (` is a function call |
| CallProperties.CallWithoutArguments | python_parser.py:266-270 | `ID ( )` gives `FunctionCall[ID, ArgumentList[]]`, the list on the identifier's line |
| CallProperties.CallWithArguments | python_parser.py:261-265 | `ID ( args )` gives `FunctionCall[ID, ArgumentList[args]]`, exactly two children |
| CallProperties.ArgumentThenMore | python_parser.py:273-276 | `e , rest` lists e first, then the arguments of rest |
| CallProperties.LastArgument | python_parser.py:277-278 | an argument not followed by `,` is the last one |
| CallProperties.AtomNodes | python_parser.py:272-278 | n commas give n+1 argument nodes |
| CallProperties.AtomListOperand | python_parser.py:273 | the i-th argument of a comma list sits at position 2i |
| CallProperties.AtomNodesInOrder | python_parser.py:276 | the i-th argument node is the node of the i-th argument token |
| CallProperties.AtomArguments | python_parser.py:272-278 | identifier and literal arguments come out one node each, in source order, ending at the `)` |
| CallProperties.LastAtom | python_parser.py:277-278 | a leaf argument before `)` is a one-element list |
| CallProperties.AtomThenMore | python_parser.py:275-276 | a leaf argument before `,` is followed by the remaining arguments |

## Behaviour that differs from the language description

The model follows the code in these cases.

- **Unary minus and `!`.** The grammar rules `NOT expression` and
  `MINUS expression` take their operator's row of the precedence table, and
  `MINUS` shares the row of binary `+`/`-`. So `-a*b` is `-(a*b)` and `-a+b`
  is `(-a)+b` (UnaryProperties.PrefixOperation with
  UnaryProperties.OperandTakesOperator and ParserProperties.OperandAlone). This differs from the usual
  "unary binds tightest".
- **String literals may hold raw newlines.** The pattern `[^"\\]` admits them.
  The line counter is not raised for newlines inside a string.
- **Assignments as operands.** An assignment to an identifier may appear as
  the right operand of a binary operator: `a + b = c` is `a + (b = c)`.
- **Compound element assignments.** `arr[i] += 1` is a syntax error: only `=`
  is accepted after an element access
  (ParserProperties.CompoundElementAssignmentRejected).
- **`StatementList` nesting.** A list is `[]` for no statements, `[s]` for
  one, and `[StatementList(previous), s]` for more.

## Left out

- The parsing library's machinery (`lex.lex()`, `yacc.yacc()`, the LALR
  tables, position tracking). It is re-expressed as an explicit scanner and a
  recursive-descent parser.
  - Each node gets the line its rule action asks for.
  - An Empty node, or an empty StatementList, gets the line of the token
    that follows it, or the final line counter at the end of input.
- Panic-mode error recovery. A parse stops at the first syntax error and
  returns it as a value (`UnexpectedToken(t)` or `UnexpectedEnd`) instead of
  printing a message.
- Lexical diagnostics are returned as `LexError(ch, line)` values instead of
  being printed; `Parser.ParseSource` hands them back beside the tree.
- `float(t.value)`, which is floating point. A float literal keeps its two
  digit strings, and the printer writes them back around a dot. Python's
  float formatting (e.g. `1.50` printing as `1.5`) is not modelled.
- Python's `\d` also matches non-ASCII digits. The model accepts only `0`-`9`.
- `parse_code`'s catch-all `except`, and the shared global scanner whose line
  counter is never reset between calls. Every input is scanned with a fresh
  counter starting at 1.
- `__repr__`, a debugging helper.
- The printer's branch for children that are not nodes. Every child in the
  model is a node.
- The test drivers `test_lexer.py` and `test_parser.py`, which only read
  files and print.
- The analyzer assumes its input is tokens as the scanner makes them
  (`ValidTokens`). `Parser.ParseSource` discharges this for scanned text.
- StatementProperties.ElseJoinsNearestIf: does not itself state that the third
  child is the parse of the else statement; that follows from
  StatementProperties.IfParsed and StatementProperties.ElseTaken.
- CallProperties.AtomArguments: states source order for identifier and
  literal arguments only. For arbitrary argument expressions the order is
  stated one step at a time by CallProperties.ArgumentThenMore.
- ParserProperties.TwoOperatorGrouping: states grouping for two binary
  operators between leaf operands only. No lemma states the grouping of
  chains of three or more operators, of operands that are not leaves, or of
  signed operands. ParserProperties.RestTakes is only the single step of the
  operator loop.
- Lexer.StringEnd: states only where the literal ends. The escape handling
  inside it is in the function body, not in its contract.
