/**
 * The token vocabulary of the language: the closed set of token kinds the
 * scanner can produce, the value a token carries, and the keyword table.
 */
module Tokens {

  datatype Option<+T> = None | Some(value: T)

  /** One constructor per token type of the scanner, keywords last. */
  datatype Kind =
    | Id | IntLiteral | FloatLiteral | CharLiteral | StringLiteral
    | Plus | Minus | Times | Divide | Mod
    | Increment | Decrement
    | Equal | NotEqual
    | Less | LessEqual
    | Greater | GreaterEqual
    | Assign | PlusAssign | MinusAssign
    | TimesAssign | DivideAssign | ModAssign
    | And | Or | Not
    | LParen | RParen
    | LBrace | RBrace
    | LBracket | RBracket
    | Semicolon | Comma
    | KwInt | KwFloat | KwChar | KwVoid | KwIf | KwElse
    | KwFor | KwWhile | KwReturn | KwBreak | KwContinue

  /**
   * What a token carries: the lexeme for identifiers, keywords, operators,
   * character and string literals; the decimal number of an integer literal;
   * the two digit strings around the dot of a float literal.
   */
  datatype Value =
    | Text(s: string)
    | Number(n: nat)
    | Decimal(whole: string, frac: string)

  datatype Token = Token(kind: Kind, value: Value, line: nat)

  /** The name of each token type, as the scanner's token list spells it. */
  function KindName(k: Kind): string
  {
    match k
    case Id => "ID"
    case IntLiteral => "INT_LITERAL"
    case FloatLiteral => "FLOAT_LITERAL"
    case CharLiteral => "CHAR_LITERAL"
    case StringLiteral => "STRING_LITERAL"
    case Plus => "PLUS"
    case Minus => "MINUS"
    case Times => "TIMES"
    case Divide => "DIVIDE"
    case Mod => "MOD"
    case Increment => "INCREMENT"
    case Decrement => "DECREMENT"
    case Equal => "EQUAL"
    case NotEqual => "NOT_EQUAL"
    case Less => "LESS"
    case LessEqual => "LESS_EQUAL"
    case Greater => "GREATER"
    case GreaterEqual => "GREATER_EQUAL"
    case Assign => "ASSIGN"
    case PlusAssign => "PLUS_ASSIGN"
    case MinusAssign => "MINUS_ASSIGN"
    case TimesAssign => "TIMES_ASSIGN"
    case DivideAssign => "DIVIDE_ASSIGN"
    case ModAssign => "MOD_ASSIGN"
    case And => "AND"
    case Or => "OR"
    case Not => "NOT"
    case LParen => "LPAREN"
    case RParen => "RPAREN"
    case LBrace => "LBRACE"
    case RBrace => "RBRACE"
    case LBracket => "LBRACKET"
    case RBracket => "RBRACKET"
    case Semicolon => "SEMICOLON"
    case Comma => "COMMA"
    case KwInt => "INT"
    case KwFloat => "FLOAT"
    case KwChar => "CHAR"
    case KwVoid => "VOID"
    case KwIf => "IF"
    case KwElse => "ELSE"
    case KwFor => "FOR"
    case KwWhile => "WHILE"
    case KwReturn => "RETURN"
    case KwBreak => "BREAK"
    case KwContinue => "CONTINUE"
  }

  const Keywords: set<string> :=
    {"int", "float", "char", "void", "if", "else", "for", "while", "return", "break", "continue"}

  /** The token type an identifier-shaped lexeme is given: its keyword type, or none. */
  function KeywordKind(s: string): (r: Option<Kind>)
    ensures r.Some? <==> s in Keywords
  {
    match s
    case "int" => Some(KwInt)
    case "float" => Some(KwFloat)
    case "char" => Some(KwChar)
    case "void" => Some(KwVoid)
    case "if" => Some(KwIf)
    case "else" => Some(KwElse)
    case "for" => Some(KwFor)
    case "while" => Some(KwWhile)
    case "return" => Some(KwReturn)
    case "break" => Some(KwBreak)
    case "continue" => Some(KwContinue)
    case _ => None
  }

  predicate IsKeyword(k: Kind)
  {
    k in {KwInt, KwFloat, KwChar, KwVoid, KwIf, KwElse, KwFor, KwWhile, KwReturn, KwBreak, KwContinue}
  }

  predicate IsTypeKeyword(k: Kind)
  {
    k in {KwInt, KwFloat, KwChar, KwVoid}
  }

  /** The lexeme of a keyword. */
  function KeywordText(k: Kind): string
    requires IsKeyword(k)
  {
    match k
    case KwInt => "int"
    case KwFloat => "float"
    case KwChar => "char"
    case KwVoid => "void"
    case KwIf => "if"
    case KwElse => "else"
    case KwFor => "for"
    case KwWhile => "while"
    case KwReturn => "return"
    case KwBreak => "break"
    case KwContinue => "continue"
  }

  function UpperChar(c: char): char
  {
    if 'a' <= c <= 'z' then (c as int - 'a' as int + 'A' as int) as char else c
  }

  function Upper(s: string): (r: string)
  {
    seq(|s|, i requires 0 <= i < |s| => UpperChar(s[i]))
  }

  /** Every keyword type is named by its lexeme upper-cased. */
  lemma KeywordNameIsUpperCase(k: Kind)
    requires IsKeyword(k)
    ensures KindName(k) == Upper(KeywordText(k))
  {
    if IsTypeKeyword(k) {
      TypeKeywordNameIsUpperCase(k);
    } else {
      StatementKeywordNameIsUpperCase(k);
    }
  }

  lemma TypeKeywordNameIsUpperCase(k: Kind)
    requires IsTypeKeyword(k)
    ensures IsKeyword(k) && KindName(k) == Upper(KeywordText(k))
  {
    match k
    case KwInt => assert Upper("int") == "INT";
    case KwFloat => assert Upper("float") == "FLOAT";
    case KwChar => assert Upper("char") == "CHAR";
    case KwVoid => assert Upper("void") == "VOID";
  }

  lemma StatementKeywordNameIsUpperCase(k: Kind)
    requires IsKeyword(k) && !IsTypeKeyword(k)
    ensures KindName(k) == Upper(KeywordText(k))
  {
    match k
    case KwIf => assert Upper("if") == "IF";
    case KwElse => assert Upper("else") == "ELSE";
    case KwFor => assert Upper("for") == "FOR";
    case KwWhile => assert Upper("while") == "WHILE";
    case KwReturn => assert Upper("return") == "RETURN";
    case KwBreak => assert Upper("break") == "BREAK";
    case KwContinue => assert Upper("continue") == "CONTINUE";
  }

  /**
   * A keyword lexeme is given, as its type, its own text upper-cased, and
   * the keyword type spells the lexeme back.
   */
  lemma KeywordKindIsUpperCase(s: string)
    requires s in Keywords
    ensures KeywordKind(s).Some? && IsKeyword(KeywordKind(s).value)
    ensures KeywordText(KeywordKind(s).value) == s
    ensures KindName(KeywordKind(s).value) == Upper(s)
  {
    KeywordNameIsUpperCase(KeywordKind(s).value);
  }

  /** The lexeme of an operator or punctuation token type. */
  predicate IsOperator(k: Kind)
  {
    !IsKeyword(k) && k !in {Id, IntLiteral, FloatLiteral, CharLiteral, StringLiteral}
  }

  function OperatorText(k: Kind): (r: string)
    requires IsOperator(k)
    ensures 1 <= |r| <= 2
  {
    match k
    case Plus => "+"
    case Minus => "-"
    case Times => "*"
    case Divide => "/"
    case Mod => "%"
    case Increment => "++"
    case Decrement => "--"
    case Equal => "=="
    case NotEqual => "!="
    case Less => "<"
    case LessEqual => "<="
    case Greater => ">"
    case GreaterEqual => ">="
    case Assign => "="
    case PlusAssign => "+="
    case MinusAssign => "-="
    case TimesAssign => "*="
    case DivideAssign => "/="
    case ModAssign => "%="
    case And => "&&"
    case Or => "||"
    case Not => "!"
    case LParen => "("
    case RParen => ")"
    case LBrace => "{"
    case RBrace => "}"
    case LBracket => "["
    case RBracket => "]"
    case Semicolon => ";"
    case Comma => ","
  }

  /** No two operator kinds share a lexeme. */
  lemma OperatorTextInjective(k1: Kind, k2: Kind)
    requires IsOperator(k1) && IsOperator(k2) && OperatorText(k1) == OperatorText(k2)
    ensures k1 == k2
  {
  }

  predicate IsIdStart(c: char) { 'A' <= c <= 'Z' || 'a' <= c <= 'z' || c == '_' }
  predicate IsDigit(c: char) { '0' <= c <= '9' }
  predicate IsIdChar(c: char) { IsIdStart(c) || IsDigit(c) }

  predicate IsIdentifier(s: string)
  {
    |s| > 0 && IsIdStart(s[0]) && forall i :: 1 <= i < |s| ==> IsIdChar(s[i])
  }

  predicate IsDigits(s: string)
  {
    |s| > 0 && forall i :: 0 <= i < |s| ==> IsDigit(s[i])
  }

  /**
   * A token as the scanner produces it: the value agrees with the kind.
   * The syntax analyzer relies on this for the values it copies into nodes.
   */
  predicate ValidToken(t: Token)
  {
    if t.kind == Id then t.value.Text? && IsIdentifier(t.value.s) && t.value.s !in Keywords
    else if t.kind == IntLiteral then t.value.Number?
    else if t.kind == FloatLiteral then t.value.Decimal? && IsDigits(t.value.whole) && IsDigits(t.value.frac)
    else if t.kind == CharLiteral || t.kind == StringLiteral then t.value.Text?
    else if IsKeyword(t.kind) then t.value == Text(KeywordText(t.kind))
    else t.value == Text(OperatorText(t.kind))
  }

  predicate ValidTokens(toks: seq<Token>)
  {
    forall i {:trigger ValidToken(toks[i])} :: 0 <= i < |toks| ==> ValidToken(toks[i])
  }
}
