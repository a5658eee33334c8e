/**
 The lexical vocabulary of Rue: character classes, reserved words, and the
 tokens the lexer hands to the parser, together with each token's spelling.
 */
module Tokens {

  import opened Results
  import opened Precedence

  /** Letters, digits and `_`, as in `[a-zA-Z_][a-zA-Z0-9_]*`. */
  predicate IsIdentStart(c: char) {
    ('a' <= c <= 'z') || ('A' <= c <= 'Z') || c == '_'
  }

  predicate IsDigit(c: char) {
    '0' <= c <= '9'
  }

  predicate IsIdentPart(c: char) {
    IsIdentStart(c) || IsDigit(c)
  }

  /** The ASCII members of `\s`: space, tab, line feed, carriage return, vertical tab, form feed. */
  predicate IsWhitespace(c: char) {
    c == ' ' || c == '\t' || c == '\n' || c == '\r' || c == '\U{000B}' || c == '\U{000C}'
  }

  /** Text matching `[a-zA-Z_][a-zA-Z0-9_]*`. */
  predicate IsWord(s: string) {
    |s| > 0 && IsIdentStart(s[0]) && forall i :: 0 < i < |s| ==> IsIdentPart(s[i])
  }

  /** Text matching `\d+`. */
  predicate IsDigits(s: string) {
    |s| > 0 && forall i :: 0 <= i < |s| ==> IsDigit(s[i])
  }

  /** The string literals of the grammar that have the shape of the `word` token. */
  datatype Keyword = Fn | Let | If | Else | While | True | False | I32 | I64 | Bool

  function KeywordText(k: Keyword): string {
    match k
    case Fn => "fn"
    case Let => "let"
    case If => "if"
    case Else => "else"
    case While => "while"
    case True => "true"
    case False => "false"
    case I32 => "i32"
    case I64 => "i64"
    case Bool => "bool"
  }

  /** The keyword spelled by `s`, if any: the reserved-word filter applied to every word. */
  function KeywordOf(s: string): (r: Option<Keyword>)
    ensures r.Some? ==> KeywordText(r.value) == s
    ensures r.None? ==> forall k: Keyword :: KeywordText(k) != s
  {
    if s == "fn" then Some(Fn)
    else if s == "let" then Some(Let)
    else if s == "if" then Some(If)
    else if s == "else" then Some(Else)
    else if s == "while" then Some(While)
    else if s == "true" then Some(True)
    else if s == "false" then Some(False)
    else if s == "i32" then Some(I32)
    else if s == "i64" then Some(I64)
    else if s == "bool" then Some(Bool)
    else None
  }

  /**
   A token. `UnitParens` is the single token `()` of `unit_type`; the
   parser also accepts it where the grammar expects `(` followed by `)`.
   */
  datatype Token =
    | Ident(name: string)
    | Integer(digits: string)
    | Kw(keyword: Keyword)
    | LParen | RParen | UnitParens
    | LBrace | RBrace
    | Comma | Colon | Semicolon | Arrow | Assign
    | Op(op: BinOp)

  function OpText(op: BinOp): string {
    match op
    case Mul => "*"
    case Div => "/"
    case Mod => "%"
    case Add => "+"
    case Sub => "-"
    case Eq => "=="
    case Ne => "!="
    case Lt => "<"
    case Le => "<="
    case Gt => ">"
    case Ge => ">="
  }

  /** How a token is spelled in source text. */
  function Text(t: Token): string {
    match t
    case Ident(name) => name
    case Integer(digits) => digits
    case Kw(k) => KeywordText(k)
    case LParen => "("
    case RParen => ")"
    case UnitParens => "()"
    case LBrace => "{"
    case RBrace => "}"
    case Comma => ","
    case Colon => ":"
    case Semicolon => ";"
    case Arrow => "->"
    case Assign => "="
    case Op(op) => OpText(op)
  }

  /** An identifier is a non-reserved word; an integer literal is a digit string. */
  predicate WellFormed(t: Token) {
    match t
    case Ident(name) => IsWord(name) && KeywordOf(name).None?
    case Integer(digits) => IsDigits(digits)
    case _ => true
  }

  /** The tokens' spellings run together, with nothing between them. */
  function Spelling(ts: seq<Token>): string {
    if |ts| == 0 then "" else Text(ts[0]) + Spelling(ts[1..])
  }

  /** Source text for a token sequence: every token followed by one space. */
  function Render(ts: seq<Token>): string {
    if |ts| == 0 then "" else Text(ts[0]) + " " + Render(ts[1..])
  }
}
