/**
 The whole front end: the text of a Rue source file is split into tokens
 (whitespace and comments are skipped) and the tokens are parsed as a
 `source_file`.
 */
module Rue {

  import opened Results
  import opened Tokens
  import opened Lexer
  import opened Syntax
  import opened Parser
  import opened Printer
  import opened RoundTrip
  import opened Soundness
  import opened Properties

  datatype Error = Lexical(lexical: LexError) | Syntactic(syntactic: SyntaxError)

  /**
   Parses source text. The tree it returns obeys the precedence table, and
   printing it spells the text with its whitespace and comments taken out.
   */
  function Parse(text: string): (r: Result<SourceFile, Error>)
    ensures r.Ok? ==> WellNestedFile(r.value)
    ensures r.Ok? ==> Spelling(PrintSourceFile(r.value)) == WithoutExtras(text)
    ensures r.Ok? ==> Lex(text).Ok? && ParseSourceFile(Lex(text).value) == Ok(r.value)
    ensures Lex(text).Err? ==> r == Err(Lexical(Lex(text).error))
    ensures Lex(text).Ok? && ParseSourceFile(Lex(text).value).Err? ==> r.Err? && r.error.Syntactic?
  {
    match Lex(text)
    case Err(e) => Err(Lexical(e))
    case Ok(ts) =>
      match ParseSourceFile(ts)
      case Err(e) => Err(Syntactic(e))
      case Ok(sf) =>
        LexSound(text);
        SourceFileSound(ts);
        SpellingOfUnjoin(ts);
        SpellingOfUnjoin(PrintSourceFile(sf));
        Ok(sf)
  }

  /**
   Every well-nested tree whose names and literals are well-formed tokens is
   read back from its own text, written with one space after every token.
   */
  lemma ParseRendered(sf: SourceFile)
    requires WellNestedFile(sf)
    requires forall i :: 0 <= i < |PrintSourceFile(sf)| ==> WellFormed(PrintSourceFile(sf)[i])
    ensures Parse(Render(PrintSourceFile(sf))) == Ok(sf)
  {
    LexRender(PrintSourceFile(sf));
    SourceFileRoundTrip(sf);
  }

  /** A file holding only a line comment has no items. */
  lemma CommentOnlyFile(body: string)
    requires forall i :: 0 <= i < |body| ==> body[i] != '\n'
    ensures Parse("//" + body) == Ok(SourceFile([]))
  {
    LexSkipsLineComment(body, "");
  }

  /** The tokens of a function item after its parameters: `->`, the return type and the body. */
  function AfterParameters(f: FunctionItem): seq<Token> {
    [Arrow] + (PrintType(f.returnType) + PrintBlock(f.body))
  }

  /**
   A function without parameters, written the usual way with no space in
   `name()`, is lexed with the joined `()` token and read back as itself.
   */
  lemma ParameterlessFunctionText(f: FunctionItem)
    requires WellNestedFunction(f) && f.parameters == []
    requires WellFormed(Ident(f.name))
    requires forall i :: 0 <= i < |AfterParameters(f)| ==> WellFormed(AfterParameters(f)[i])
    ensures Parse(Text(Kw(Fn)) + " " + (f.name + Render([UnitParens] + AfterParameters(f)))) == Ok(SourceFile([f]))
  {
    LexJoinedHeader(f.name, AfterParameters(f));
    ParameterlessFileJoined(f);
  }
}
