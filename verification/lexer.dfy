/**
 The Rue lexer: skips the `extras` (whitespace, line comments, block
 comments), reads words through the reserved-word filter of the `word`
 rule, and recognises integer literals and punctuation by maximal munch.
 */
module Lexer {

  import opened Results
  import opened Precedence
  import opened Tokens

  datatype LexError = UnterminatedBlockComment | UnexpectedCharacter(c: char)

  /** The number of leading identifier characters of `s`. */
  function WordLength(s: string): (n: nat)
    ensures n <= |s|
    ensures forall i :: 0 <= i < n ==> IsIdentPart(s[i])
    ensures n < |s| ==> !IsIdentPart(s[n])
  {
    if |s| == 0 || !IsIdentPart(s[0]) then 0 else 1 + WordLength(s[1..])
  }

  /** The number of leading decimal digits of `s`. */
  function DigitLength(s: string): (n: nat)
    ensures n <= |s|
    ensures forall i :: 0 <= i < n ==> IsDigit(s[i])
    ensures n < |s| ==> !IsDigit(s[n])
  {
    if |s| == 0 || !IsDigit(s[0]) then 0 else 1 + DigitLength(s[1..])
  }

  /** The length of a line comment's body: `.` matches everything but a line feed. */
  function LineLength(s: string): (n: nat)
    ensures n <= |s|
    ensures forall i :: 0 <= i < n ==> s[i] != '\n'
    ensures n < |s| ==> s[n] == '\n'
  {
    if |s| == 0 || s[0] == '\n' then 0 else 1 + LineLength(s[1..])
  }

  /** A star-slash, which closes a block comment, starts at index `j` of `s`. */
  predicate ClosesAt(s: string, j: int) {
    0 <= j && j + 1 < |s| && s[j] == '*' && s[j + 1] == '/'
  }

  /**
   Given the text that follows the opening slash-star of a block comment,
   the length of the rest of the comment up to and including the FIRST
   star-slash: block comments do not nest.
   */
  function CommentLength(s: string): (r: Option<nat>)
    ensures r.Some? ==> 2 <= r.value <= |s| && ClosesAt(s, r.value - 2)
    ensures r.Some? ==> forall j :: 0 <= j < r.value - 2 ==> !ClosesAt(s, j)
    ensures r.None? ==> forall j :: 0 <= j < |s| ==> !ClosesAt(s, j)
  {
    if |s| < 2 then None
    else if s[0] == '*' && s[1] == '/' then Some(2)
    else
      match CommentLength(s[1..])
      case None =>
        assert forall j :: 1 <= j < |s| ==> ClosesAt(s, j) == ClosesAt(s[1..], j - 1);
        None
      case Some(n) =>
        assert forall j :: 1 <= j < |s| ==> ClosesAt(s, j) == ClosesAt(s[1..], j - 1);
        Some(n + 1)
  }

  /** A word is a keyword when the reserved-word filter says so, an identifier otherwise. */
  function WordToken(w: string): (t: Token)
    ensures IsWord(w) ==> WellFormed(t)
    ensures Text(t) == w
    ensures t.Ident? <==> KeywordOf(w).None?
  {
    match KeywordOf(w)
    case Some(k) => Kw(k)
    case None => Ident(w)
  }

  /** `s` continues with `c` right after its first character. */
  predicate Follows(s: string, c: char) {
    |s| > 1 && s[1] == c
  }

  /** The single-character punctuation of the grammar. */
  predicate IsPunctuation(c: char) {
    c == '(' || c == ')' || c == '{' || c == '}' || c == ',' || c == ':' || c == ';'
  }

  /** The characters that begin a punctuation or operator spelling. */
  predicate SymbolStart(c: char) {
    IsPunctuation(c) || c == '-' || c == '=' || c == '!' || c == '<' || c == '>'
    || c == '+' || c == '*' || c == '/' || c == '%'
  }

  /** The two-character spellings: `()`, `->`, `==`, `!=`, `<=` and `>=`. */
  predicate SymbolPair(a: char, b: char) {
    (a == '(' && b == ')') || (a == '-' && b == '>') || (a == '=' && b == '=')
    || (a == '!' && b == '=') || (a == '<' && b == '=') || (a == '>' && b == '=')
  }

  /**
   Maximal munch: no well-formed token spelled with more than `n`
   characters begins `s`.
   */
  ghost predicate LongestAt(s: string, n: nat) {
    forall t: Token :: WellFormed(t) && n < |Text(t)| <= |s| ==> Text(t) != s[..|Text(t)|]
  }

  /**
   The token at the start of `s` and its length, by maximal munch; callers
   have already skipped whitespace and comments.
   */
  function NextToken(s: string): (r: Result<(Token, nat), LexError>)
    requires |s| > 0
    ensures r.Ok? ==> 1 <= r.value.1 <= |s|
    ensures r.Ok? ==> WellFormed(r.value.0) && Text(r.value.0) == s[..r.value.1]
    ensures r.Err? ==> r.error == UnexpectedCharacter(s[0])
    ensures r.Ok? ==> LongestAt(s, r.value.1)
    ensures r.Err? ==> LongestAt(s, 0)
  {
    var c := s[0];
    if IsIdentStart(c) then
      var n := WordLength(s);
      WordIsLongest(s);
      Ok((WordToken(s[..n]), n))
    else if IsDigit(c) then
      var n := DigitLength(s);
      DigitsAreLongest(s);
      Ok((Integer(s[..n]), n))
    else SymbolToken(s)
  }

  /** A punctuation or operator token. */
  function SymbolToken(s: string): (r: Result<(Token, nat), LexError>)
    requires |s| > 0
    ensures r.Ok? ==> 1 <= r.value.1 <= |s|
    ensures r.Ok? ==> WellFormed(r.value.0) && Text(r.value.0) == s[..r.value.1]
    ensures r.Err? ==> r.error == UnexpectedCharacter(s[0])
    ensures r.Ok? ==> LongestAt(s, r.value.1)
    ensures r.Err? && !IsIdentPart(s[0]) ==> LongestAt(s, 0)
  {
    if IsPunctuation(s[0]) then PunctuationToken(s) else OperatorToken(s)
  }

  /** Brackets and separators; `(` directly followed by `)` is the unit token. */
  function PunctuationToken(s: string): (r: Result<(Token, nat), LexError>)
    requires |s| > 0
    ensures r.Ok? ==> 1 <= r.value.1 <= |s|
    ensures r.Ok? ==> WellFormed(r.value.0) && Text(r.value.0) == s[..r.value.1]
    ensures r.Err? ==> r.error == UnexpectedCharacter(s[0])
    ensures r.Ok? ==> LongestAt(s, r.value.1)
  {
    var c := s[0];
    if c == '(' then
      if Follows(s, ')') then Munch(s, UnitParens, 2) else Munch(s, LParen, 1)
    else if c == ')' then Munch(s, RParen, 1)
    else if c == '{' then Munch(s, LBrace, 1)
    else if c == '}' then Munch(s, RBrace, 1)
    else if c == ',' then Munch(s, Comma, 1)
    else if c == ':' then Munch(s, Colon, 1)
    else if c == ';' then Munch(s, Semicolon, 1)
    else Err(UnexpectedCharacter(c))
  }

  /** `->`, `=` and the binary operators, two-character spellings first. */
  function OperatorToken(s: string): (r: Result<(Token, nat), LexError>)
    requires |s| > 0
    ensures r.Ok? ==> 1 <= r.value.1 <= |s|
    ensures r.Ok? ==> WellFormed(r.value.0) && Text(r.value.0) == s[..r.value.1]
    ensures r.Err? ==> r.error == UnexpectedCharacter(s[0])
    ensures r.Ok? ==> LongestAt(s, r.value.1)
    ensures r.Err? && !IsIdentPart(s[0]) && !IsPunctuation(s[0]) ==> LongestAt(s, 0)
  {
    var c := s[0];
    if c == '-' || c == '=' || c == '!' || c == '<' || c == '>' then PairedOperatorToken(s)
    else if c == '+' then Munch(s, Op(Add), 1)
    else if c == '*' then Munch(s, Op(Mul), 1)
    else if c == '/' then Munch(s, Op(Div), 1)
    else if c == '%' then Munch(s, Op(Mod), 1)
    else NoToken(s)
  }

  /** The operators that have a two-character spelling: `->`, `==`, `!=`, `<=` and `>=`. */
  function PairedOperatorToken(s: string): (r: Result<(Token, nat), LexError>)
    requires |s| > 0 && (s[0] == '-' || s[0] == '=' || s[0] == '!' || s[0] == '<' || s[0] == '>')
    ensures r.Ok? ==> 1 <= r.value.1 <= |s|
    ensures r.Ok? ==> WellFormed(r.value.0) && Text(r.value.0) == s[..r.value.1]
    ensures r.Err? ==> r.error == UnexpectedCharacter(s[0])
    ensures r.Ok? ==> LongestAt(s, r.value.1)
    ensures r.Err? ==> LongestAt(s, 0)
  {
    var c := s[0];
    assert s[..1] == [c];
    assert |s| >= 2 ==> s[..2] == [c, s[1]];
    if c == '-' then
      if Follows(s, '>') then Munch(s, Arrow, 2) else Munch(s, Op(Sub), 1)
    else if c == '=' then
      if Follows(s, '=') then Munch(s, Op(Eq), 2) else Munch(s, Assign, 1)
    else if c == '!' then
      if Follows(s, '=') then Munch(s, Op(Ne), 2) else NoToken(s)
    else if c == '<' then
      if Follows(s, '=') then Munch(s, Op(Le), 2) else Munch(s, Op(Lt), 1)
    else
      if Follows(s, '=') then Munch(s, Op(Ge), 2) else Munch(s, Op(Gt), 1)
  }

  /** The symbol `t`, `n` characters long, at the start of `s`: no longer token starts there. */
  function Munch(s: string, t: Token, n: nat): (r: Result<(Token, nat), LexError>)
    requires 1 <= n <= 2 && n <= |s| && !IsIdentPart(s[0])
    requires n == 1 && |s| >= 2 ==> !SymbolPair(s[0], s[1])
    ensures r == Ok((t, n)) && LongestAt(s, n)
  {
    SymbolIsLongest(s, n);
    Ok((t, n))
  }

  /** No symbol is spelled at the start of `s`, and no other token begins there either. */
  function NoToken(s: string): (r: Result<(Token, nat), LexError>)
    requires |s| > 0
    requires !SymbolStart(s[0]) || IsPunctuation(s[0]) || (s[0] == '!' && !Follows(s, '='))
    ensures r == Err(UnexpectedCharacter(s[0]))
    ensures !IsIdentPart(s[0]) && !IsPunctuation(s[0]) ==> LongestAt(s, 0)
  {
    if !IsIdentPart(s[0]) && !IsPunctuation(s[0]) then
      SymbolIsLongest(s, 0);
      Err(UnexpectedCharacter(s[0]))
    else
      Err(UnexpectedCharacter(s[0]))
  }

  /** Puts `t` in front of a successful token list; passes errors through. */
  function Cons(t: Token, r: Result<seq<Token>, LexError>): Result<seq<Token>, LexError> {
    match r
    case Ok(ts) => Ok([t] + ts)
    case Err(e) => Err(e)
  }

  /** The token sequence of a source text, or the first lexical error. */
  function Lex(s: string): (r: Result<seq<Token>, LexError>)
    ensures r.Ok? ==> forall i :: 0 <= i < |r.value| ==> WellFormed(r.value[i])
    decreases |s|
  {
    if |s| == 0 then Ok([])
    else if IsWhitespace(s[0]) then Lex(s[1..])
    else if s[0] == '/' && Follows(s, '/') then
      Lex(s[2 + LineLength(s[2..])..])
    else if s[0] == '/' && Follows(s, '*') then
      match CommentLength(s[2..])
      case None => Err(UnterminatedBlockComment)
      case Some(n) => Lex(s[2 + n..])
    else
      var next :- NextToken(s);
      Cons(next.0, Lex(s[next.1..]))
  }

  // ---------------------------------------------------------------------
  // Scanning lengths

  /** A run of identifier characters followed by a non-identifier character is one word. */
  lemma WordLengthOf(w: string, s: string)
    requires forall i :: 0 <= i < |w| ==> IsIdentPart(w[i])
    requires |s| == 0 || !IsIdentPart(s[0])
    ensures WordLength(w + s) == |w|
  {
    var u := w + s;
    assert forall i :: 0 <= i < |w| ==> u[i] == w[i];
    assert |w| < |u| ==> u[|w|] == s[0];
    WordRun(u, |w|);
  }

  lemma {:induction false} WordRun(u: string, k: nat)
    requires k <= |u| && forall i :: 0 <= i < k ==> IsIdentPart(u[i])
    requires k == |u| || !IsIdentPart(u[k])
    ensures WordLength(u) == k
    decreases k
  {
    if k > 0 {
      var v := u[1..];
      assert IsIdentPart(u[0]);
      assert forall i :: 0 <= i < k - 1 ==> v[i] == u[i + 1];
      assert k - 1 < |v| ==> v[k - 1] == u[k];
      WordRun(v, k - 1);
    }
  }

  lemma DigitLengthOf(d: string, s: string)
    requires forall i :: 0 <= i < |d| ==> IsDigit(d[i])
    requires |s| == 0 || !IsDigit(s[0])
    ensures DigitLength(d + s) == |d|
  {
    var u := d + s;
    assert forall i :: 0 <= i < |d| ==> u[i] == d[i];
    assert |d| < |u| ==> u[|d|] == s[0];
    DigitRun(u, |d|);
  }

  lemma {:induction false} DigitRun(u: string, k: nat)
    requires k <= |u| && forall i :: 0 <= i < k ==> IsDigit(u[i])
    requires k == |u| || !IsDigit(u[k])
    ensures DigitLength(u) == k
    decreases k
  {
    if k > 0 {
      var v := u[1..];
      assert IsDigit(u[0]);
      assert forall i :: 0 <= i < k - 1 ==> v[i] == u[i + 1];
      assert k - 1 < |v| ==> v[k - 1] == u[k];
      DigitRun(v, k - 1);
    }
  }

  lemma LineLengthOf(body: string, s: string)
    requires forall i :: 0 <= i < |body| ==> body[i] != '\n'
    requires |s| == 0 || s[0] == '\n'
    ensures LineLength(body + s) == |body|
  {
    var u := body + s;
    assert forall i :: 0 <= i < |body| ==> u[i] == body[i];
    assert |body| < |u| ==> u[|body|] == s[0];
    LineRun(u, |body|);
  }

  lemma {:induction false} LineRun(u: string, k: nat)
    requires k <= |u| && forall i :: 0 <= i < k ==> u[i] != '\n'
    requires k == |u| || u[k] == '\n'
    ensures LineLength(u) == k
    decreases k
  {
    if k > 0 {
      var v := u[1..];
      assert u[0] != '\n';
      assert forall i :: 0 <= i < k - 1 ==> v[i] == u[i + 1];
      assert k - 1 < |v| ==> v[k - 1] == u[k];
      LineRun(v, k - 1);
    }
  }

  /** A comment body free of star-slash is closed by the star-slash that follows it. */
  lemma CommentLengthOf(body: string, s: string)
    requires forall j :: 0 <= j < |body| ==> !ClosesAt(body, j)
    ensures CommentLength(body + "*/" + s) == Some(|body| + 2)
    decreases |body|
  {
    var t := body + "*/" + s;
    if |body| == 0 {
      assert t[0] == '*' && t[1] == '/';
    } else {
      assert t[0] == body[0];
      assert |body| == 1 ==> t[1] == '*';
      assert |body| > 1 ==> t[1] == body[1] && !ClosesAt(body, 0);
      assert t[1..] == body[1..] + "*/" + s;
      forall j | 0 <= j < |body[1..]|
        ensures !ClosesAt(body[1..], j)
      {
        assert !ClosesAt(body, j + 1);
      }
      CommentLengthOf(body[1..], s);
    }
  }

  // ---------------------------------------------------------------------
  // Trivia

  /** Whitespace between tokens is skipped. */
  lemma LexSkipsWhitespace(c: char, s: string)
    requires IsWhitespace(c)
    ensures Lex([c] + s) == Lex(s)
  {
    assert ([c] + s)[1..] == s;
  }

  /** A line comment runs to the end of its line and produces nothing. */
  lemma LexSkipsLineComment(body: string, s: string)
    requires forall i :: 0 <= i < |body| ==> body[i] != '\n'
    ensures Lex("//" + body + "\n" + s) == Lex(s)
    ensures Lex("//" + body) == Ok([])
  {
    var u := "//" + body + "\n" + s;
    assert u[2..] == body + ("\n" + s);
    LineLengthOf(body, "\n" + s);
    assert u[2 + |body|..] == ['\n'] + s;
    LexSkipsWhitespace('\n', s);
    var v := "//" + body;
    assert v[2..] == body + "";
    LineLengthOf(body, "");
    assert v[2 + |body|..] == [];
  }

  /** A block comment ends at the first star-slash after its opening slash-star. */
  lemma LexSkipsBlockComment(body: string, s: string)
    requires forall j :: 0 <= j < |body| ==> !ClosesAt(body, j)
    ensures Lex("/*" + body + "*/" + s) == Lex(s)
  {
    var u := "/*" + body + "*/" + s;
    var t := body + "*/" + s;
    assert u[2..] == t;
    CommentLengthOf(body, s);
    assert u[2 + (|body| + 2)..] == s;
  }

  /** A block comment without a closing star-slash is a lexical error. */
  lemma UnterminatedCommentIsAnError(body: string)
    requires forall j :: 0 <= j < |body| ==> !ClosesAt(body, j)
    ensures Lex("/*" + body) == Err(UnterminatedBlockComment)
  {
    var u := "/*" + body;
    assert u[2..] == body;
  }

  /**
   A character that is not whitespace and begins no token (`@`, say, or a
   `!` without `=`) is an error at once: it is never skipped.
   */
  lemma StrayCharacterIsAnError(c: char, s: string)
    requires !IsWhitespace(c) && !IsIdentPart(c)
    requires !SymbolStart(c) || (c == '!' && (|s| == 0 || s[0] != '='))
    ensures Lex([c] + s) == Err(UnexpectedCharacter(c))
  {
    var u := [c] + s;
    assert u[0] == c && u[1..] == s;
    assert !IsIdentStart(c) && !IsDigit(c) && !IsPunctuation(c);
    if c == '!' {
      assert !Follows(u, '=');
      assert PairedOperatorToken(u).Err?;
    }
    assert SymbolToken(u).Err?;
  }

  // ---------------------------------------------------------------------
  // Words

  /** A word on its own lexes to one token: a keyword exactly when it is reserved. */
  lemma LexWord(w: string)
    requires IsWord(w)
    ensures Lex(w) == Ok([WordToken(w)])
  {
    WordLengthOf(w, "");
    assert w + "" == w;
    assert w[..|w|] == w;
    assert !IsWhitespace(w[0]) && w[0] != '/';
    assert NextToken(w) == Ok((WordToken(w), |w|));
    assert w[|w|..] == [];
    assert Lex(w[|w|..]) == Ok([]);
    assert Lex(w) == Cons(WordToken(w), Lex(w[|w|..]));
    assert [WordToken(w)] + [] == [WordToken(w)];
  }

  /** A word followed by a character that cannot continue it is one token, and lexing goes on after it. */
  lemma LexWordThen(w: string, s: string)
    requires IsWord(w)
    requires |s| == 0 || !IsIdentPart(s[0])
    ensures Lex(w + s) == Cons(WordToken(w), Lex(s))
  {
    WordLengthOf(w, s);
    var u := w + s;
    assert u[..|w|] == w;
    assert !IsWhitespace(u[0]) && u[0] != '/';
    assert NextToken(u) == Ok((WordToken(w), |w|));
    assert u[|w|..] == s;
  }

  /**
   `fn name()` written with no space before the parentheses lexes to `fn`,
   the name and the single joined `()` token.
   */
  lemma LexJoinedHeader(name: string, tail: seq<Token>)
    requires WellFormed(Ident(name))
    requires forall i :: 0 <= i < |tail| ==> WellFormed(tail[i])
    ensures Lex(Text(Kw(Fn)) + " " + (name + Render([UnitParens] + tail))) == Ok([Kw(Fn), Ident(name), UnitParens] + tail)
  {
    var parens := [UnitParens] + tail;
    LexNameThenParens(name, tail);
    LexText(Kw(Fn), name + Render(parens));
    assert [Kw(Fn)] + ([Ident(name)] + parens) == [Kw(Fn), Ident(name), UnitParens] + tail;
  }

  lemma LexNameThenParens(name: string, tail: seq<Token>)
    requires WellFormed(Ident(name))
    requires forall i :: 0 <= i < |tail| ==> WellFormed(tail[i])
    ensures Lex(name + Render([UnitParens] + tail)) == Ok([Ident(name)] + ([UnitParens] + tail))
  {
    var parens := [UnitParens] + tail;
    assert forall i :: 0 <= i < |parens| ==> WellFormed(parens[i]) by {
      forall i | 0 <= i < |parens| ensures WellFormed(parens[i]) {
        if i > 0 { assert parens[i] == tail[i - 1]; }
      }
    }
    LexRender(parens);
    var after := Render(parens);
    assert after[0] == '(' by { assert after == Text(UnitParens) + " " + Render(tail); }
    LexWordThen(name, after);
    assert WordToken(name) == Ident(name);
  }

  /** `if` is the keyword... */
  lemma IfIsAKeyword()
    ensures Lex("if") == Ok([Kw(If)])
  {
    LexWord("if");
  }

  /** ...but a longer word that begins with it is an identifier. */
  lemma IffyIsAnIdentifier()
    ensures Lex("iffy") == Ok([Ident("iffy")])
  {
    assert KeywordOf("iffy") == None;
    LexWord("iffy");
  }

  /** Block comments do not nest: the first star-slash ends the comment and the rest is lexed. */
  lemma BlockCommentsDoNotNest()
    ensures Lex("/* /* */ */") == Ok([Op(Mul), Op(Div)])
  {
    var slash := "/";
    assert !IsWhitespace(slash[0]) && !Follows(slash, '/') && !Follows(slash, '*');
    assert NextToken(slash) == Ok((Op(Div), 1));
    assert slash[1..] == [];
    assert Lex(slash[1..]) == Ok([]);
    assert Lex(slash) == Cons(Op(Div), Lex(slash[1..]));
    assert [Op(Div)] + [] == [Op(Div)];
    assert Lex(slash) == Ok([Op(Div)]);
    var starSlash := "*/";
    assert !IsWhitespace(starSlash[0]) && starSlash[0] != '/';
    assert NextToken(starSlash) == Ok((Op(Mul), 1));
    assert starSlash[1..] == slash;
    assert Lex(starSlash) == Cons(Op(Mul), Lex(starSlash[1..]));
    assert [Op(Mul)] + [Op(Div)] == [Op(Mul), Op(Div)];
    assert Lex(starSlash) == Ok([Op(Mul), Op(Div)]);
    LexSkipsWhitespace(' ', "*/");
    var body := " /* ";
    assert !ClosesAt(body, 0) && !ClosesAt(body, 1) && !ClosesAt(body, 2) && !ClosesAt(body, 3);
    assert "/* /* */ */" == "/*" + body + "*/" + " */";
    LexSkipsBlockComment(body, " */");
  }

  // ---------------------------------------------------------------------
  // Maximal munch

  /** How a token's spelling begins decides its kind. */
  lemma TextShape(t: Token)
    requires WellFormed(t)
    ensures |Text(t)| > 0
    ensures IsIdentStart(Text(t)[0]) ==> IsWord(Text(t))
    ensures IsDigit(Text(t)[0]) ==> IsDigits(Text(t))
    ensures !IsIdentPart(Text(t)[0]) ==>
      SymbolStart(Text(t)[0]) && |Text(t)| <= 2
      && (|Text(t)| == 2 ==> SymbolPair(Text(t)[0], Text(t)[1]))
      && (Text(t)[0] == '!' ==> |Text(t)| == 2)
  {
    match t
    case Kw(k) =>
      match k {
        case Fn => case Let => case If => case Else => case While =>
        case True => case False => case I32 => case I64 => case Bool =>
      }
    case Op(op) =>
      match op {
        case Mul => case Div => case Mod => case Add => case Sub =>
        case Eq => case Ne => case Lt => case Le => case Gt => case Ge =>
      }
    case _ =>
  }

  /** A word is the longest token at its start: the next character cannot extend it. */
  lemma WordIsLongest(s: string)
    requires |s| > 0 && IsIdentStart(s[0])
    ensures LongestAt(s, WordLength(s))
  {
    var n := WordLength(s);
    forall t: Token | WellFormed(t) && n < |Text(t)| <= |s|
      ensures Text(t) != s[..|Text(t)|]
    {
      TextShape(t);
      assert Text(t)[0] != s[0] || Text(t)[n] != s[n];
    }
  }

  /** A digit run is the longest token at its start. */
  lemma DigitsAreLongest(s: string)
    requires |s| > 0 && IsDigit(s[0])
    ensures LongestAt(s, DigitLength(s))
  {
    var n := DigitLength(s);
    forall t: Token | WellFormed(t) && n < |Text(t)| <= |s|
      ensures Text(t) != s[..|Text(t)|]
    {
      TextShape(t);
      assert Text(t)[0] != s[0] || Text(t)[n] != s[n];
    }
  }

  /**
   A symbol of `n` characters is the longest token at its start when no
   two-character spelling begins there (for `n == 1`) and, for `n == 0`,
   when no spelling begins there at all.
   */
  lemma SymbolIsLongest(s: string, n: nat)
    requires |s| > 0 && !IsIdentPart(s[0]) && n <= 2 && n <= |s|
    requires n == 1 && |s| >= 2 ==> !SymbolPair(s[0], s[1])
    requires n == 0 ==> !SymbolStart(s[0]) || (s[0] == '!' && !Follows(s, '='))
    ensures LongestAt(s, n)
  {
    forall t: Token | WellFormed(t) && n < |Text(t)| <= |s|
      ensures Text(t) != s[..|Text(t)|]
    {
      TextShape(t);
      assert Text(t)[0] != s[0] || Text(t)[1] != s[1];
    }
  }

  // ---------------------------------------------------------------------
  // Rendering and lexing are inverse

  /** The first character of a token's spelling. */
  lemma TextStart(t: Token)
    requires WellFormed(t)
    ensures |Text(t)| > 0 && !IsWhitespace(Text(t)[0])
    ensures Text(t)[0] == '/' ==> Text(t) == "/"
  {
    match t
    case Kw(k) =>
      match k {
        case Fn => case Let => case If => case Else => case While =>
        case True => case False => case I32 => case I64 => case Bool =>
      }
    case Op(op) =>
      match op {
        case Mul => case Div => case Mod => case Add => case Sub =>
        case Eq => case Ne => case Lt => case Le => case Gt => case Ge =>
      }
    case _ =>
  }

  /** A well-formed token followed by a space is read back as itself. */
  lemma NextTokenOfText(t: Token, s: string)
    requires WellFormed(t)
    ensures |Text(t) + " " + s| > 0
    ensures NextToken(Text(t) + " " + s) == Ok((t, |Text(t)|))
  {
    TextStart(t);
    match t
    case Ident(_) => NextWordOfText(t, s);
    case Kw(_) => NextWordOfText(t, s);
    case Integer(_) => NextIntegerOfText(t, s);
    case _ => NextSymbolOfText(t, s);
  }

  lemma NextWordOfText(t: Token, s: string)
    requires WellFormed(t) && (t.Ident? || t.Kw?)
    ensures NextToken(Text(t) + " " + s) == Ok((t, |Text(t)|))
  {
    var w := Text(t);
    var u := w + (" " + s);
    assert Text(t) + " " + s == u;
    assert u[..|w|] == w;
    if t.Kw? {
      var k := t.keyword;
      assert IsWord(w) && KeywordOf(w) == Some(k) by {
        match k {
          case Fn => case Let => case If => case Else => case While =>
          case True => case False => case I32 => case I64 => case Bool =>
        }
      }
    }
    WordLengthOf(w, " " + s);
  }

  lemma NextIntegerOfText(t: Token, s: string)
    requires WellFormed(t) && t.Integer?
    ensures NextToken(Text(t) + " " + s) == Ok((t, |Text(t)|))
  {
    var w := Text(t);
    var u := w + (" " + s);
    assert Text(t) + " " + s == u;
    assert u[..|w|] == w;
    DigitLengthOf(w, " " + s);
  }

  lemma NextSymbolOfText(t: Token, s: string)
    requires !t.Ident? && !t.Kw? && !t.Integer?
    ensures NextToken(Text(t) + " " + s) == Ok((t, |Text(t)|))
  {
    if t.Op? && t.op in {Add, Mul, Div, Mod} {
      NextSingleOperatorOfText(t, s);
    } else if t.Op? || t == Arrow || t == Assign {
      NextPairedOperatorOfText(t, s);
    } else {
      NextPunctuationOfText(t, s);
    }
  }

  lemma NextPunctuationOfText(t: Token, s: string)
    requires !t.Ident? && !t.Kw? && !t.Integer? && !t.Op? && t != Arrow && t != Assign
    ensures NextToken(Text(t) + " " + s) == Ok((t, |Text(t)|))
  {
    var w := Text(t);
    var u := w + (" " + s);
    assert Text(t) + " " + s == u;
    assert u[..|w|] == w;
    assert u[|w|] == ' ';
  }

  lemma NextSingleOperatorOfText(t: Token, s: string)
    requires t.Op? && t.op in {Add, Mul, Div, Mod}
    ensures NextToken(Text(t) + " " + s) == Ok((t, |Text(t)|))
  {
    var w := Text(t);
    var u := w + (" " + s);
    assert Text(t) + " " + s == u;
    assert u[..|w|] == w;
    assert u[|w|] == ' ';
    match t.op {
      case Mul => case Div => case Mod => case Add =>
    }
  }

  lemma NextPairedOperatorOfText(t: Token, s: string)
    requires (t.Op? && t.op !in {Add, Mul, Div, Mod}) || t == Arrow || t == Assign
    ensures NextToken(Text(t) + " " + s) == Ok((t, |Text(t)|))
  {
    var w := Text(t);
    var u := w + (" " + s);
    assert Text(t) + " " + s == u;
    assert u[..|w|] == w;
    assert u[|w|] == ' ';
    match t
    case Op(op) =>
      match op {
        case Sub => case Eq => case Ne => case Lt => case Le => case Gt => case Ge =>
      }
    case _ =>
  }

  /** Lexing a token's spelling followed by a space yields that token, then the rest. */
  lemma LexText(t: Token, s: string)
    requires WellFormed(t)
    ensures Lex(Text(t) + " " + s) == Cons(t, Lex(s))
  {
    TextStart(t);
    NextTokenOfText(t, s);
    var u := Text(t) + " " + s;
    assert u[0] == Text(t)[0];
    assert u[0] == '/' ==> u[1] == ' ';
    assert u[|Text(t)|..] == [' '] + s;
    LexSkipsWhitespace(' ', s);
  }

  /** Rendering well-formed tokens and lexing the text gives the tokens back. */
  lemma {:induction false} LexRender(ts: seq<Token>)
    requires forall i :: 0 <= i < |ts| ==> WellFormed(ts[i])
    ensures Lex(Render(ts)) == Ok(ts)
  {
    if |ts| > 0 {
      LexRender(ts[1..]);
      LexText(ts[0], Render(ts[1..]));
      assert Render(ts) == Text(ts[0]) + " " + Render(ts[1..]);
      assert [ts[0]] + ts[1..] == ts;
    }
  }

  // ---------------------------------------------------------------------
  // Lexing loses only the extras

  /**
   The text with the `extras` taken out: whitespace, line comments and
   block comments are dropped and every other character is kept. An
   unclosed block comment drops the rest of the text.
   */
  function WithoutExtras(s: string): string
    decreases |s|
  {
    if |s| == 0 then ""
    else if IsWhitespace(s[0]) then WithoutExtras(s[1..])
    else if s[0] == '/' && Follows(s, '/') then WithoutExtras(s[2 + LineLength(s[2..])..])
    else if s[0] == '/' && Follows(s, '*') then
      match CommentLength(s[2..])
      case None => ""
      case Some(n) => WithoutExtras(s[2 + n..])
    else [s[0]] + WithoutExtras(s[1..])
  }

  /** Only `/` itself, among token spellings, holds whitespace or a slash. */
  lemma PlainText(t: Token)
    requires WellFormed(t) && t != Op(Div)
    ensures forall i :: 0 <= i < |Text(t)| ==> !IsWhitespace(Text(t)[i]) && Text(t)[i] != '/'
  {
    TextShape(t);
    if IsIdentStart(Text(t)[0]) || IsDigit(Text(t)[0]) {
      assert forall i :: 0 <= i < |Text(t)| ==> IsIdentPart(Text(t)[i]);
    } else {
      match t
      case Op(op) =>
        match op {
          case Mul => case Div => case Mod => case Add => case Sub =>
          case Eq => case Ne => case Lt => case Le => case Gt => case Ge =>
        }
      case _ =>
    }
  }

  /** Characters that are neither whitespace nor a slash are kept as they are. */
  lemma {:induction false} KeptPrefix(p: string, q: string)
    requires forall i :: 0 <= i < |p| ==> !IsWhitespace(p[i]) && p[i] != '/'
    ensures WithoutExtras(p + q) == p + WithoutExtras(q)
    decreases |p|
  {
    if |p| == 0 {
      assert p + q == q;
    } else {
      var s := p + q;
      assert s[0] == p[0] && s[1..] == p[1..] + q;
      assert WithoutExtras(s) == [p[0]] + WithoutExtras(s[1..]) by {
        assert !IsWhitespace(s[0]) && s[0] != '/';
      }
      KeptPrefix(p[1..], q);
      assert p == [p[0]] + p[1..];
    }
  }

  /** The tokens of a text spell exactly the text without its extras. */
  lemma {:induction false} LexSound(s: string)
    ensures Lex(s).Ok? ==> Spelling(Lex(s).value) == WithoutExtras(s)
    decreases |s|
  {
    if |s| == 0 {
    } else if IsWhitespace(s[0]) {
      LexSound(s[1..]);
    } else if s[0] == '/' && Follows(s, '/') {
      LexSound(s[2 + LineLength(s[2..])..]);
    } else if s[0] == '/' && Follows(s, '*') {
      if CommentLength(s[2..]).Some? {
        LexSound(s[2 + CommentLength(s[2..]).value..]);
      }
    } else if NextToken(s).Ok? {
      var t := NextToken(s).value.0;
      var n := NextToken(s).value.1;
      LexSound(s[n..]);
      if Lex(s[n..]).Ok? {
        var ts := Lex(s[n..]).value;
        assert Lex(s) == Ok([t] + ts);
        assert ([t] + ts)[1..] == ts;
        if t == Op(Div) {
          assert s[..1] == [s[0]];
        } else {
          PlainText(t);
          assert s == s[..n] + s[n..];
          KeptPrefix(s[..n], s[n..]);
        }
      }
    }
  }
}
