# Rue grammar, modelled in Dafny

Rue is a small Rust-like language. Its tree-sitter grammar, `grammar.js`, defines:

- a token layer: identifiers that double as the `word` rule, integer literals, the keywords, and line and block comments as `extras`;
- a concrete syntax tree. A `source_file` is a sequence of `function_item`s. Each item has parameters, a mandatory return type and a `block`. A block holds `let`, assignment and expression statements, then an optional trailing expression. Expressions are `if`/`else`, `while`, calls, primaries, and binary expressions ordered by the `PREC` table.

This project models that grammar as a deterministic lexer and a recursive-descent / precedence-climbing parser. It proves the parser produces exactly the trees the grammar's precedence and associativity annotations select. The proofs run in both directions: every well-nested tree is read back from its tokens, and every tree the parser returns is spelled by the tokens it consumed.

Modules, one per file:

- `Results`: `Option` and `Result`, used for every error path.
- `Precedence`: the `PREC` constants, the eleven binary operators and the three rows of the `binary_expression` table.
- `Tokens`: character classes, the reserved words, the token type, each token's spelling, and `Render` (token list to text).
- `Lexer`: `Lex` skips whitespace, `//` comments and non-nesting block comments. It reads words through the keyword filter and recognises punctuation and operators by maximal munch. Each token is the longest one that fits, and the tokens of a lexed text spell that text with its whitespace and comments taken out.
- `Syntax`: the tree, with the grammar's field names. `Expr`, `Statement`, `Type` and `ElseClause` have one variant per alternative of their rule. `if_expression`, `block`, `parameter`, `function_item` and `source_file` are datatypes of their own. Lists (`parameters`, `arguments`) are sequences. `primitive_type`, `unit_type`, the literals and the statements are variants, not separate datatypes. It also defines `WellNested`, the shape a tree has when operators nest as `prec.left` dictates.
- `Parser`: functions over token suffixes, each returning the node and the remaining tokens or a `SyntaxError`. Most rules have a function of their own. `ParsePrimary` reads `_primary_expression`, `call_expression`, `parenthesized_expression`, `unit_literal` and `boolean_literal` together, since one token of lookahead decides between them. `ParseType` covers `_type`, `primitive_type` and `unit_type`, and `ParseBlockBody` covers `_statement` and `expression_statement`. The `commaSep` lists have a loop function each (`ParseArgumentList`, `ParseParameterList`).
- `Printer`: the inverse direction, from a tree to its tokens.
- `RoundTrip`: parsing the printed tokens of a well-nested tree gives that tree back, from expressions up to whole files.
- `Soundness`: the converse. Whatever the parser accepts is spelled by the tree it returns, followed by the tokens it leaves. Token sequences are compared with every `()` token written as `(` then `)`.
- `Rue`: `Parse` runs the lexer and then the parser. A file it returns prints as the input text with whitespace and comments taken out. Rendering a file's tokens as text and parsing that text gives the same file back.
- `Properties`: the grammar's promises as lemmas:
  - precedence;
  - left associativity;
  - calls binding tightest;
  - `else if` chains nesting;
  - `commaSep` lists, with no empty element and no trailing comma;
  - block shape;
  - mandatory type annotations, `->` and closing parentheses;
  - characters that begin no token;
  - files holding only function items.

Three facts about `grammar.js` that a reader of other Rue material might not expect, all followed here:

- It has no rule for structs, tuples, arrays or named types. `_type` is only `i32`, `i64`, `bool` and `()`.
- `function_item`, `let_statement` and `parameter` have no `optional` around their types. The return type after `->` is mandatory, and so are the types of `let` and of parameters.
- `struct` appears nowhere in it, so it is not a keyword.

## Model

| member | source | states |
|---|---|---|
| Precedence.Prec | grammar.js:10-15 | `* / %` have multiplicative precedence, `+ -` additive and the six comparisons comparative; each is an if-and-only-if, read off the table rows |
| Precedence.LevelIn | grammar.js:128-133 | a level is found exactly when some row of the table lists the operator, and it is the level of a row that lists it |
| Precedence.EachOperatorHasOneRow | grammar.js:128-133 | every operator appears in some row of the table, and every row that lists it has the operator's precedence |
| Precedence.RowsAreDisjointAndOrdered | grammar.js:10-15 | no operator is in two rows; the rows bind strictly more loosely from first to last, all below `function_calls` (4 > 3 > 2 > 1) |
| Tokens.KeywordOf | grammar.js:28 | a word is reserved exactly when some keyword is spelled that way, and the returned keyword is spelled as the word |
| Lexer.WordLength | grammar.js:167 | the length of the longest prefix made of `[a-zA-Z0-9_]` characters: every character before it qualifies and the next one does not |
| Lexer.DigitLength | grammar.js:169 | the length of the longest run of decimal digits at the start of the text |
| Lexer.LineLength | grammar.js:175 | a line comment's body runs up to, not including, the first line feed |
| Lexer.CommentLength | grammar.js:177-181 | a block comment ends at the first `*/`; none means no `*/` occurs anywhere after the opening |
| Lexer.WordToken | grammar.js:28 | a word is an identifier exactly when it is not a keyword; the token is spelled as the word |
| Lexer.NextToken | grammar.js:165-173 | the token read at the front of the text is well formed, spelled exactly by the characters consumed, and at least one character long; no longer well-formed token is a prefix of the text (maximal munch); on an error the first character is reported and no token at all is a prefix |
| Lexer.SymbolToken | grammar.js:35-163 | the punctuation and operator tokens consume exactly their own spelling, and no longer token is a prefix of the text; when the first character is not a letter or digit and nothing is read, no token is a prefix |
| Lexer.PunctuationToken | grammar.js:44-74 | brackets and separators consume their spelling, and no longer token is a prefix, so `(` directly followed by `)` is the single `()` token |
| Lexer.OperatorToken | grammar.js:130-132 | `->`, `=`, and the operator spellings are read with no longer token a prefix of the text, so the two-character ones win over their one-character prefixes; a character that starts none is reported, with no token a prefix |
| Lexer.PairedOperatorToken | grammar.js:39-132 | for `-`, `=`, `!`, `<` and `>`, the two-character spelling (`->`, `==`, `!=`, `<=`, `>=`) is taken when its second character follows, else the one-character token; a lone `!` is an error with no token a prefix |
| Lexer.TextShape | grammar.js:165-171 | every token spelling is non-empty: one starting with a letter is a word, one starting with a digit is all digits, any other is one or two symbol characters, a two-character one is one of the six pairs, and `!` only begins `!=` |
| Lexer.WordIsLongest | grammar.js:167 | no token longer than the word at the front of the text is a prefix of it |
| Lexer.DigitsAreLongest | grammar.js:169 | no token longer than the digit run at the front of the text is a prefix of it |
| Lexer.SymbolIsLongest | grammar.js:35-163 | at a character that is not a letter or digit, no token longer than two characters is a prefix; none longer than one when no two-character pair starts the text; none at all when the character starts no symbol or is a `!` without `=` |
| Lexer.Lex | grammar.js:22-28 | every token produced is well formed: identifiers are non-reserved words, integer literals are digit strings |
| Lexer.WordLengthOf | grammar.js:167 | a run of identifier characters followed by a non-identifier character is read as one word of exactly that length |
| Lexer.DigitLengthOf | grammar.js:169 | a run of digits followed by a non-digit is one integer literal of exactly that length |
| Lexer.LineLengthOf | grammar.js:175 | a line comment body without a line feed ends exactly at the next line feed |
| Lexer.CommentLengthOf | grammar.js:177-181 | a block comment whose body contains no `*/` ends at the `*/` that follows it |
| Lexer.LexSkipsWhitespace | grammar.js:22-23 | a whitespace character before the text changes nothing |
| Lexer.LexSkipsLineComment | grammar.js:175 | a line comment is skipped up to the end of its line, and a comment on the last line yields no tokens |
| Lexer.LexSkipsBlockComment | grammar.js:177-181 | a block comment whose body holds no `*/` is skipped entirely |
| Lexer.UnterminatedCommentIsAnError | grammar.js:177-181 | a block comment that is never closed is a lexical error |
| Lexer.BlockCommentsDoNotNest | grammar.js:177-181 | in `/* /* */ */` the comment ends at the first `*/`, leaving the tokens `*` and `/` |
| Lexer.LexWord | grammar.js:28 | any word is read as the single token the keyword filter gives it |
| Lexer.LexWordThen | grammar.js:28 | a word followed by a character that cannot continue it is one token, and lexing goes on right after it |
| Lexer.LexJoinedHeader | grammar.js:35-38 | `fn name()` with no space before the parentheses lexes to `fn`, the identifier and the single joined `()` token, followed by the rest |
| Lexer.IfIsAKeyword | grammar.js:112 | `if` is read as the keyword |
| Lexer.IffyIsAnIdentifier | grammar.js:167 | `iffy` is one identifier, not the keyword `if` followed by `fy` |
| Lexer.NextTokenOfText | grammar.js:167-173 | a well-formed token's spelling followed by a space is read back as that token, consuming exactly its spelling |
| Lexer.LexText | grammar.js:22-28 | lexing a token's spelling, a space, and more text gives that token followed by the tokens of the rest |
| Lexer.LexRender | grammar.js:165-181 | rendering well-formed tokens as text, one space after each, and lexing the result gives back the same tokens |
| Lexer.LexSound | grammar.js:22-26 | the tokens of any lexed text, spelled one after another, are exactly the text with its whitespace and comments removed; only the extras are dropped |
| Lexer.StrayCharacterIsAnError | grammar.js:165-181 | a non-whitespace character that begins no token, such as `@` or a `!` without `=`, is a lexical error naming it, never skipped |
| Syntax.WellNested | grammar.js:128-142 | defines the nesting `prec.left` selects: a left operand binds at least as tightly as its operator, a right operand strictly more tightly, and every sub-expression obeys the same rule |
| Syntax.OperandLevels | grammar.js:128-142 | a binary expression is well nested exactly when its operands are and a binary left operand's operator is of the same level or higher, a binary right operand's strictly higher |
| Parser.ParseType | grammar.js:58-65 | a type is accepted exactly when the next token is `i32`, `i64`, `bool` or `()`; it consumes that one token, and the type is the unit type exactly for `()` and otherwise the primitive type of that keyword |
| Parser.ParseExpr | grammar.js:103-142 | a parsed expression consumes input, is well nested, binds at least as tightly as asked, and leaves no operator behind that could still extend it at that level |
| Parser.ParseOperators | grammar.js:128-142 | extending a left operand with operators of at least the asked level keeps the tree well nested, so operands of equal level associate to the left |
| Parser.ParsePrimary | grammar.js:144-163 | a primary, call, `if` or `while` is a well-nested non-binary expression |
| Parser.ParseIf | grammar.js:111-116 | an `if` without an `else` is never followed by `else`; a following `else` is always taken by the nearest `if` |
| Parser.ParseElse | grammar.js:118-120 | an else clause starts with `else` and holds a well-nested block or nested `if` |
| Parser.ParseWhile | grammar.js:122-126 | a `while` is a well-nested while expression |
| Parser.ParseArguments | grammar.js:149-153 | reading `arguments` consumes input and yields well-nested arguments |
| Parser.ParseArgumentList | grammar.js:149-153 | each parsed argument list extends the arguments already read by at least one element, all well nested |
| Parser.ParseBlock | grammar.js:69-74 | reading a `block` consumes input and yields a well-nested block |
| Parser.ParseBlockBody | grammar.js:69-74 | a block body parses to a well-nested block |
| Parser.ParseLet | grammar.js:82-90 | a `let` statement parses to a well-nested `let` node |
| Parser.ParseAssignment | grammar.js:92-97 | an assignment parses to a well-nested assignment node |
| Parser.ParseParameter | grammar.js:50-54 | a parameter is accepted exactly when an identifier and `:` are followed by a type; its name is the identifier, its type is what the type rule parses there, and it consumes exactly three tokens |
| Parser.ParseParameters | grammar.js:44-48 | reading `parameters` consumes input |
| Parser.ParseParameterList | grammar.js:44-48 | each parsed parameter list extends the parameters already read by at least one element |
| Parser.ParseFunctionItem | grammar.js:35-42 | a function item parses to a well-nested item |
| Parser.ParseItems | grammar.js:31 | every item of a parsed file is well nested |
| Parser.ParseSourceFile | grammar.js:31 | an empty token list is the empty file, and every parsed file is well nested |
| RoundTrip.ExprRoundTrip | grammar.js:103-163 | the tokens of any well-nested expression, followed by a token that cannot continue it, parse back to that expression |
| RoundTrip.ExprThenOperators | grammar.js:128-142 | a well-nested binary tree is rebuilt from its tokens by climbing, for every precedence it satisfies |
| RoundTrip.PrimaryRoundTrip | grammar.js:144-163 | every non-binary expression parses back as a primary |
| RoundTrip.WhileRoundTrip | grammar.js:122-126 | a `while` expression parses back to itself |
| RoundTrip.ParenthesizedRoundTrip | grammar.js:163 | a parenthesized expression parses back to itself |
| RoundTrip.ArgumentsRoundTrip | grammar.js:149-153 | the arguments of a call, including none, parse back to the same list |
| RoundTrip.ArgumentListRoundTrip | grammar.js:151 | the remaining arguments of a call, comma separated and closed by `)`, are appended to those already read |
| RoundTrip.IfRoundTrip | grammar.js:111-116 | an `if` with its whole `else` chain parses back to itself |
| RoundTrip.ElseRoundTrip | grammar.js:118-120 | an else clause, block or nested `if`, parses back to itself |
| RoundTrip.BlockRoundTrip | grammar.js:69-74 | a block's statements and optional tail expression parse back to the same block |
| RoundTrip.BodyRoundTrip | grammar.js:71-73 | the statements of a block from any position on, then its tail and `}`, are read back in order |
| RoundTrip.TailRoundTrip | grammar.js:72-73 | a block's optional trailing expression and `}` are read back |
| RoundTrip.StatementStep | grammar.js:76-99 | a statement's tokens are read as that statement and the block goes on after it |
| RoundTrip.NotAnAssignment | grammar.js:92-99 | an expression statement never starts like a `let`, an assignment or the end of a block |
| RoundTrip.LetRoundTrip | grammar.js:82-90 | a `let` statement parses back to itself |
| RoundTrip.AssignmentRoundTrip | grammar.js:92-97 | an assignment parses back to itself |
| RoundTrip.TypeRoundTrip | grammar.js:58-65 | a type parses back to itself |
| RoundTrip.ParameterRoundTrip | grammar.js:50-54 | a parameter parses back to itself |
| RoundTrip.ParametersRoundTrip | grammar.js:44-48 | a parameter list, including the empty one, parses back to itself |
| RoundTrip.ParameterListRoundTrip | grammar.js:46 | the remaining parameters, comma separated and closed by `)`, are appended to those already read |
| RoundTrip.FunctionItemRoundTrip | grammar.js:35-42 | a function item parses back to itself |
| RoundTrip.ItemsRoundTrip | grammar.js:31 | the items of a file from any position on are read back in order |
| RoundTrip.SourceFileRoundTrip | grammar.js:31 | parsing the tokens of any well-nested file gives that file back |
| Soundness.SpellingOfUnjoin | grammar.js:173 | writing the `()` token as `(` then `)` leaves the spelling unchanged |
| Soundness.ExprSound | grammar.js:103-163 | an accepted expression is spelled by the tree returned, followed by the tokens left |
| Soundness.OperatorsSound | grammar.js:128-142 | climbing appends each operator and its right operand to the left operand's tokens: the left operand's tokens then the input are the result's tokens then those left |
| Soundness.PrimarySound | grammar.js:144-163 | an accepted primary, call, `if` or `while` is spelled by the tree returned |
| Soundness.LiteralSound | grammar.js:155-173 | a literal or `()` primary is spelled by the tree returned; any other token that is not `(`, a name, `if` or `while` begins no primary |
| Soundness.UnitLiteralSound | grammar.js:173 | the `()` token is the unit literal and is spelled by its printed form `(` `)` |
| Soundness.BooleanSound | grammar.js:171 | `true` and `false` are boolean literals, spelled by their keyword |
| Soundness.IntegerSound | grammar.js:169 | an integer token is the integer literal with the same digits, spelled by that token |
| Soundness.ParenSound | grammar.js:163-173 | an accepted `(` expression `)` or `(` `)` is spelled by the tree returned |
| Soundness.NameSound | grammar.js:144-156 | an accepted identifier or call is spelled by the tree returned |
| Soundness.ArgumentsSound | grammar.js:149-153 | accepted `arguments` are spelled `(`, the arguments comma separated, `)` |
| Soundness.ArgumentListSound | grammar.js:151 | the arguments read after those already held are spelled comma separated up to and including `)`, and there is at least one |
| Soundness.IfSound | grammar.js:111-116 | an accepted `if` is spelled by the tree returned, with its `else` chain |
| Soundness.ElseSound | grammar.js:118-120 | an accepted else clause is spelled by the clause returned |
| Soundness.WhileSound | grammar.js:122-126 | an accepted `while` is spelled by the tree returned |
| Soundness.BlockSound | grammar.js:69-74 | an accepted block is spelled by the block returned |
| Soundness.BlockBodySound | grammar.js:71-99 | the statements already held are kept in order, and the statements read after them, the tail and `}` are spelled by the input |
| Soundness.LetSound | grammar.js:82-90 | an accepted `let` is spelled by the statement returned |
| Soundness.AssignmentSound | grammar.js:92-97 | an accepted assignment is spelled by the statement returned |
| Soundness.TypeSound | grammar.js:58-65 | an accepted type is the one token it was read from |
| Soundness.ParameterSound | grammar.js:50-54 | an accepted parameter is exactly the tokens it was read from |
| Soundness.ParametersSound | grammar.js:44-48 | accepted `parameters` are spelled `(`, the parameters comma separated, `)` |
| Soundness.ParameterListSound | grammar.js:46 | the parameters read after those already held are spelled comma separated up to and including `)` |
| Soundness.FunctionItemSound | grammar.js:35-42 | an accepted function item is spelled by the item returned |
| Soundness.ItemsSound | grammar.js:31 | the items already held are kept in order, and all remaining tokens spell the items read after them |
| Soundness.SourceFileSound | grammar.js:31 | an accepted token sequence is the printed file returned, up to how `()` is split |
| Soundness.AcceptedFilesReprint | grammar.js:31 | an accepted file prints as the tokens it was read from and parses back from its print to itself |
| Rue.Parse | grammar.js:19-31 | a parsed file is well nested, is what the parser makes of the lexer's tokens, and prints as the input text with whitespace and comments taken out; a lexical error is reported as such, and a file the parser rejects is a syntax error |
| Rue.ParseRendered | grammar.js:19-183 | rendering a well-nested file's tokens as text and parsing that text gives the same file back |
| Rue.CommentOnlyFile | grammar.js:22-31 | a file holding only a line comment is an empty source file |
| Rue.ParameterlessFunctionText | grammar.js:31-48 | the text of any well-nested function without parameters, written the usual way as `fn name() -> ...` with no space in `name()`, parses to that function |
| Properties.ExpressionsAreUnambiguous | grammar.js:128-142 | two well-nested expressions with the same tokens are the same tree: the precedence and associativity annotations resolve every ambiguity of the binary rule |
| Properties.SourceFilesAreUnambiguous | grammar.js:31-163 | two well-nested files with the same tokens are the same file |
| Properties.TighterOperatorGroupsFirst | grammar.js:128-142 | in `a o1 b o2 c` with `o2` of higher precedence, `b o2 c` groups first |
| Properties.LeftPairGroupsFirst | grammar.js:136 | in `a o1 b o2 c` with `o1` of equal or higher precedence, `a o1 b` groups first: left associativity |
| Properties.ArithmeticExamples | grammar.js:128-142 | `a + b * c` is `a + (b * c)`, and `a - b - c` is `(a - b) - c` |
| Properties.CallBindsBeforeOperator | grammar.js:144-147 | `f(x) o y` is `(f(x)) o y` for every operator |
| Properties.CallBindsAfterOperator | grammar.js:144-147 | `y o f(x)` takes the whole call as the right operand |
| Properties.ParenthesesOverride | grammar.js:163 | `(a + b) * c` multiplies the parenthesized sum |
| Properties.ParenthesisMustClose | grammar.js:163 | after `(` and an expression, any token but `)` that cannot continue the expression is an error: `(a,)` and `(a b)` are rejected |
| Properties.ElseIfChainsNest | grammar.js:111-120 | `if a {} else if b {} else {}` nests the second `if` in the first one's else clause, and the final `else` belongs to the nearest `if` |
| Properties.EmptyArgumentList | grammar.js:149-153 | `f()` and `f( )` are both calls with no arguments |
| Properties.EmptyArgumentsJoined | grammar.js:149-153 | before any remaining tokens, the joined `()` token and the pair `(` `)` are both an empty argument list, and nothing more is consumed |
| Properties.EmptyCallJoined | grammar.js:144-153 | a name followed by `()`, joined or split, is a call with no arguments, whatever follows |
| Properties.ArgumentListNeedsAnElement | grammar.js:17 | once an element is required (after `(` not followed by `)`, or after `,`), `)` and `,` are rejected: every element is present |
| Properties.TrailingCommaIsAnError | grammar.js:17 | `f(x,)` is rejected |
| Properties.DoubledCommaIsAnError | grammar.js:17 | `f(x,,y)` is rejected |
| Properties.LeadingCommaIsAnError | grammar.js:17 | `f(,x)` is rejected |
| Properties.StatementThenTail | grammar.js:69-74 | `{ a; b }` is one expression statement and the trailing expression `b` |
| Properties.MissingSemicolonIsAnError | grammar.js:69-99 | `{ a b }` is rejected: only the last expression may omit `;` |
| Properties.IfStatementNeedsSemicolon | grammar.js:69-99 | `{ if a {} if b {} }` is rejected, since an `if` used as a statement needs `;` |
| Properties.LetTypeIsMandatory | grammar.js:82-90 | `let x` followed by anything but `:` is rejected, alone and inside a block: `let x = 1;` is an error |
| Properties.ParameterListNeedsAParameter | grammar.js:50-54 | where a parameter is expected, anything but an identifier is rejected |
| Properties.ParameterTypeIsMandatory | grammar.js:50-54 | a parameter name followed by anything but `:` is rejected, first in the list or after others |
| Properties.TrailingParameterCommaIsAnError | grammar.js:44-48 | `(x: i32,)` is rejected |
| Properties.SingleParameter | grammar.js:44-54 | `(x: i32)` is the one parameter `x` of type `i32` |
| Properties.EmptyParametersJoined | grammar.js:44-48 | before any remaining tokens, the joined `()` token and the pair `(` `)` are both an empty parameter list, and nothing more is consumed |
| Properties.ParameterlessFunctionJoined | grammar.js:35-48 | every well-nested function without parameters, its header written with the joined `()`, reads back as itself before any remaining tokens |
| Properties.ParameterlessFileJoined | grammar.js:31-48 | a file holding one such function, written with the joined `()`, reads back as that file |
| Properties.ReturnTypeIsMandatory | grammar.js:35-42 | after any parameter list, written with `(` `)` or as `()`, anything but `->` is rejected: `fn f() {}` is an error |
| Properties.SplitParensAreNotAType | grammar.js:65 | `(` `)` as two tokens is not the unit type; only the joined `()` is |
| Properties.OnlyFunctionItems | grammar.js:31 | a file whose first token is not `fn` is rejected |

## Left out

- The Swift and Go bindings are not part of this model. They only load the generated parser.
- The tree-sitter runtime is left out: GLR parsing, error recovery with `ERROR` and `MISSING` nodes, and incremental reparsing. A syntax error here is a `SyntaxError` naming the expected token and the token found.
- Byte spans, positions, and the `line_comment` and `block_comment` nodes that tree-sitter keeps in the tree are left out. The lexer discards comments.
- `\s` is modelled as its ASCII members (space, tab, line feed, carriage return, vertical tab, form feed). Unicode spaces are left out.
- Contextual keywords are left out. The tree-sitter runtime can accept a keyword as an identifier where no keyword is valid. This model reserves every keyword everywhere.
- Tree-sitter lexes by parse state, so `()` is one token only where `unit_type` is expected. Here the lexer always emits `()` for an adjacent pair. The parser accepts it wherever `(` `)` may stand: an empty argument list (Properties.EmptyArgumentsJoined), an empty parameter list (Properties.EmptyParametersJoined), the unit literal (Soundness.UnitLiteralSound). Only the joined token is a type. The whole-file round trips (RoundTrip.SourceFileRoundTrip, Rue.ParseRendered) read back the print that spells empty lists and the unit literal as `(` `)`. For the joined spelling, the model proves acceptance at each of those places and a whole-text round trip for functions without parameters (Rue.ParameterlessFunctionText), but no round trip over a whole file with every adjacent `(` `)` joined.
- Concrete syntax is at token level. The round trip renders every token followed by one space, rather than reproducing the original layout.
- Field names are adapted to Dafny identifiers: `function` becomes `callee`, `type` becomes `ty`, `return_type` becomes `returnType`, and `else_clause` is split into `ElseBlock` and `ElseIf`.
- Semantic analysis is not modelled: types, names, and integer overflow of literals.
- Lexer.Lex: its own contract states only that the tokens are well formed. That they spell the text without its extras is Lexer.LexSound, and that rendered tokens are read back is Lexer.LexRender.
- Parser.ParseParameters: states only that input is consumed. That the list returned is spelled by the tokens read is Soundness.ParametersSound. That every list is read back is RoundTrip.ParametersRoundTrip, and that the joined `()` is the empty list is Properties.EmptyParametersJoined.
- Parser.ParseArguments: states that input is consumed and the arguments are well nested. The tie to the tokens is Soundness.ArgumentsSound and RoundTrip.ArgumentsRoundTrip, and that the joined `()` is the empty list is Properties.EmptyArgumentsJoined.
- Parser.ParseBlock: states well-nestedness and progress only. The tie to the tokens is Soundness.BlockSound and RoundTrip.BlockRoundTrip.
- Parser.ParseExpr: its own contract does not tie the tree to the tokens. Soundness.ExprSound states that the tokens spell the tree, and RoundTrip.ExprRoundTrip states the converse.
- Parser.ParseOperators: its own contract does not tie the tree to the tokens. That is Soundness.OperatorsSound and RoundTrip.ExprThenOperators.
- Parser.ParsePrimary: its own contract does not tie the tree to the tokens. That is Soundness.PrimarySound and RoundTrip.PrimaryRoundTrip.
- Parser.ParseIf: its own contract does not tie the tree to the tokens. That is Soundness.IfSound and RoundTrip.IfRoundTrip.
- Parser.ParseElse: its own contract does not tie the clause to the tokens. That is Soundness.ElseSound and RoundTrip.ElseRoundTrip.
- Parser.ParseWhile: its own contract does not tie the tree to the tokens. That is Soundness.WhileSound and RoundTrip.WhileRoundTrip.
- Parser.ParseArgumentList: its own contract does not tie the arguments to the tokens. That is Soundness.ArgumentListSound and RoundTrip.ArgumentListRoundTrip.
- Parser.ParseBlockBody: its own contract does not tie the block to the tokens. That is Soundness.BlockBodySound and RoundTrip.BodyRoundTrip.
- Parser.ParseLet: its own contract does not tie the statement to the tokens. That is Soundness.LetSound and RoundTrip.LetRoundTrip. The mandatory `:` is Properties.LetTypeIsMandatory.
- Parser.ParseAssignment: its own contract does not tie the statement to the tokens. That is Soundness.AssignmentSound and RoundTrip.AssignmentRoundTrip.
- Parser.ParseParameterList: its own contract does not tie the parameters to the tokens. That is Soundness.ParameterListSound and RoundTrip.ParameterListRoundTrip.
- Parser.ParseFunctionItem: its own contract does not tie the item to the tokens. That is Soundness.FunctionItemSound and RoundTrip.FunctionItemRoundTrip.
- Parser.ParseItems: its own contract does not tie the file to the tokens. That is Soundness.ItemsSound and RoundTrip.ItemsRoundTrip.
- Parser.ParseSourceFile: its own contract does not tie the file to the tokens. That is Soundness.SourceFileSound, Soundness.AcceptedFilesReprint and RoundTrip.SourceFileRoundTrip.
- Soundness compares token sequences with every `()` token written as `(` then `)`. The lexer joins an adjacent pair into one token and the printer writes two, so exact equality does not hold. Spelled as text, the two forms agree (Soundness.SpellingOfUnjoin).
