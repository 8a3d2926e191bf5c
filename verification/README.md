# C-- lexer and recursive-descent recogniser, modelled in Dafny

This project models the front end of the C-- toy compiler. It has two parts.

The first part is the hand-written lexer. It walks a NUL-terminated buffer with a
`(start, current, line)` cursor. Each `scan_token` call skips blanks and `//`
comments, then classifies one token. The token may be an integer (a maximal digit
run) or an identifier or keyword (a maximal word run, re-tagged when it is exactly
`if`, `int`, `else`, `print` or `while`). It may be one- or two-character
punctuation (`!` `=` `>` `<` take a following `=`), EOF at the terminator, or an
ERROR token for anything else.

The second part is the recursive-descent recogniser. It pulls tokens from that
lexer and answers only whether the source is a valid program. It builds no tree.

The files follow the program's structure:

- `tokens.dfy` (`Tokens`): the token kinds, the `Token` record, and where a
  token's characters live. A source token is a view into the buffer; an ERROR
  token points at its message instead.
- `lexspec.dfy` (`LexSpec`): what one `scan_token` call does, written as
  functions over the buffer (`SkipWs`, `Classify`, `Scan`). It also holds the
  properties of the lexer as lemmas. The buffer is a `string`; reading at or past
  its end yields NUL, as the C code reads its terminator.
- `lexer.dfy` (`Lexing`): the lexer as written. A class `Lexer` holds the cursor.
  Its methods update the cursor in place, and each is proved against `LexSpec`.
- `grammar.dfy` (`Grammar`): the grammar the recogniser accepts, as deterministic
  functions over parse positions. A position is a lookahead token plus the lexer
  cursor behind it. Each rule answers the position after what it recognised, or
  `None`.
- `recovery.dfy` (`Recovery`): what each grammar procedure does on every
  input, errors included, as functions over parse positions. A run either halts
  at a position, recording whether it reported an error, or never returns
  (`Run`). `Outcome` is the loop of `parse` over such runs. On the error-free
  path every run halts where the `Grammar` function says (the `...Agrees`
  lemmas).
- `diagnostics.dfy` (`Diagnostics`): the text `errorAt` writes, as a value.
- `parser.dfy` (`RDParser`): the recogniser as written. The C globals `parser`
  and `lexer` become a `Parser` object that owns a `Lexer`. Every grammar
  procedure is a method proved to end as its `Recovery` function says, and so,
  from an error-free start, to follow its `Grammar` function.
- `programs.dfy` (`Programs`): whole-program verdicts on small sources that show
  how the raw-character peek of `assignment` decides, and how `parse` ends on
  sources with an error.
- `sample.dfy` (`MainSample`): the program hard-coded in `main.c`, lexed token by
  token and accepted.

Each grammar method returns `completes`, and is proved to end as its `Recovery`
function says (`RDParser.Parser.Ends`). When the function halts at a position,
the method completes there, and its error flag is set exactly when it was set
before or the run reported an error. When the function is `Diverge`, the method
does not complete and an error has been reported. The only source of `Diverge`
is `Recovery.Primary` on a token that is neither an integer, an identifier nor
`(`. There the C `primary` reports the error without consuming anything, then
calls `expression`, which descends back to `primary` in the same state, without
end. `Parse` answers `Recovery.Outcome` of the first position. It is
`NeverReturns` when some declaration diverges before an error stops the loop,
and `Returned(false)` when a declaration halts having reported an error. So `;`
never returns (`Programs.StraySemicolonNeverReturns`), while `int ;` reports the
missing name and returns false (`Programs.UnnamedVariableReturnsInvalid`).

Behaviour kept exactly as the code has it:

- Assignment is detected by peeking at the raw character right after the
  identifier's lexeme (`Grammar.Assignment`). So `x=5;` and `x == 5;` are
  accepted, while `x = 5;` and `x==5;` are rejected (the `Programs` lemmas).
- `advance` silently drops ERROR tokens, so an ERROR token is never reported.
  An unrecognised character can still change the verdict: right after an
  identifier it hides a following `=` from the peek, so `x@=5;` is rejected
  (`Programs.MaskedAssignmentRejected`).
- The newline that ends a `//` comment is consumed without incrementing the
  line counter. A token's line number is therefore one too small for each
  comment line before it (`LexSpec.CommentNewlineNotCounted`). In the `main.c`
  sample, `int` on the text's third line carries line 1, and `if` on the fourth
  carries line 2 (`MainSample.SampleStart`).
- `error_token` has no `return` statement, so its result is undefined in C.
  The model returns what it evidently means to: an ERROR token with the message
  "unexpected character", its length found by `get_size`.

## Model

| member | source | states |
|---|---|---|
| Lexing.Lexer.constructor | Lexer/lexer.c:6-10 | `lexer_init` puts the token start and the read position on the first character, on line 1 |
| LexSpec.IsAlphabet | Lexer/lexer.c:12-14 | `is_alphabet`: a letter or `_` is never the terminator nor a blank |
| LexSpec.IsDigit | Lexer/lexer.c:16-18 | `is_digit`: a digit is never a letter, the terminator nor a blank |
| LexSpec.IsEnd | Lexer/lexer.c:20-22 | `is_end` holds exactly for the character of code 0, which is no letter, digit or blank |
| Lexing.Lexer.Advance | Lexer/lexer.c:24-28 | answers the character under the cursor and moves past it; at the terminator it answers NUL and does not move |
| Lexing.Lexer.Peek | Lexer/lexer.c:30-32 | `peek` is the character under the read position, NUL past the buffer |
| Lexing.Lexer.NextPeek | Lexer/lexer.c:34-37 | `next_peek` is NUL when the read position is on the terminator, and otherwise the character after the read position (NUL past the buffer) |
| Lexing.Lexer.CreateToken | Lexer/lexer.c:59-66 | `create_token` gives the token of the kind on the current line over exactly `[start, current)`, the token `Made` describes in the specification of `scan_token` |
| LexSpec.SkipComment | Lexer/lexer.c:46-50 | the comment loop stops just after the first newline or at NUL, never reads past NUL, and meets no newline before its end |
| LexSpec.SkipWs | Lexer/lexer.c:40-55 | skipping stops at NUL or at a character that is neither blank nor the start of `//`; it never passes NUL and never decreases the line |
| Lexing.Lexer.SkipWhiteSpace | Lexer/lexer.c:40-55 | the in-place loop, including the inner comment loop, leaves `(current, line)` equal to `SkipWs` of the old cursor |
| LexSpec.SkipWsSkipsOnlyBlanksAndComments | Lexer/lexer.c:40-55 | every character between the start and the stop of skipping is a space, tab or newline, or lies inside a `//` comment entered at or after the start (`InComment`): skipping stops at the first character that is neither |
| LexSpec.SkipWsCountsLinesOutsideComments | Lexer/lexer.c:40-55 | the line counter grows by exactly the number of newlines skipped outside comments; the newline that ends a comment is not counted |
| LexSpec.SkipWsStopsOutsideComments | Lexer/lexer.c:40-55 | skipping never stops inside a `//` comment it entered: a comment is read through its newline, or the stop is the terminator |
| LexSpec.SkipWsCountsLines | Lexer/lexer.c:40-55 | the line counter grows by at most the number of newlines skipped, and by exactly that number when no comment was skipped |
| LexSpec.CommentNewlineNotCounted | Lexer/lexer.c:43-50 | on `//c` + newline + `x` the counter stays at 1 although a newline was skipped |
| LexSpec.DigitRunEnd | Lexer/lexer.c:69-70 | the end of the digit run: every character before it is a digit and the one at it is not |
| Lexing.Lexer.TokenNumber | Lexer/lexer.c:69-77 | `token_number` moves `current` to the end of the maximal digit run and returns an INTEGER token spanning `[start, current)` |
| Lexing.Compare | Lexer/lexer.c:79-83 | `compare` is true iff both sizes agree and the two prefixes are equal |
| Lexing.GetSize | Lexer/lexer.c:85-89 | `get_size` is the offset of the first NUL: no NUL before it, NUL at it |
| Lexing.CheckKeyword | Lexer/lexer.c:91-98 | the token is re-tagged with the keyword's kind iff its lexeme is exactly one of the five reserved words, and is otherwise unchanged |
| LexSpec.WordRunEnd | Lexer/lexer.c:101-102 | the end of the word run: letters, digits and `_` before it, none at it |
| Lexing.Lexer.TokenIdentifierKeyword | Lexer/lexer.c:101-110 | moves `current` to the end of the maximal word run and returns the token classified by `KeywordKind` of its lexeme |
| Lexing.Lexer.ErrorToken | Lexer/lexer.c:112-118 | an ERROR token on the current line that points at the message, with the message's length up to its terminator |
| LexSpec.Classify | Lexer/lexer.c:122-169 | the token starting at `i`: it starts at `i` on the given line; it is EOF iff the character is NUL, with length 0 and no move; any other token consumes at least one character and never passes NUL |
| LexSpec.Scan | Lexer/lexer.c:120-169 | one call of `scan_token`: the token starts where `SkipWs` stops, carries the line `SkipWs` reaches, and spans exactly the characters consumed |
| Lexing.Lexer.ScanToken | Lexer/lexer.c:120-169 | the in-place `scan_token` returns the token, and leaves the cursor, that `Scan` gives for the old cursor |
| Lexing.Lexer.PunctuationToken | Lexer/lexer.c:127-169 | the `switch` over a character that is neither a digit nor a letter gives `Punctuation`'s token and cursor |
| Lexing.Lexer.OneOrTwo | Lexer/lexer.c:140-167 | after `!`, `=`, `>` or `<`: a following `=` is consumed into the double kind, otherwise the single kind is emitted with no further move |
| LexSpec.EofRepeats | Lexer/lexer.c:120-138 | at end of input the token is EOF of length 0, and scanning again from the cursor it leaves gives the same EOF again |
| LexSpec.IntegerIsMaximalDigitRun | Lexer/lexer.c:69-77 | a token is INTEGER iff its first character is a digit; its lexeme is all digits, non-empty, and not followed by a digit |
| LexSpec.WordIsMaximalAndClassified | Lexer/lexer.c:91-110 | the token is an identifier or a keyword iff the first character after blanks and comments is a letter or `_`; such a word is a maximal run of word characters, an IDENTIFIER iff it is not a keyword, and otherwise carries that keyword's kind |
| LexSpec.OperatorLookahead | Lexer/lexer.c:140-167 | for `!` `=` `>` `<` followed by `=`, the combined kind of length 2 and the cursor 2 further on; otherwise the single kind of length 1 |
| LexSpec.UnknownCharacterIsError | Lexer/lexer.c:127-169 | the token is ERROR iff the character is in no class the lexer knows; such a character is consumed, and the token points at "unexpected character" |
| LexSpec.MessageHasNoNul | Lexer/lexer.c:117 | the error message holds no terminator, so `get_size` measures all of it |
| LexSpec.NextToken | Parsers/RecursiveDescentParser/RDparser.c:34-40 | scanning past ERROR tokens yields a non-ERROR token that spans exactly what was consumed; it is EOF iff it starts at NUL; once at NUL it is EOF with no move |
| Diagnostics.NatToString | Parsers/RecursiveDescentParser/RDparser.c:11 | `%d` of a line number: a non-empty string of digits, with a leading `0` only for zero |
| Diagnostics.DecimalRoundTrip | Parsers/RecursiveDescentParser/RDparser.c:11 | the printed line number reads back as the same number |
| Diagnostics.Diagnostic | Parsers/RecursiveDescentParser/RDparser.c:11-19 | the diagnostic starts with `[line ` and ends with `: `, the message and a newline |
| RDParser.Parser.constructor | Parsers/RecursiveDescentParser/RDparser.h:6-10 | the parser state starts with no error and nothing written to stderr |
| RDParser.Parser.ErrorAt | Parsers/RecursiveDescentParser/RDparser.c:8-20 | the first error sets `hadError` and writes `[line N] Error`, the location (` at end`, ` at '<lexeme>'`, or nothing for ERROR) and `: message`; once `hadError` is set, nothing more is written |
| RDParser.Parser.ReportError | Parsers/RecursiveDescentParser/RDparser.c:22-24 | `error` reports at the previous token, first error only |
| RDParser.Parser.ErrorAtCurrent | Parsers/RecursiveDescentParser/RDparser.c:26-28 | `errorAtCurrent` reports at the lookahead token, first error only |
| RDParser.Parser.Advance | Parsers/RecursiveDescentParser/RDparser.c:34-40 | `previous` becomes the old lookahead, and the new lookahead is the next non-ERROR token, as `Grammar.Next` gives it |
| RDParser.Parser.Match | Parsers/RecursiveDescentParser/RDparser.c:42-48 | consumes the lookahead and answers true iff it has the kind; otherwise the position and `previous` are unchanged; the error state never changes |
| RDParser.Parser.MatchAny | Parsers/RecursiveDescentParser/RDparser.c:137 | a `match(a) \|\| match(b) \|\| …` chain: consumes the lookahead iff its kind is in the set, and then `previous` is the old lookahead; otherwise the position and `previous` are unchanged; the error state never changes |
| RDParser.Parser.Check | Parsers/RecursiveDescentParser/RDparser.c:30-32 | `check` answers whether the lookahead has the kind, which is exactly when `consume` of that kind succeeds |
| RDParser.Parser.Consume | Parsers/RecursiveDescentParser/RDparser.c:50-53 | advances iff the lookahead has the kind, and then `previous` is the old lookahead and the error state is unchanged; otherwise the position and `previous` are unchanged, `hadError` is set, and on a first error the diagnostic names the lookahead and the message |
| Grammar.Next | Parsers/RecursiveDescentParser/RDparser.c:34-40 | the position after `advance`: always a valid non-ERROR position; consuming anything but EOF strictly shrinks what remains |
| Grammar.Start | Parsers/RecursiveDescentParser/RDparser.c:168-171 | the primed first position is a valid position |
| Grammar.Expect | Parsers/RecursiveDescentParser/RDparser.c:50-53 | `consume` on the error-free path succeeds iff the lookahead has the kind, and then it makes progress |
| Grammar.Then | Parsers/RecursiveDescentParser/RDparser.c:96-97 | expecting a token after a rule succeeds only if the rule did, and strictly after where it stopped |
| Grammar.Primary | Parsers/RecursiveDescentParser/RDparser.c:160-165 | `INTEGER \| IDENTIFIER \| "(" expression ")"`: a recognised primary ends on a valid position strictly further on |
| Grammar.Unary | Parsers/RecursiveDescentParser/RDparser.c:155-158 | any number of prefix `-`/`+` before a primary: a recognised unary ends on a valid position strictly further on |
| Grammar.Binary | Parsers/RecursiveDescentParser/RDparser.c:135-153 | operand (op operand)* at each of the four levels: a recognised expression ends strictly further on, on a token that is not an operator of its own level |
| Grammar.BinaryTail | Parsers/RecursiveDescentParser/RDparser.c:137 | the `while (match(op…)) operand();` loop stops at the first non-operator and returns that position unchanged when there is no operator |
| Grammar.Assignment | Parsers/RecursiveDescentParser/RDparser.c:124-133 | the assignment branch is taken iff the lookahead is an identifier and the raw character after its lexeme is `=` (the `=` token is then optional); a recognised expression ends strictly further on |
| Grammar.ExprStmt | Parsers/RecursiveDescentParser/RDparser.c:95-98 | expression then `;` (`print_statement` has the same shape after `print`); a success ends strictly further on |
| Grammar.VarDecl | Parsers/RecursiveDescentParser/RDparser.c:82-86 | identifier, optional `= expression`, `;`; a success ends strictly further on |
| Grammar.VarRest | Parsers/RecursiveDescentParser/RDparser.c:84-85 | the optional initialiser then `;`; a success ends strictly further on |
| Grammar.Initialiser | Parsers/RecursiveDescentParser/RDparser.c:84 | `("=" expression)?`: it never moves backwards, and without `=` it succeeds where it started |
| Grammar.Condition | Parsers/RecursiveDescentParser/RDparser.c:101-103 | `"(" expression ")"`: it succeeds only when it starts on `(`, and then ends strictly further on |
| Grammar.IfStmt | Parsers/RecursiveDescentParser/RDparser.c:100-106 | condition, statement, optional `else statement`; a success ends strictly further on |
| Grammar.ElsePart | Parsers/RecursiveDescentParser/RDparser.c:105 | `("else" statement)?`: it never moves backwards and ends on a valid position |
| Grammar.WhileStmt | Parsers/RecursiveDescentParser/RDparser.c:113-118 | condition then statement; a success ends strictly further on |
| Grammar.Statement | Parsers/RecursiveDescentParser/RDparser.c:88-93 | `while`, `print` or `if` statement, else an expression statement; a success ends strictly further on, which is what lets `parse` loop |
| Grammar.Declaration | Parsers/RecursiveDescentParser/RDparser.c:77-80 | `int` varDecl or a statement; a success ends strictly further on |
| Grammar.ProgramFrom | Parsers/RecursiveDescentParser/RDparser.c:173-177 | `declaration* EOF` as the `while (!check(EOF))` loop of `parse` runs it: EOF alone is a program, and a program not at EOF starts with a declaration that succeeds |
| Grammar.Declarations | Parsers/RecursiveDescentParser/RDparser.c:173-177 | `n` rounds of the `parse` loop: zero rounds stay put; a run of declarations that stops on EOF is a program |
| Grammar.ProgramDeclarationCount | Parsers/RecursiveDescentParser/RDparser.c:173-177 | every program is some number of declarations that stop exactly on EOF |
| Grammar.ProgramIsDeclarationsThenEof | Parsers/RecursiveDescentParser/RDparser.c:73-75 | a program from a position holds iff some number of declarations from it succeed and stop exactly on EOF |
| Grammar.Accepts | Parsers/RecursiveDescentParser/RDparser.c:167-180 | the source is accepted iff some number of declarations from the primed first token stop exactly on EOF |
| Grammar.BlankSourceAccepted | Parsers/RecursiveDescentParser/RDparser.c:167-180 | a source holding only blanks and `//` comments is accepted: the primed first token is EOF |
| Grammar.ProgramStep | Parsers/RecursiveDescentParser/RDparser.c:173-177 | after a successful declaration, the rest of the source is a program iff the whole is |
| Grammar.Level | Parsers/RecursiveDescentParser/RDparser.c:135-153 | each binary operator belongs to exactly one of the four levels (`/ *`, `- +`, `> >= < <=`, `!= ==`); other tokens to none |
| Grammar.AtomOperand | Parsers/RecursiveDescentParser/RDparser.c:135-161 | a lone integer or identifier followed by no operator of a lower level is a whole operand at every level: the `while` loops below stop at once |
| Grammar.AtomTail | Parsers/RecursiveDescentParser/RDparser.c:137-152 | one loop round `op operand` over a lone atom, then the loop stops on a token of a higher level |
| Grammar.LiftLevel | Parsers/RecursiveDescentParser/RDparser.c:135-148 | an expression of one level that stops before the next level's operators is an expression of the next level too |
| Grammar.AtomOpAtom | Parsers/RecursiveDescentParser/RDparser.c:135-161 | `a op b` with atoms `a`, `b` and an operator of level `n`, followed by no operator, is a whole expression of level `n` |
| Grammar.LiftToAssignment | Parsers/RecursiveDescentParser/RDparser.c:124-138 | an expression of any level followed by no operator is a whole `assignment`, unless it starts on an identifier whose next raw character is `=` |
| Grammar.AtomIsAssignment | Parsers/RecursiveDescentParser/RDparser.c:124-161 | a lone integer, or an identifier not followed by a raw `=`, followed by no operator is a whole `assignment` |
| Grammar.PeekedAssignment | Parsers/RecursiveDescentParser/RDparser.c:124-129 | when the raw character after an identifier is `=`, the identifier is consumed; a following EQUAL token starts a nested assignment, and otherwise the assignment ends right after the identifier |
| Programs.TightAssignmentAccepted | Parsers/RecursiveDescentParser/RDparser.c:124-129 | `x=5;` is accepted: the peek sees `=` |
| Programs.SpacedAssignmentRejected | Parsers/RecursiveDescentParser/RDparser.c:124-132 | `x = 5;` is rejected: the peek sees a blank, so `=` is left for `;` to fail on |
| Programs.TightEqualityRejected | Parsers/RecursiveDescentParser/RDparser.c:124-129 | `x==5;` is rejected: the peek sees `=`, and the `==` token ends the assignment before `;` |
| Programs.SpacedEqualityAccepted | Parsers/RecursiveDescentParser/RDparser.c:124-138 | `x == 5;` is accepted as an equality |
| Programs.MaskedAssignmentRejected | Parsers/RecursiveDescentParser/RDparser.c:34-40 | `x@=5;` is rejected: the unrecognised `@` is dropped, yet it hides `=` from the peek |
| MainSample.SampleStart | Lexer/lexer.c:40-55 | the first token of the `main.c` sample is `int` at offset 45, carrying line 1 although two comment lines precede it |
| MainSample.SampleAccepted | main.c:8-17 | the program hard-coded in `main.c` is accepted by `parse` |
| Recovery.Consume | Parsers/RecursiveDescentParser/RDparser.c:50-53 | `consume` always returns, never moves backwards, and reports an error iff the lookahead lacks the kind |
| Recovery.AndThen | Parsers/RecursiveDescentParser/RDparser.c:96-97 | `expression(); consume(k, …)`: it returns iff the expression returned, never moves backwards from where the expression stopped, and has reported an error iff the expression did or the token there is not `k` |
| Recovery.Primary | Parsers/RecursiveDescentParser/RDparser.c:160-165 | `primary` on every token but `-` and `+` (which `unary` consumes first), errors included: a run that returns has consumed at least one token (where it never returns: `StrayTokenNeverReturns`) |
| Recovery.Unary | Parsers/RecursiveDescentParser/RDparser.c:155-158 | `unary` on every token: a run that returns has consumed at least one token |
| Recovery.Binary | Parsers/RecursiveDescentParser/RDparser.c:135-153 | each operator level on every input: a run that returns has consumed at least one token and stops on a token that is not an operator of its level |
| Recovery.Tail | Parsers/RecursiveDescentParser/RDparser.c:137 | the operator loop never moves backwards, keeps an error already reported, stops on a non-operator, and returns at once, unchanged, when there is no operator |
| Recovery.Assignment | Parsers/RecursiveDescentParser/RDparser.c:124-133 | `assignment`, with its raw-character peek, on every input: a run that returns has consumed at least one token |
| Recovery.ExprStmt | Parsers/RecursiveDescentParser/RDparser.c:95-98 | `expr_statement` (and `print_statement` after `print`) on every input: a run that returns has consumed at least one token |
| Recovery.VarDecl | Parsers/RecursiveDescentParser/RDparser.c:82-86 | `var_declaration` on every input: a run that returns never moves backwards, and has reported an error when the name is missing |
| Recovery.VarRest | Parsers/RecursiveDescentParser/RDparser.c:84-85 | the optional initialiser and `;` on every input: a run that returns never moves backwards |
| Recovery.Condition | Parsers/RecursiveDescentParser/RDparser.c:101-103 | `( expression )` on every input: a run that returns has consumed at least one token, and has reported an error when `(` is missing |
| Recovery.IfStmt | Parsers/RecursiveDescentParser/RDparser.c:100-106 | `if_statement` after `if` on every input: a run that returns has consumed at least one token |
| Recovery.IfBody | Parsers/RecursiveDescentParser/RDparser.c:104-105 | the statement and else part after a condition: a run that returns has consumed at least one token and keeps an error the condition reported |
| Recovery.ElsePart | Parsers/RecursiveDescentParser/RDparser.c:105 | `if (match(ELSE)) statement();`: a run that returns never moves backwards and keeps an error already reported |
| Recovery.WhileStmt | Parsers/RecursiveDescentParser/RDparser.c:113-118 | `while_statement` after `while` on every input: a run that returns has consumed at least one token |
| Recovery.Statement | Parsers/RecursiveDescentParser/RDparser.c:88-93 | `statement` on every input: a run that returns has consumed at least one token |
| Recovery.Declaration | Parsers/RecursiveDescentParser/RDparser.c:77-80 | `declaration` on every input: a run that returns has consumed at least one token |
| Recovery.Outcome | Parsers/RecursiveDescentParser/RDparser.c:173-179 | the `parse` loop returns true at EOF; how it ends elsewhere is `OutcomeIsProgram`, `StrayTokenNeverReturns` and `RDParser.Parse` |
| Recovery.ConsumeAgrees | Parsers/RecursiveDescentParser/RDparser.c:50-53 | without an error, `consume` ends where `Grammar.Expect` says, and it reports an error exactly where `Expect` fails |
| Recovery.AndThenAgrees | Parsers/RecursiveDescentParser/RDparser.c:96-97 | without an error, `expression(); consume(k)` ends where `Grammar.Then` says |
| Recovery.PrimaryAgrees | Parsers/RecursiveDescentParser/RDparser.c:160-165 | an error-free halting `primary` ends where `Grammar.Primary` says, and `Grammar.Primary` fails exactly when the run reports an error or never returns |
| Recovery.UnaryAgrees | Parsers/RecursiveDescentParser/RDparser.c:155-158 | the same agreement for `unary` and `Grammar.Unary` |
| Recovery.OperandAgrees | Parsers/RecursiveDescentParser/RDparser.c:135-158 | the same agreement for the operand of each operator level |
| Recovery.BinaryAgrees | Parsers/RecursiveDescentParser/RDparser.c:135-153 | the same agreement for each operator level and `Grammar.Binary` |
| Recovery.TailAgrees | Parsers/RecursiveDescentParser/RDparser.c:137 | the same agreement for the operator loop and `Grammar.BinaryTail` |
| Recovery.AssignmentAgrees | Parsers/RecursiveDescentParser/RDparser.c:124-133 | the same agreement for `assignment` and `Grammar.Assignment` |
| Recovery.ExprStmtAgrees | Parsers/RecursiveDescentParser/RDparser.c:95-98 | the same agreement for `expr_statement` and `Grammar.ExprStmt` |
| Recovery.VarDeclAgrees | Parsers/RecursiveDescentParser/RDparser.c:82-86 | the same agreement for `var_declaration` and `Grammar.VarDecl` |
| Recovery.VarRestAgrees | Parsers/RecursiveDescentParser/RDparser.c:84-85 | the same agreement for the initialiser and `;` and `Grammar.VarRest` |
| Recovery.ConditionAgrees | Parsers/RecursiveDescentParser/RDparser.c:101-103 | the same agreement for the condition and `Grammar.Condition` |
| Recovery.IfBodyAgrees | Parsers/RecursiveDescentParser/RDparser.c:104-105 | the same agreement for the statement and else part after a condition |
| Recovery.ElsePartAgrees | Parsers/RecursiveDescentParser/RDparser.c:105 | the same agreement for the else part and `Grammar.ElsePart` |
| Recovery.IfStmtAgrees | Parsers/RecursiveDescentParser/RDparser.c:100-106 | the same agreement for `if_statement` and `Grammar.IfStmt` |
| Recovery.WhileStmtAgrees | Parsers/RecursiveDescentParser/RDparser.c:113-118 | the same agreement for `while_statement` and `Grammar.WhileStmt` |
| Recovery.StatementAgrees | Parsers/RecursiveDescentParser/RDparser.c:88-93 | the same agreement for `statement` and `Grammar.Statement` |
| Recovery.DeclarationAgrees | Parsers/RecursiveDescentParser/RDparser.c:77-80 | the same agreement for `declaration` and `Grammar.Declaration` |
| Recovery.OutcomeIsProgram | Parsers/RecursiveDescentParser/RDparser.c:173-179 | the `parse` loop returns true iff the rest of the source is a program in the sense of `Grammar.ProgramFrom` |
| Recovery.BinaryDiverges | Parsers/RecursiveDescentParser/RDparser.c:135-165 | on a token that can start no operand, every operator level descends to `primary` and never returns |
| Recovery.StrayTokenNeverReturns | Parsers/RecursiveDescentParser/RDparser.c:77-98 | a declaration starting with a token no rule starts with (`;`, `)`, `=`, `else`, an operator other than `-` or `+`) never returns, and neither does `parse` |
| Programs.StraySemicolonNeverReturns | Parsers/RecursiveDescentParser/RDparser.c:160-165 | `parse` never returns on `;` |
| Programs.UnnamedVariableReturnsInvalid | Parsers/RecursiveDescentParser/RDparser.c:82-86 | `parse` returns false on `int ;`: the missing name is reported, the `;` is consumed, and the loop stops |
| RDParser.Parser.Declaration | Parsers/RecursiveDescentParser/RDparser.c:77-80 | from an error-free start, ends exactly where `Grammar.Declaration` says with no error, or reports an error / never returns where the grammar rejects; an error once set stays set; a completed call consumed input; on every input it ends as `Recovery.Declaration` says: completing where that run halts, with the error flag set iff it was set before or the run reported an error, or not completing, with an error reported, where the run never returns |
| RDParser.Parser.VarDeclaration | Parsers/RecursiveDescentParser/RDparser.c:82-86 | follows `Grammar.VarDecl` as above; the error flag only grows; on every input it ends as `Recovery.VarDecl` says, as above |
| RDParser.Parser.VarDeclarationRest | Parsers/RecursiveDescentParser/RDparser.c:84-85 | follows `Grammar.VarRest` as above; on every input it ends as `Recovery.VarRest` says, as above |
| RDParser.Parser.Statement | Parsers/RecursiveDescentParser/RDparser.c:88-93 | follows `Grammar.Statement` as above; on every input it ends as `Recovery.Statement` says, as above |
| RDParser.Parser.ExprStatement | Parsers/RecursiveDescentParser/RDparser.c:95-98 | follows `Grammar.ExprStmt` as above; on every input it ends as `Recovery.ExprStmt` says, as above |
| RDParser.Parser.Condition | Parsers/RecursiveDescentParser/RDparser.c:101-103 | follows `Grammar.Condition` as above; on every input it ends as `Recovery.Condition` says, as above |
| RDParser.Parser.IfStatement | Parsers/RecursiveDescentParser/RDparser.c:100-106 | follows `Grammar.IfStmt` as above; on every input it ends as `Recovery.IfStmt` says, as above |
| RDParser.Parser.PrintStatement | Parsers/RecursiveDescentParser/RDparser.c:108-111 | follows `Grammar.ExprStmt` as above; on every input it ends as `Recovery.ExprStmt` says, as above |
| RDParser.Parser.WhileStatement | Parsers/RecursiveDescentParser/RDparser.c:113-118 | follows `Grammar.WhileStmt` as above; on every input it ends as `Recovery.WhileStmt` says, as above |
| RDParser.Parser.ExpressionThen | Parsers/RecursiveDescentParser/RDparser.c:96-97 | `expression(); consume(kind, message);` follows `Then(Assignment, kind)` as above; on every input it ends as `Recovery.AndThen` says, as above |
| RDParser.Parser.Expression | Parsers/RecursiveDescentParser/RDparser.c:120-122 | follows `Grammar.Assignment` as above; on every input it ends as `Recovery.Assignment` says, as above |
| RDParser.Parser.Assignment | Parsers/RecursiveDescentParser/RDparser.c:124-133 | follows `Grammar.Assignment`, including the raw-character peek, as above; on every input it ends as `Recovery.Assignment` says, as above |
| RDParser.Parser.Equality | Parsers/RecursiveDescentParser/RDparser.c:135-138 | the `while` loop follows `Grammar.Binary` at level 4 (`!=`, `==`); on every input it ends as `Recovery.Binary` says, as above |
| RDParser.Parser.Comparison | Parsers/RecursiveDescentParser/RDparser.c:140-143 | the `while` loop follows `Grammar.Binary` at level 3 (`>`, `>=`, `<`, `<=`); on every input it ends as `Recovery.Binary` says, as above |
| RDParser.Parser.Term | Parsers/RecursiveDescentParser/RDparser.c:145-148 | the `while` loop follows `Grammar.Binary` at level 2 (`-`, `+`); on every input it ends as `Recovery.Binary` says, as above |
| RDParser.Parser.Factor | Parsers/RecursiveDescentParser/RDparser.c:150-153 | the `while` loop follows `Grammar.Binary` at level 1 (`/`, `*`); on every input it ends as `Recovery.Binary` says, as above |
| RDParser.Parser.Unary | Parsers/RecursiveDescentParser/RDparser.c:155-158 | follows `Grammar.Unary` as above; on every input it ends as `Recovery.Unary` says, as above |
| RDParser.Parser.Primary | Parsers/RecursiveDescentParser/RDparser.c:160-165 | follows `Grammar.Primary`; on a token that starts no primary it never returns, having reported the error and moved nothing; on every input it ends as `Recovery.Primary` says, as above |
| RDParser.Parse | Parsers/RecursiveDescentParser/RDparser.c:167-180 | `parse` ends as `Recovery.Outcome` of the primed first position says; it answers true iff the grammar accepts the whole source, iff nothing was written to stderr; a true answer stops on EOF; stderr is empty or exactly one `[line N] Error…` line |

## Left out

- Parsers/RecursiveDescentParser/ASTprinter.c and AST.h: the recogniser builds no tree, so there is nothing to print or to type.
- main.c: the driver, and the global instances it owns. `Parse` allocates its own lexer and parser instead. Its hard-coded program is modelled as `MainSample.Sample`. main.c calls a `parse` with an AST out-parameter and then `printAst`; that tree-building variant is not part of this model.
- `program()` (Parsers/RecursiveDescentParser/RDparser.c:73-75) is never called; `Grammar.ProgramFrom` states the loop `parse` runs instead. Lexer/lexer.h is not part of this model; the token kinds are the ones lexer.c and RDparser.c use.
- Brace tokens are lexed (`Lexing.Lexer.PunctuationToken`), but no rule consumes them, as in the source.
- Writing to stderr is recorded as the string `diagnostic`, not performed as I/O.
- Bytes: the buffer is a string of characters, each standing for one C `char`. A non-ASCII character gives one ERROR token here, but C would see one ERROR token per byte of its encoding. Offsets and lengths count characters, not bytes.
- C `int` widths: line numbers and token lengths are unbounded naturals, and overflow on sources of more than 2^31 characters or lines is not modelled.
- A call that never returns is modelled as `completes == false` (and `NeverReturns`) rather than as the stack overflow the C program would actually meet.
- The parser's initial `current` and `previous` tokens, zero-initialised globals in C, are a placeholder EOF token; `parse` overwrites `current` before reading it.
- The ERROR token's `start` is the message itself (`InMessage`), not an address, so `%.*s` of it is modelled on the message text.
- `MatchAny`, `OneOrTwo`, `PunctuationToken`, `Condition`, `ExpressionThen` and `VarDeclarationRest` are methods the C code writes inline. Each does exactly what its inline C code does.
- LexSpec.SkipWsCountsLines: it states the exact newline count only for stretches without a comment, and an upper bound otherwise; `CommentNewlineNotCounted` shows why. The exact count for every stretch is `SkipWsCountsLinesOutsideComments`.
- RDParser.Parser.Primary: it requires a lookahead other than `-` and `+`. Its only caller, `unary`, consumes those first, and on them the C recursion would make progress instead of looping.
- RDParser.Parser.VarDeclaration: a completed call need not consume input. After an error inside it, the C code can return having consumed nothing.
