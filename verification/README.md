# MicroJava scanner and parser

A Dafny model of the front end of a MicroJava compiler. It covers two parts.

- **The scanner** (`Scanner.java`) turns a character stream into tokens. It skips blanks and `//` comments. It recognises names and keywords by table lookup, decimal numbers, one- and two-character operators, and end of input. It records each token's line and column.
- **The parser** (`Parser.java`) is a recursive-descent recogniser for the MicroJava grammar with one token of lookahead. It reports errors only when three tokens have been recognised since the previous error (cascade suppression). It recovers in panic mode at declarations and statements, and it emits an `enter … exit return` / `trap 1` frame around every method body.

Modules:

- `Tokens`: the 37 token kinds, their integer codes and the printed token names.
- `Scanner`: the scanner as its tables and case bodies intend it. The scanner state (`ch`, `line`, `col` and the unread input) is a value; `nextCh`, `next` and its loops are pure functions on it. `Pending` is the reference definition: the characters the scanner still has to look at.
- `ScannerFacts`: what `next` does with `Pending`. Each token consumes exactly its own characters, and keywords and numbers scan back to themselves.
- `ScannerAsWritten`: the parts of `Scanner.java` whose code disagrees with its intent, modelled as written, with lemmas that show the inputs on which they differ (see Findings).
- `Grammar`: the parse trees of the MicroJava grammar and the token kinds each tree spells (its yield). The parser's contracts say what each parsing method does on the yield of a tree: it consumes exactly those tokens, with no error, as long as the token after them cannot continue the production.
- `Parser`: the parser's state (tokens, position, `errors`, `errDist`, the reported diagnostics, the emitted code) and one method per parsing method, with the corrected print width (see Findings). Every reachable state satisfies `Valid`, which bounds the reported errors by the tokens read.
- `ParserFacts`: cascade suppression, the synchronisation sets, the frame encoding, and the print statement as written.

## Model

| member | source | states |
|---|---|---|
| Tokens.FromCode | Scanner.java:10-47 | every token code 0..36 names exactly one kind, whose code it is |
| Tokens.CodeRoundTrip | Scanner.java:10-47 | codes and kinds are in one-to-one correspondence: decoding a kind's code gives the kind back |
| Tokens.KindNameTable | Parser.java:53-58 | the name of every kind in error messages is the entry of the `name` table at the kind's code, and the table has one entry per code |
| Scanner.NextCh | Scanner.java:65-73 | reading a character consumes one input character; a newline moves to the next line at column 0, anything else advances the column; an exhausted reader (or U+FFFF) yields `eofCh`; the unread input shrinks unless already at `eofCh` |
| Scanner.Init | Scanner.java:76-81 | the scanner starts at line 1 and, after reading the first character, stands at column 1 (or at line 2, column 0 when the text starts with a newline) |
| Scanner.Pending | Scanner.java:65-73 | the characters still to be seen start with the lookahead and end with exactly one `eofCh`, which occurs nowhere before the end |
| Scanner.IsAlphanumerical | Scanner.java:83-85 | every digit is alphanumerical, and no alphanumerical character is blank, `eofCh`, an operator or a separator, so name and number runs stop at all of those |
| Scanner.NextChPending | Scanner.java:65-73 | reading a character moves exactly the lookahead out of the characters still to be seen |
| Scanner.KeysAscending | Scanner.java:48-51 | the keyword table is sorted, each entry strictly below the next |
| Scanner.KeysDistinct | Scanner.java:48-51 | no keyword occurs twice in the table, so lookup by value is unambiguous |
| Scanner.KeyValSpelling | Scanner.java:48-55 | entry i of `keyVal` is a keyword kind whose printed name is entry i of `key` |
| Scanner.KeywordKind | Scanner.java:96-115 | a lexeme is an identifier exactly when it is not in `key`; otherwise its kind is the `keyVal` entry at its index |
| Scanner.KeywordRoundTrip | Scanner.java:48-55 | the spelling of every keyword kind is looked up as that kind |
| Scanner.DecimalRoundTrip | Scanner.java:129-130 | parsing the decimal spelling of a number gives the number back |
| Scanner.SkipBlanks | Scanner.java:139 | the blank-skipping loop stops at the first character above ' ' and never moves backwards |
| Scanner.ReadRun | Scanner.java:91-94 | the lexeme loop reads characters exactly while they are in the class, stops at the first one outside it, and reads something exactly when the first character is in the class |
| Scanner.SkipComment | Scanner.java:192 | skipping a comment stops at the end of the line or at end of input, having consumed input |
| Scanner.ReadName | Scanner.java:87-116 | a name is a non-empty maximal run of letters and digits whose kind is its keyword lookup, never `eof` |
| Scanner.ReadNumber | Scanner.java:118-135 | a number token is a non-empty run of digits; a value up to `Integer.MAX_VALUE` is its decimal value; a larger one gives value 0 and sets `ch` to `eofCh` |
| Scanner.Next | Scanner.java:137-201 | `next` returns `eof` only when it has reached `eofCh`, and otherwise consumes input |
| Scanner.NextAt | Scanner.java:141-199 | the token switch, after the blanks: `eof` only at `eofCh`, input consumed otherwise |
| Scanner.Operator | Scanner.java:174-187 | an operator or unknown character is never `eof` and consumes input |
| Scanner.ScanAll | Scanner.java:172 | the token stream ends with exactly one `eof` token and has none before it |
| ScannerFacts.SkipBlanksPending | Scanner.java:139 | skipping blanks consumes exactly the longest blank prefix of the pending characters |
| ScannerFacts.ReadRunPending | Scanner.java:91-94 | the lexeme read is the longest prefix of the pending characters in the class, and exactly that prefix is consumed |
| ScannerFacts.ReadRunColumns | Scanner.java:65-68 | reading a lexeme that contains no newline moves the column by the lexeme's length on the same line |
| ScannerFacts.SkipCommentPending | Scanner.java:192 | a comment consumes its rest of line and nothing of the next line |
| ScannerFacts.NextSticky | Scanner.java:172 | once `next` has returned `eof` it returns `eof` again without moving |
| ScannerFacts.NextAtEnd | Scanner.java:172 | when only blanks remain, `next` returns `eof` at the position after them |
| ScannerFacts.NextPosition | Scanner.java:139-140 | a token not preceded by a comment carries the line and column of its first character |
| ScannerFacts.NextSingleChar | Scanner.java:154-170 | each single-character token has its table kind and consumes exactly its character |
| ScannerFacts.NextOperator | Scanner.java:174-187 | `=`, `!`, `<`, `>` followed by `=` form the two-character operator and consume both characters; otherwise the one-character kind is formed and one character is consumed |
| ScannerFacts.NextSlash | Scanner.java:189-194 | a `/` not followed by `/` is a slash token consuming one character |
| ScannerFacts.NextComment | Scanner.java:189-193 | `//` skips to the end of the line and the token is the one after the comment |
| ScannerFacts.CommentPending | Scanner.java:189-192 | a comment consumes `//`, then exactly the characters up to the end of the line |
| ScannerFacts.NextUnknown | Scanner.java:196-198 | any other character is a `none` token that consumes exactly that character |
| ScannerFacts.NextName | Scanner.java:143-148 | a name token's text is the longest alphanumeric prefix of the input; it is an identifier exactly when the text is not a keyword; exactly the text is consumed |
| ScannerFacts.NextNumber | Scanner.java:150-152 | a number token's text is the longest digit prefix; its value is the decimal value when in range, and the scanner reports `eof` next when out of range |
| ScannerFacts.PendingIsInput | Scanner.java:65-73 | the pending characters are the lookahead and the unread input, with the reader's end marker read as `eofCh`, up to the first `eofCh` |
| ScannerFacts.InitPending | Scanner.java:76-81 | after `init` the scanner will see exactly the source text followed by `eofCh` |
| ScannerFacts.ScanAllAtEnd | Scanner.java:172 | at end of input the token stream is the single `eof` token |
| ScannerFacts.WholeRun | Scanner.java:91-94 | a text made only of class characters is read whole, leaving only end of input |
| ScannerFacts.NumberRoundTrip | Scanner.java:118-135 | the decimal spelling of any number up to `Integer.MAX_VALUE` scans as one number token with that text and value, then `eof` |
| ScannerFacts.KeywordSpelling | Scanner.java:48-51 | every keyword is spelled with lower-case letters only |
| ScannerFacts.WordScans | Scanner.java:87-116 | a lower-case word scans as one token with that text, of its keyword-lookup kind, then `eof` |
| ScannerFacts.KeywordScansAsItself | Scanner.java:48-55 | the spelling of every keyword scans as that keyword, then `eof` |
| ScannerAsWritten.KeywordCases | Scanner.java:102-115 | the switch's cases are the keyword table in order, and exactly those before the given index end in `break` |
| ScannerAsWritten.FindCase | Scanner.java:96-101 | the search returns the first case with the given spelling, or none when there is no such case |
| ScannerAsWritten.FindKey | Scanner.java:96-101 | a keyword selects the case at its own table index |
| ScannerAsWritten.SwitchWithBreaks | Scanner.java:102-108 | a switch with a `break` in every case agrees with keyword lookup on every string |
| ScannerAsWritten.SwitchBeforeProgram | Scanner.java:103-108 | as written, the six keywords before "program" select their own kind |
| ScannerAsWritten.SwitchFallsThrough | Scanner.java:109-114 | as written, "program", "read", "return", "void" and "while" fall through to `ident` |
| ScannerAsWritten.FallsToDefault | Scanner.java:109-114 | from the "program" case on, every case falls through to `default` |
| ScannerAsWritten.ProgramIsNoKeyword | Scanner.java:109-114 | "program" is a keyword in the tables but the switch as written makes it an identifier |
| ScannerAsWritten.ReadNameAsWritten | Scanner.java:87-116 | as written a name is always an identifier, and its text has the first letter twice |
| ScannerAsWritten.ParseInt | Scanner.java:129-133 | `Integer.parseInt` on strings of ASCII digits (signs not modelled) fails on the empty string and on any non-digit, and any value it gives is between 0 and `Integer.MAX_VALUE` |
| ScannerAsWritten.ParseIntDecimal | Scanner.java:129-133 | every value up to `Integer.MAX_VALUE` parses back from its decimal spelling |
| ScannerAsWritten.ReadNumberAsWritten | Scanner.java:118-135 | as written a number consumes nothing, has empty text and kind `none`, and sets `ch` to `eofCh` |
| ScannerAsWritten.FallThrough | Scanner.java:178-195 | as written, the `!`, `<` and `>` cases run on into the `/` case, so their token is a slash or the token after a comment |
| ScannerAsWritten.NextAsWritten | Scanner.java:137-201 | `next` as written returns `eof` only at `eofCh` and otherwise consumes input |
| ScannerAsWritten.ScanAllAsWritten | Scanner.java:137-201 | the token stream as written starts with the first token `next` returns and ends in `eof` |
| ScannerAsWritten.AtEndBoth | Scanner.java:172 | at end of input the code as written and the intended scanner agree |
| ScannerAsWritten.WordAsWritten | Scanner.java:88-98 | as written every lower-case word with an accepted first letter scans as an identifier with its first letter doubled |
| ScannerAsWritten.KeywordAsWritten | Scanner.java:88-98 | every keyword that starts with a letter that has a name case scans as an identifier with its first letter doubled ("class" gives "cclass"), and as itself when intended |
| ScannerAsWritten.SearchByReference | Scanner.java:96-101 | the search of `key` by reference finds nothing, so `keyword` keeps its initial "" |
| ScannerAsWritten.MissingLetterAsWritten | Scanner.java:143-146 | as written a text starting with 'p', 'v', 'P' or 'V' starts with a `none` token |
| ScannerAsWritten.VoidAsWritten | Scanner.java:143-146 | "void" starts with a `none` token as written, and scans as the keyword when intended |
| ScannerAsWritten.NumberAsWritten | Scanner.java:123 | as written every number text scans as one `none` token and then `eof`; intended, it is one number token with its value |
| ScannerAsWritten.NoRelationalAsWritten | Scanner.java:178-187 | as written `next` never returns `!=`, `<`, `<=`, `>` or `>=` |
| ScannerAsWritten.LessEqualAsWritten | Scanner.java:181-187 | "<=" scans as a slash as written and as `<=` when intended |
| Parser.ValidBound | Parser.java:87-93 | in every state the parser reaches there is one diagnostic per counted error, and at most one error per three tokens read, plus one, is counted; the bound follows from the invariant `Valid`, which every operation keeps |
| Parser.Scan | Parser.java:70-75 | `scan` advances the lookahead by one token and counts it towards `errDist`, changing nothing else |
| Parser.Error | Parser.java:87-93 | an error is counted and reported at the lookahead's line and column exactly when `errDist` is at least 3, and otherwise leaves `errors` and the diagnostics unchanged; either way `errDist` restarts at 0 and nothing is consumed |
| Parser.Check | Parser.java:82-85 | the expected token is consumed without an error; any other lookahead is left in place and "<name> expected" is reported, or suppressed when `errDist` is below 3 |
| Parser.SkipUntil | Parser.java:274 | skipping stops at the first token of the synchronisation set, and every token skipped is outside it, with no error counted |
| Parser.RecoverStat | Parser.java:272-276 | statement recovery counts the error at most once, stops at a token of `syncStat` having skipped only tokens outside it, and restarts `errDist` |
| Parser.RecoverDecl | Parser.java:107-113 | declaration recovery counts the error at most once, skips the offending token and then up to a token of `syncDecl`, and restarts `errDist` |
| Parser.Mulop | Parser.java:211-216 | a multiplication operator is consumed with no error; anything else is left in place and reported (or suppressed) as "Times, slash or rem expected" |
| Parser.Addop | Parser.java:225-230 | an addition operator is consumed with no error; anything else is left in place and reported (or suppressed) as "plus or minus expected" |
| Parser.Relop | Parser.java:255-260 | a relational operator is consumed with no error; anything else is left in place and reported (or suppressed) as the relational-operator message |
| Parser.Type | Parser.java:148-159 | on tokens spelling a type (an identifier, optionally `[` `]`) not followed by another `[`, exactly those tokens are consumed with no error; a type starting with an identifier always consumes input |
| Parser.Selector | Parser.java:242-250 | a selector `.` ident or `[` Expr `]` is consumed exactly, with no error, when the tokens spell it |
| Parser.Designator | Parser.java:238-253 | on tokens spelling a designator, exactly those are consumed with no error; the selector loop always stops at a token that is neither `.` nor `[` |
| Parser.DesignatorFactor | Parser.java:192 | a designator optionally followed by actual parameters is consumed exactly when the tokens spell it |
| Parser.NewFactor | Parser.java:194-202 | `new` ident with an optional `[` Expr `]` is consumed exactly when the tokens spell it |
| Parser.ParenFactor | Parser.java:203-206 | `(` Expr `)` is consumed exactly when the tokens spell it |
| Parser.Factor | Parser.java:190-209 | a factor consumes input exactly when it starts with a token of `Factor`'s first set, and on tokens spelling a factor it consumes exactly them with no error |
| Parser.Term | Parser.java:218-223 | a term never stops before a multiplication operator, and on tokens spelling a term it consumes exactly them with no error |
| Parser.Expr | Parser.java:231-236 | an expression never stops before an addition operator, and on tokens spelling an expression (optional leading minus) it consumes exactly them with no error |
| Parser.Condition | Parser.java:261-266 | on tokens spelling expression, relational operator, expression, exactly those are consumed with no error |
| Parser.ActPars | Parser.java:176-189 | an argument list starting with `(` consumes input, and one spelled correctly is consumed exactly with no error |
| Parser.Args | Parser.java:179-187 | a comma-separated expression list is consumed exactly, stopping at the `)` after it |
| Parser.PrintArgs | Parser.java:268-270 | the grammar's optional `, number`: nothing is consumed unless a comma follows; a comma and a number are consumed with no error; a comma without a number is consumed and "number expected" reported |
| Parser.PrintArgsAsWritten | Parser.java:331-332 | as written one comma or one number is consumed without an error, and anything else is reported and left in place |
| Parser.Statement | Parser.java:270-350 | a statement at any token other than `}` or end of input consumes input; one that does not start like a statement has its error counted (at most once) before recovery; on tokens spelling a statement, exactly those are consumed with no error |
| Parser.StatementCases | Parser.java:278-348 | the statement switch consumes input at every token of `firstStat`; at any other token its `default` case reports "[long list here] 1 expected", which is suppressed right after recovery; a well-spelled statement is consumed exactly with no error |
| Parser.AssignOrCall | Parser.java:279-288 | an assignment or a call starting with an identifier consumes input, and a well-spelled one is consumed exactly with no error |
| Parser.ParenCondition | Parser.java:291-294 | `if` or `while`, then `(` Condition `)`, are consumed exactly when the tokens spell them |
| Parser.IfStat | Parser.java:290-300 | an `if` statement consumes input, and a well-spelled one, with or without `else`, is consumed exactly with no error; an `else` is taken by the innermost `if` |
| Parser.OptElse | Parser.java:296-299 | nothing is consumed unless `else` follows; an `else` branch spelled correctly is consumed exactly with no error |
| Parser.WhileStat | Parser.java:302-308 | a `while` statement consumes input, and a well-spelled one is consumed exactly with no error |
| Parser.ReturnStat | Parser.java:310-316 | a `return` statement with or without a value consumes input, and a well-spelled one is consumed exactly with no error |
| Parser.ReadStat | Parser.java:318-324 | a `read` statement consumes input, and a well-spelled one is consumed exactly with no error |
| Parser.PrintStat | Parser.java:326-336 | a `print` statement consumes input, and one spelled with the grammar's optional width is consumed exactly with no error, with the corrected width (see Findings) |
| Parser.Block | Parser.java:352-359 | a block stops at end of input or just after a `}`, and a well-spelled block is consumed exactly with no error |
| Parser.StatementList | Parser.java:355-357 | the statement loop of a block stops only at `}` or end of input, and consumes a well-spelled statement sequence exactly with no error |
| Parser.VarDecl | Parser.java:379-392 | a variable declaration declares at least one name; a well-spelled one is consumed exactly with no error and declares one name per identifier in it |
| Parser.MoreNames | Parser.java:384-390 | the `, ident` loop stops only where no comma follows, and on a well-spelled list counts exactly its names |
| Parser.FormPars | Parser.java:161-174 | a parameter list stops only where no comma follows; a well-spelled one is consumed exactly with no error and counts exactly its parameters |
| Parser.ConstDecl | Parser.java:128-146 | a constant declaration starting with `final` consumes input, and a well-spelled one is consumed exactly with no error |
| Parser.VarDecls | Parser.java:418-421 | the local declarations run until the lookahead is no identifier; a well-spelled sequence is consumed exactly with no error and the names counted are exactly those declared |
| Parser.ClassDecl | Parser.java:360-377 | a class declaration starting with `class` consumes input, and a well-spelled one is consumed exactly with no error |
| Parser.MethodCode | Parser.java:425-434 | a method's code is one well-formed frame: `enter` with the parameter count and the variable count, then `exit return` or `trap 1` |
| Parser.DecodeFrame | Parser.java:425-434 | every well-formed frame is the code of the method whose counts and ending it records |
| Parser.FramesAppend | Parser.java:117-119 | two code streams of whole frames joined together are a stream of whole frames |
| Parser.ResultType | Parser.java:398-401 | a method is void exactly when its result is not a type name; `void` and a type are consumed; anything else is left in place and "void or function type expected" reported (or suppressed) |
| Parser.Signature | Parser.java:403-416 | a well-spelled method name and parameter list are consumed exactly with no error, and the parameters counted are exactly those declared |
| Parser.MethodDecl | Parser.java:393-437 | a method declaration appends exactly one frame to the code and is void exactly when it does not start with a type name; a well-spelled one is consumed exactly with no error, and its frame holds its number of parameters, its number of parameters plus locals, and its ending |
| Parser.Declarations | Parser.java:101-114 | the declaration loop ends only at `{` or end of input, and consumes a well-spelled sequence of declarations exactly with no error |
| Parser.Methods | Parser.java:117-119 | the method loop emits whole frames only and stops where no method can start; on well-spelled methods it consumes them exactly with no error and emits one frame per method, in order |
| Parser.ProgramStart | Parser.java:98-116 | a program not starting with `program` gets "program expected" as its first error; a well-spelled program head and declarations are consumed exactly up to the methods |
| Parser.Program | Parser.java:97-126 | a program emits whole frames only; a missing `program` is the first reported error; a well-spelled program is consumed exactly with no error and its code is its methods' frames in order |
| Parser.Start | Parser.java:458-459 | parsing starts at the first token with no errors, no code, and error reporting enabled |
| Parser.Parse | Parser.java:439-464 | every counted error has its diagnostic, in the order reported; at most one error per three tokens is counted; an error-free parse reads to end of input; the code is whole frames; a missing `program` is the first error; a well-spelled program followed by end of input parses with no error and emits exactly its methods' frames |
| ParserFacts.SyncSets | Parser.java:442-453 | `syncStat` is `firstStat` without identifiers and with `}` and end of input; both synchronisation sets contain end of input; the inline expression test is membership in `firstExpr` |
| ParserFacts.NamesDistinct | Parser.java:53-58 | no two entries of the `name` table are spelled alike |
| ParserFacts.MissingText | Parser.java:82-85 | a "… expected" message is the `name` table entry of the expected kind followed by " expected", and two such messages are equal exactly when they expect the same kind |
| ParserFacts.CascadeSuppressed | Parser.java:87-93 | an error within two tokens of a previous error is neither counted nor reported |
| ParserFacts.ReportingResumes | Parser.java:87-93 | three tokens after an error, errors are counted and reported again at the lookahead |
| ParserFacts.FirstErrorReported | Parser.java:458 | the first error of a parse is always reported |
| ParserFacts.FrameRoundTrip | Parser.java:424-434 | decoding a method's frame gives back its parameter count, local count and ending |
| ParserFacts.FrameAt | Parser.java:118-120 | in a stream of whole frames, every aligned five-word window is one method's frame |
| ParserFacts.PrintWithoutWidth | Parser.java:329-333 | for `print(x)` the code as written reports "comma or number expected"; the grammar's version consumes nothing and reports nothing |
| ParserFacts.PrintWithWidth | Parser.java:329-333 | for `print(x, 5)` the code as written leaves the width where `)` is expected; the grammar's version consumes both without an error |
| ParserFacts.PrintWidthWithoutComma | Parser.java:329-333 | for `print(x 5)` the code as written accepts the width without an error; the grammar's version leaves it to be reported |

## Left out

- The symbol table, types and code buffer (`Tab`, `Obj`, `Struct`, `Code`): these classes are not part of this model. Scope opening and closing and `Tab.dumpScope` are dropped. The errors `Tab.insert` reports on a duplicate name and `Tab.find` on an undeclared name are not modelled; if they go through `Parser.error`, they would also count and reset `errDist`, and so change which syntax errors are reported.
- The semantic checks: "IntType expected" and "CharType expected" in `ConstDecl` (Parser.java:138, 142), the reference-type result check (Parser.java:395) and the checks on `main` (Parser.java:408-411). Each needs types from the symbol table.
- `MethodDecl` takes three parameters in the source, but `Program` calls it with none. The model takes none.
- A method's result type: a parsed type is taken to make a function (not `noType`), and a missing type leaves the method void. Whether a type name denotes `noType` depends on the symbol table.
- The parameter count in `enter`: the source emits `curMethod.nPars` (Parser.java:426), a field that Parser.java never assigns; `curMethod` is inserted (Parser.java:404) before any parameter is parsed. The model emits the number of formal parameters parsed instead. The variable count is parameters plus locals, since both are inserted into the method's scope.
- The code a method body would emit: statements emit nothing in this parser, so the code stream holds only the frames.
- Printing: a reported error is recorded as a `Diag` (line, column, message) instead of being printed. `Parser.Text` gives the printed wording of each message.
- The recently recognised token `t` of the parser: it is only read by the symbol-table calls.
- Characters: Java reads UTF-16 code units, while a Dafny `char` is a Unicode scalar value. A character outside the Basic Multilingual Plane is two Java chars (two `none` tokens, the column advancing by 2) but one character here (one token, the column advancing by 1), and a lone surrogate cannot be represented at all.
- The `Reader` and `IOException`: the input is a character sequence. An I/O error is indistinguishable from end of input in the model, as in the source (both give `eofCh`). The unused `pos` counter and `lex` buffer of the scanner are dropped.
- The parser reads a sequence of tokens instead of calling the scanner on demand. Positions past the last token read as an `eof` token at line 0, column 0; the scanner's own `eof` token carries the position of end of input. The two differ only for a token sequence without a trailing `eof`.
- Parser.Scan: requires that the lookahead is not end of input. In the source, `scan` at end of input re-reads the same `eof` token; no call site of the parser scans at end of input.
- Parser.Check: requires that the expected kind is not `eof`; no call site checks for `eof`.
- `errDist` is only ever compared with 3, so the model keeps it as an unbounded count and does not model integer overflow of it or of `errors`.
- The kind of a number token: the model gives it the kind `number`, which the source never assigns (see Findings). An out-of-range value keeps value 0, as the source leaves `numVal` at its default.
- Character constants: the scanner has no case for `'`, so a quote is a `none` token, and no `charCon` token is ever produced. The parser still accepts `charCon` where the grammar allows it.

## Findings

| source | as written | input that shows it | evidently intended | confidence | as-written member | corrected member |
|---|---|---|---|---|---|---|
| Scanner.java:88-98 | the lexeme gets its first character twice, and `t.val == s` compares string references, so no name is ever found in `key` | "class" | the lexeme "class" is looked up by value and gives the keyword `class` | not executed | ScannerAsWritten.KeywordAsWritten | Scanner.ReadName |
| Scanner.java:109-114 | the cases from "program" on have no `break` and fall through to `default: ident` | "program", even once looked up by value | each keyword case assigns its own kind | not executed | ScannerAsWritten.ProgramIsNoKeyword | ScannerAsWritten.SwitchWithBreaks |
| Scanner.java:143-146 | the name cases leave out 'p', 'v', 'P' and 'V' | "void" | every letter starts a name, so "void" is the keyword `void` | not executed | ScannerAsWritten.VoidAsWritten | ScannerFacts.KeywordScansAsItself |
| Scanner.java:123 | `ch >= 0 && ch <= 9` compares with the integers 0..9, so no digit is read; `parseInt("")` fails and `ch` becomes `eofCh`; the kind is never set | "42" | the digits are read and parsed, giving a `number` token of value 42 | not executed | ScannerAsWritten.NumberAsWritten | ScannerFacts.NumberRoundTrip |
| Scanner.java:178-187 | the `!`, `<` and `>` cases have no `break` and run into the `/` case | "<=" | the token `<=` | not executed | ScannerAsWritten.LessEqualAsWritten | ScannerFacts.NextOperator |
| Parser.java:331-332 | after the expression, a comma or a number alone is accepted, and `print(x)` is reported as "comma or number expected" | `print(x)` | the grammar's optional `"," number`: nothing needed before `)` | not executed | ParserFacts.PrintWithoutWidth | Parser.PrintArgs |
