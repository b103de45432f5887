# A verified model of the `lang` interpreter core

`lang` is a small statically annotated scripting language implemented in
Rust. A program goes through these stages:

- A nom-based scanner turns it into tokens. A fix-up pass then retypes user type names and `()` in annotation position.
- A recursive-descent parser builds a syntax tree of expressions and statements.
- A resolver walks the tree with a stack of block scopes and reports the depth at which each variable was found.
- A tree-walking interpreter evaluates the tree. It keeps its variables in a scope-chain environment whose values live in an arena.

The repository also ships a Python script. It generates fixture files, a Rust test module and a criterion bench module from a table of named snippets.

This project models that core in Dafny, with one module per source file:

- `Codegen`: scripts/test_codegen/test_codegen.py
- `Errors`: lib/error.rs
- `Types`: lib/token.rs (type annotations, token types)
- `Span`: lib/syntax/span.rs
- `SyntaxToken`: lib/syntax/token.rs
- `Scanner`: lib/syntax/scanner.rs
- `Ast`: lib/ast/expr.rs, lib/ast/stmt.rs
- `Parser`: lib/parser.rs
- `Values`: lib/value.rs
- `TypeChecker`: lib/type_checker.rs
- `Mem`: lib/mem.rs
- `Env`: lib/env.rs
- `Resolver`: lib/resolver.rs
- `Interpreter`: lib/interpreter.rs
- `Lang`: lib/lang.rs

`Wrappers` holds the `Result` and `Option` values.

Code that changes state in the source is modelled in two parts. First comes a pure specification: a function of the inputs and the old state. Then comes a class whose methods update fields and loop the way the source does. Each method's `ensures` ties its result and new state to that specification function. This covers:

- the parser's token cursor;
- the scanner's `TokenIter` and `fixup_types`;
- the arena and the environment;
- the resolver's scope stack;
- the interpreter's `execute_block`, `while` and statement visitor;
- the generator's emitters.

The properties the source promises are then proved about the specification functions. Pure code (error formatting, annotations, spans, lexers, values, the driver) is modelled as functions and lemmas.

The source files come from different revisions and do not agree with each other on every interface. Each module is modelled against its own file:

- The scanner uses the token of lib/syntax/token.rs: a type, spans and a value.
- The parser, the resolver and the driver use a token with a type, a lexeme, a line and a value, as lib/parser.rs and lib/lang.rs read it.
- The interpreter's variable storage is the environment of lib/env.rs: a chain of entries binding names to arena slots.

Some token types are renamed where their Rust name is a Dafny keyword or clashes with another name: `StringLit`, `FnKw`, `TraitKw`, `UnitKw`.

Every evaluation step of the values and the interpreter ends in an `Outcome`, which has four cases:

- a value;
- a language error;
- a panic of the Rust program: integer overflow in a debug build, an index out of range, `unimplemented!()`, or a chain of entries that never ends;
- `Unmodelled`: the result depends on something this model leaves out, such as floating-point arithmetic.

Integer arithmetic follows a debug build of the Rust program, where an overflowing operation panics. There is one deliberate exception. The parser's results have no panic case, so `Parser.ArrayTypeToken` takes the release-build wrap-around of an unsigned subtraction, as its line under "Left out" says.

Some surprising behaviours are kept as the source writes them and stated as lemmas:

- The resolver always reports the depth `scopes.len() - 1`, whichever scope binds the name (`Resolver.ResolvedDepthIgnoresBindingScope`).
- A `break` inside a block body leaves the block's environment entry current (`Interpreter.BreakFromBlockKeepsBodyEntry`).
- A parsed `enum` declaration is discarded, and parsing goes on with the next declaration (modelled as written in `Parser.DeclarationAt`).
- The resolver and interpreter reach `unimplemented!()` on an `enum` statement.

Three other behaviours are not kept as written. Each is a row of the table under "Findings". For each one, the model of the stage uses the corrected behaviour, and a separate member records the behaviour as written:

- Findings row 1, the `if` statement. `Interpreter.ExecIf` runs exactly one branch. So do the members that execute statements through it: `Interpreter.Exec`, `Interpreter.Interpret`, and the methods `Interpreter.Interpreter.IfM`, `Interpreter.Interpreter.VisitStmt` and `Interpreter.Interpreter.InterpretM`. The `if` as written is `Interpreter.ExecIfAsWritten`.
- Findings row 2, the character classes. `Scanner.AllowableIdentChar` and `Scanner.LisDigit` accept ASCII characters only. So do the lexers built on them: `Scanner.LexIdent`, `Scanner.LexDigit`, `Scanner.Entry`, `Scanner.LexProgram`, `Scanner.ScanSpec` and `Scanner.Scanner.ScanTokens`. The classes as written, with the truncating `as u8` cast, are `Scanner.AllowableIdentCharAsWritten` and `Scanner.LisDigitAsWritten`.
- Findings rows 3 and 4, the commas of a struct or enum body. `Parser.StructFieldsAt` and `Parser.EnumItemsAt` require a comma after every item but the last. So do the members that parse declarations through them: `Parser.StructDeclarationAt`, `Parser.EnumDeclarationAt`, `Parser.DeclarationAt`, `Parser.BlockLoopAt`, `Parser.ParseLoopAt`, `Parser.ParseAt` and `Parser.Parser.Parse`. The loops as written, which only count the commas, are `Parser.StructFieldsAsWrittenAt` and `Parser.EnumItemsAsWrittenAt`.

## Model

| member | source | states |
|---|---|---|
| Codegen.ShouldFailIff | scripts/test_codegen/test_codegen.py:154 | a case is expected to fail exactly when its name is some text followed by "failure" |
| Codegen.ShouldFail | scripts/test_codegen/test_codegen.py:154 | no contract of its own: the `endswith("failure")` test; Codegen.ShouldFailIff and Codegen.SuffixIsCaseSensitive state what it accepts |
| Codegen.SuffixIsCaseSensitive | scripts/test_codegen/test_codegen.py:154 | the suffix test is exact and case-sensitive: "Failure", "failures" and "failure " do not count |
| Codegen.TableClassification | scripts/test_codegen/test_codegen.py:18-105 | the shipped table has 21 entries and exactly the six named "... failure" are expected to fail |
| Codegen.PrintTests | scripts/test_codegen/test_codegen.py:144-163 | the loop prints exactly the test module: comment, prelude, one six-line unit per entry in table order, closing "}" |
| Codegen.TestUnitsLength | scripts/test_codegen/test_codegen.py:153-162 | the units hold six lines per entry |
| Codegen.TestUnitsAt | scripts/test_codegen/test_codegen.py:153-162 | lines 6i..6i+5 of the units are entry i's unit |
| Codegen.TestModuleUnitAt | scripts/test_codegen/test_codegen.py:151-162 | the test module has 6n+3 lines, and entry i's attribute, header, source, error print and verdict lines sit at 2+6i onwards |
| Codegen.TestUnitVerdict | scripts/test_codegen/test_codegen.py:154-162 | a unit's last line asserts `is_ok()` false exactly for entries expected to fail, and true otherwise |
| Codegen.TestModuleShape | scripts/test_codegen/test_codegen.py:151-163 | the module starts with the generation comment and ends with "}"; entry i's test is named by its slug, embeds the source, prints the error before asserting, and asserts `false` iff the case is expected to fail |
| Codegen.TestModule | scripts/test_codegen/test_codegen.py:144-163 | no contract of its own: what `print_tests` prints, the comment and prelude, the units of the entries in order and a closing "}"; Codegen.PrintTests is proved to print it, and Codegen.TestModuleShape, Codegen.TestModuleUnitAt and Codegen.OneTestPerCase state its form |
| Codegen.TestUnitLineKinds | scripts/test_codegen/test_codegen.py:155-162 | within a unit only the first line is `#[test]` and only the second is a `fn` header |
| Codegen.TestLineKind | scripts/test_codegen/test_codegen.py:153-162 | between prelude and closing brace, a line is `#[test]` exactly at offsets 0 mod 6 and a `fn` header exactly at offsets 1 mod 6 |
| Codegen.OneTestPerCase | scripts/test_codegen/test_codegen.py:153-156 | the module holds exactly one `#[test]` line and one `fn` line per entry, at the unit positions, and no others |
| Codegen.Slugs | scripts/test_codegen/test_codegen.py:131-134 | the collected slugs are the entries' slugs, one per entry, in table order |
| Codegen.PrintLangBenches | scripts/test_codegen/test_codegen.py:120-142 | the loop prints exactly the bench module and collects the slugs in order for the group line |
| Codegen.BenchUnitsLength | scripts/test_codegen/test_codegen.py:132-139 | the bench units hold four lines per entry |
| Codegen.BenchUnitsAt | scripts/test_codegen/test_codegen.py:132-139 | lines 4i..4i+3 of the bench units are entry i's unit |
| Codegen.BenchUnitLineKinds | scripts/test_codegen/test_codegen.py:135-139 | within a bench unit only the first of its four lines is a `fn` header |
| Codegen.BenchLineKind | scripts/test_codegen/test_codegen.py:132-139 | between the comment lines and the group lines, a bench module line is a `fn` header exactly at offsets 0 mod 4 |
| Codegen.BenchModuleShape | scripts/test_codegen/test_codegen.py:122-142 | the bench module starts with the comment; entry i's bench fn is named by its slug, labelled with the raw name and passes the source verbatim in `black_box(Some(..))`; it ends with the criterion group over the joined slugs and `criterion_main!` |
| Codegen.BenchModule | scripts/test_codegen/test_codegen.py:120-142 | no contract of its own: what `print_lang_benches` prints, the comment and prelude, the units in order, the criterion group over the joined slugs and `criterion_main!`; Codegen.PrintLangBenches is proved to print it, and Codegen.BenchModuleShape and Codegen.OneBenchPerCase state its form |
| Codegen.Split | scripts/test_codegen/test_codegen.py:140 | splitting at ", " (the inverse of the join) always gives at least one part |
| Codegen.SplitPlain | scripts/test_codegen/test_codegen.py:140 | a text without commas splits into itself |
| Codegen.SplitSeparated | scripts/test_codegen/test_codegen.py:140 | splitting "x, rest" gives x followed by the parts of rest |
| Codegen.JoinSplitRoundTrip | scripts/test_codegen/test_codegen.py:140-141 | the group line lists exactly the slugs in order: splitting the ", "-joined text gives them back |
| Codegen.OneBenchPerCase | scripts/test_codegen/test_codegen.py:132-139 | the bench module holds exactly one `fn` line per entry, opening its unit, and no others |
| Codegen.FileSystem.constructor | scripts/test_codegen/test_codegen.py:107-111 | the directory tree starts with the given directories and files |
| Codegen.GenerateFiles | scripts/test_codegen/test_codegen.py:107-118 | the directory is created (and announced) only when missing; the files become the ordered writes of one fixture per entry; one "Wrote file" line per entry |
| Codegen.WriteAllPaths | scripts/test_codegen/test_codegen.py:112-117 | the written paths are the old ones plus one `<dir>/<slug>.lang` per entry, and no other file changes |
| Codegen.WriteAllContents | scripts/test_codegen/test_codegen.py:115-117 | each fixture holds the comment, "\n" and the source of the last entry with that slug (a later colliding entry overwrites) |
| Codegen.WriteAll | scripts/test_codegen/test_codegen.py:112-117 | no contract of its own: the files after one fixture write per entry, in table order; Codegen.WriteAllPaths and Codegen.WriteAllContents state which paths it writes and what each holds |
| Codegen.FixturePathInjective | scripts/test_codegen/test_codegen.py:113-114 | distinct slugs give distinct fixture paths |
| Codegen.FixturePath | scripts/test_codegen/test_codegen.py:113-114 | no contract of its own: `<dir>/<slug>.lang`; Codegen.FixturePathInjective shows that distinct slugs give distinct paths |
| Codegen.DistinctSlugsOneFileEach | scripts/test_codegen/test_codegen.py:112-117 | with pairwise distinct slugs, a fresh directory gets exactly one file per entry |
| Codegen.SetOfDistinctImages | scripts/test_codegen/test_codegen.py:112-117 | distinct slugs give as many fixture paths as entries |
| Errors.ErrorMessage | lib/error.rs:13-24 | each template frames its payload with its fixed prefix and suffix ("expected a T value", "expected E expression", "expected S statement", "tried to index an array with an incorrect type 'T'") |
| Errors.ParseErrorMessage | lib/error.rs:13-24 | no contract of its own: reads a rendered message back into its template and payload, telling the templates apart by their last character; the round-trip lemmas show it inverts Errors.ErrorMessage |
| Errors.ValueTypeRoundTrip | lib/error.rs:16 | the payload of an "expected a T value" message can be read back |
| Errors.ExprRoundTrip | lib/error.rs:17 | the payload of an "expected E expression" message can be read back |
| Errors.StmtRoundTrip | lib/error.rs:18 | the payload of an "expected S statement" message can be read back |
| Errors.IndexTypeRoundTrip | lib/error.rs:19-22 | the payload of an incorrect-index-type message can be read back |
| Errors.ErrorMessageRoundTrip | lib/error.rs:13-24 | every rendered message determines its template and payload |
| Errors.ErrorMessageInjective | lib/error.rs:13-24 | two messages are equal exactly when template and payload are |
| Errors.DisplayRuntimeErrorType | lib/error.rs:32-53 | the display of every kind of runtime error ends with its reason |
| Errors.DisplayFlow | lib/error.rs:56-60 | no contract of its own: `ControlFlow::Break` displays as "Break" |
| Errors.DisplayLangError | lib/error.rs:52-86 | a runtime `GenericError` displays as "Runtime error: " followed by its bare reason |
| Errors.EscapeChar | lib/error.rs:91-101 | a character of a `{:?}`-rendered reason is written as itself exactly when it is not the quote, the backslash or a control character; every escape starts with a backslash |
| Errors.UnescapeEscapeChar | lib/error.rs:91-101 | unescaping undoes the escape of one character, whatever text follows it |
| Errors.UnescapeHexEscape | lib/error.rs:91-101 | a `\u{..}` escape of a control character reads back as that character |
| Errors.ControlCharactersEscapeInHex | lib/error.rs:91-101 | U+0001 renders as `"\u{1}"` and U+007F as `"\u{7f}"`: lower-case hex without leading zeros |
| Errors.DebugString | lib/error.rs:91-101 | a `{:?}`-rendered reason is enclosed in quotes, and the text between them unescapes to the reason |
| Errors.UnescapeEscapeBody | lib/error.rs:95-96 | the `{:?}` escaping of a reason can be undone |
| Errors.QuotedAfterTag | lib/error.rs:91-101 | a tag followed by a `{:?}`-rendered reason is the tag, a quote, the escaped reason and a closing quote, and unescaping the inside gives the reason back |
| Errors.DebugLangError | lib/error.rs:91-101 | no contract of its own: `Debug` for `LangError`; Errors.DebugLangErrorShape states its form for each kind of error |
| Errors.DebugLangErrorShape | lib/error.rs:62-101 | `Debug`: a control-flow error reads "Break must be used within a loop", a runtime error is "runtime error " and its reason, and internal and parser errors are "IIE " / "parser error " followed by the quoted reason, which reads back |
| Errors.NewParserError | lib/error.rs:110-112 | builds a `ParserError` carrying the reason unchanged |
| Errors.NewIieError | lib/error.rs:114-116 | builds an `InternalError` carrying the reason unchanged |
| Errors.NewRuntimeError | lib/error.rs:118-120 | builds a `RuntimeError` carrying the subtype unchanged |
| Types.PrimitiveEqOnlyItself | lib/token.rs:101-127 | `I32`, `I64`, `F32`, `F64`, `String` and `Bool` each equal only themselves, in either argument order |
| Types.NeverEqual | lib/token.rs:105-133 | `Fn`, `Trait` and `SelfIndex` equal nothing, themselves included |
| Types.UserTypeEquality | lib/token.rs:142-151 | a user type equals `Unit` in both directions, and another user type exactly when the names agree |
| Types.TypeEqNotTransitive | lib/token.rs:142-151 | `User(A) == Unit == User(B)` while `User(A) != User(B)`: the equality is not transitive |
| Types.ArrayEquality | lib/token.rs:134-137 | two array annotations are equal exactly when their element annotations are |
| Types.TypeEqSymmetric | lib/token.rs:98-154 | the hand-written equality is symmetric |
| Types.TypeEqReflexiveExactly | lib/token.rs:98-154 | an annotation equals itself exactly when it contains no `Fn`, `Trait` or `SelfIndex` |
| Types.TypeEq | lib/token.rs:98-154 | no contract of its own: the hand-written `PartialEq`; the lemmas above state which annotations it equates, that it is symmetric, and that it is neither reflexive nor transitive |
| Types.DisplayTypeRoundTrip | lib/token.rs:79-95 | `Display` (`Array<..>`, `()`, bare user names) loses nothing: a rendering with plain user names reads back as the annotation |
| Types.DisplayType | lib/token.rs:79-95 | no contract of its own: `Display` for annotations; Types.DisplayTypeRoundTrip shows that it loses nothing on annotations with plain user names |
| Types.GetArrayElementType | lib/token.rs:27-41 | succeeds exactly for arrays (`is_array`) and returns the element type; otherwise the internal error "failed to get array element type" |
| Types.TokenTypeEqProperties | lib/token.rs:158-213 | the derived token-type equality is constructor equality, except that `Type` payloads are compared with the annotation equality |
| Types.TokenTypeEq | lib/token.rs:158-213 | no contract of its own: the derived `PartialEq` for token types; Types.TokenTypeEqProperties states it |
| Types.DisplayTokenType | lib/token.rs:227-284 | no contract of its own: `Display` for token types, the keyword or symbol of each, "identifier", "string", "float", "integer", "Type(<annotation>)" and "EoF" |
| Types.FromTokenType | lib/token.rs:43-50 | returns the inner annotation exactly for a `Type` token type; any other gives the parser error "failed type annotation extraction" |
| Types.ToTypeAnnotation | lib/token.rs:216-224 | returns the inner annotation exactly for a `Type` token type; any other gives a parser error naming the token type |
| Types.ConversionsAgree | lib/token.rs:216-224 | the two conversions accept the same token types and return the same annotation |
| Types.CheckTokenType2 | lib/token.rs:53-66 | accepts exactly `Type(_)` and `Identifier`; any other token type gives the error built from the token's line, lexeme and "invalid type annotation expected a type annotation, found '<type>'" |
| Span.New | lib/syntax/span.rs:43-50 | stores input, offset, line and column verbatim |
| Span.CountNewlines | lib/syntax/span.rs:134-135 | the newline count is at most the length, and zero exactly when the text has no '\n' |
| Span.CountNewlinesAppend | lib/syntax/span.rs:134-135 | newlines of a concatenation add up |
| Span.SliceRange | lib/syntax/span.rs:118-144 | `slice(start..end)` holds the sub-input; from 0 it keeps offset, line and column; skipping k > 0 units adds k to the offset, the skipped newlines to the line and resets the column to 0 |
| Span.SliceTo | lib/syntax/span.rs:125-145 | `slice(..n)` holds the prefix and keeps offset, line and column |
| Span.SliceFrom | lib/syntax/span.rs:122-148 | `slice(k..)` holds the suffix; from 0 it returns the span unchanged; otherwise offset + k, line + skipped newlines, column 0 |
| Span.SliceFull | lib/syntax/span.rs:122-149 | `slice(..)` returns the span unchanged |
| Span.SliceFromTwice | lib/syntax/span.rs:131-138 | slicing from a and then from b is slicing from a + b (offset, line and column agree) |
| Span.Offset | lib/syntax/span.rs:103-110 | the distance from the first span's offset to the second's |
| Span.OffsetOfSlice | lib/syntax/span.rs:103-138 | `offset(s, s.slice(k..)) == k` |
| Span.Take | lib/syntax/span.rs:162-164 | `take(n)` is `slice(..n)` |
| Span.TakeSplit | lib/syntax/span.rs:166-168 | `take_split(n)` is `(slice(n..), slice(..n))`, the remainder first |
| Span.TakeSplitPartitions | lib/syntax/span.rs:166-168 | the taken prefix (of length n) followed by the remainder is the input |
| Span.Position | lib/syntax/span.rs:74-79 | the first index where the predicate holds, or none when it holds nowhere |
| Span.SplitAtPosition | lib/syntax/span.rs:203-211 | splits before the first unit satisfying the predicate: no unit of the prefix satisfies it and the rest starts with one that does (prefix and rest rebuild the input); `Incomplete` exactly when no unit does |
| Span.SplitAtPosition1 | lib/syntax/span.rs:213-226 | an error exactly when the predicate holds at the first unit, `Incomplete` exactly when it holds nowhere; otherwise splits before the first unit satisfying it: a non-empty prefix none of whose units satisfies it, and a rest that starts with one that does |
| Span.SplitAtPositionComplete | lib/syntax/span.rs:228-239 | always succeeds: the prefix is the longest run where the predicate fails, the rest starts where it holds |
| Span.SplitAtPosition1Complete | lib/syntax/span.rs:241-260 | an error exactly when the input is empty or the predicate holds at position 0; otherwise the longest non-empty run, and the whole input when the predicate never holds |
| SyntaxToken.ParseDigits | lib/syntax/token.rs:43-46 | the digit loop of `parse::<i64>`: a success read only decimal digits and stays in the `i64` range with the sign's direction; overflow is reported in the sign's direction |
| SyntaxToken.ParseI64 | lib/syntax/token.rs:43-46 | `parse::<i64>` yields an `i64`, and reports an empty string exactly for "", "+" and "-" |
| SyntaxToken.ParseBool | lib/syntax/token.rs:66-70 | `parse::<bool>` accepts exactly "true" and "false" with the matching value, and otherwise fails with the standard description |
| SyntaxToken.TruncateToI32 | lib/syntax/token.rs:47-48 | `as i32` keeps values already in range and is otherwise congruent modulo 2^32 |
| SyntaxToken.GetValue | lib/syntax/token.rs:39-75 | a string lexeme becomes `String(lexeme)`; an integer lexeme that parses as `i64` becomes `Int32` of its truncation, otherwise a parser failure with the standard description; a boolean lexeme yields `Boolean` for "true"/"false" and fails otherwise; floats are not modelled |
| SyntaxToken.IntegerLexemesAreInt32 | lib/syntax/token.rs:47-51 | the range test compares the already truncated value, so an integer lexeme never becomes `Int64` |
| SyntaxToken.ParseDigitsAppend | lib/syntax/token.rs:43 | parsing the digits of s + t parses s and carries its value on into t |
| SyntaxToken.DigitCharValue | lib/syntax/token.rs:43 | the decimal digit character for d stands for d |
| SyntaxToken.ParseLastDigit | lib/syntax/token.rs:43 | a final digit that keeps the value in the `i64` range is taken on: ten times the accumulator plus (or minus) the digit |
| SyntaxToken.ParseNatToString | lib/syntax/token.rs:43 | the decimal digits of n parse back to n (or -n) whenever that fits in an `i64` |
| SyntaxToken.ParseI64RoundTrip | lib/syntax/token.rs:43 | every `i64` printed in decimal parses back to itself |
| SyntaxToken.IntegerValueRoundTrip | lib/syntax/token.rs:42-51 | an `i32` literal becomes exactly that `Int32`; a wider `i64` literal wraps around to its low 32 bits |
| SyntaxToken.New2 | lib/syntax/token.rs:77-90 | the token keeps its type, its value is the type's display text, and all three spans are the lexeme at offset 0, line 0, column 0 |
| Scanner.LeadingBlanks | lib/syntax/scanner.rs:81-83 | the count of leading whitespace characters: every character before it is whitespace and the next one, if any, is not |
| Scanner.SkipSpace | lib/syntax/scanner.rs:81-83 | skipping whitespace leaves a suffix of the input that is empty or starts with a non-whitespace character |
| Scanner.SkipSpaceIsMultispace0 | lib/syntax/scanner.rs:81-83 | whitespace skipping is the complete split-at-first-non-whitespace that multispace0 performs |
| Scanner.Tag | lib/syntax/scanner.rs:82 | tag succeeds exactly when the literal is a prefix of the input; the output is that prefix and the rest is what follows it; failure is a plain recoverable error |
| Scanner.Alt | lib/syntax/scanner.rs:168-178 | alternation returns the first branch that did not fail recoverably, and a plain error when both did |
| Scanner.LexFixed | lib/syntax/scanner.rs:78-98 | a fixed-token lexer succeeds exactly when its literal follows the leading whitespace; the token has the given type, the literal as lexeme and string value, the trailing whitespace is consumed and input strictly shrinks |
| Scanner.FirstMatch | lib/syntax/scanner.rs:186-233 | the index of the first table entry whose literal prefixes the text, with no earlier entry matching; none exactly when no entry matches |
| Scanner.LexTable | lib/syntax/scanner.rs:186-233 | an alternation of fixed-token lexers succeeds exactly when some literal matches, and strictly consumes input |
| Scanner.LexTableFirstMatch | lib/syntax/scanner.rs:186-233 | an alternation of fixed-token lexers answers with the first entry that matches |
| Scanner.PrimitiveTypesAreTypes | lib/syntax/scanner.rs:155-166 | every primitive type lexer produces a Type token, and its text is the display string of that token's annotation |
| Scanner.LexTableOfTypes | lib/syntax/scanner.rs:155-166 | an alternation whose every entry makes a type token yields only type tokens |
| Scanner.AsU8 | lib/syntax/scanner.rs:235-237 | the `as u8` cast yields a byte, equal to the code point for code points below 256 |
| Scanner.AsWrittenAcceptsNonAscii | lib/syntax/scanner.rs:235-237 | through the truncating cast, 'š' counts as an identifier character and 'İ' as a digit, although neither is ASCII |
| Scanner.CharClassesAgreeOnBytes | lib/syntax/scanner.rs:235-237 | on characters below 256 the as-written and the ASCII character classes agree |
| Scanner.AllowableIdentChar | lib/syntax/scanner.rs:235-237 | every identifier character is ASCII and also passes the test as written; corrected behaviour of Findings row 2, as written in Scanner.AllowableIdentCharAsWritten |
| Scanner.LisDigit | lib/syntax/scanner.rs:342-344 | every number character is ASCII and also passes the test as written; corrected behaviour of Findings row 2, as written in Scanner.LisDigitAsWritten |
| Scanner.LexRun | lib/syntax/scanner.rs:241-243 | take_while1 after whitespace succeeds exactly when the first non-blank character qualifies; it takes the longest non-empty run of qualifying characters and skips the whitespace after it |
| Scanner.LexIdent | lib/syntax/scanner.rs:240-270 | an identifier token is a non-empty maximal run of ASCII letters, digits and '_', is not a keyword and does not start with a digit; the only raised errors are the keyword and leading-digit ones; corrected behaviour of Findings row 2, as written in Scanner.AllowableIdentCharAsWritten and Scanner.LisDigitAsWritten |
| Scanner.DigitToken | lib/syntax/scanner.rs:350-381 | a lone "." is the "only '.'" error; a run with a dot is a float; otherwise the integer token's value is the parsed i64, and a parse failure becomes an unrecoverable failure |
| Scanner.LexDigit | lib/syntax/scanner.rs:346-381 | no digit run is a plain error; otherwise the result is classified from the run of digits and dots, and success consumes input; corrected behaviour of Findings row 2, as written in Scanner.AllowableIdentCharAsWritten and Scanner.LisDigitAsWritten |
| Scanner.LexType | lib/syntax/scanner.rs:328-340 | a success is a Type token that consumes input, whose annotation is i32, i64, f32, f64, bool, String or an array of these, and whose value is that annotation's display string; Scanner.LexTypeDisplayRoundTrip states which annotation a text yields |
| Scanner.LexPrimitive | lib/syntax/scanner.rs:156-160 | the five primitive type alternatives succeed exactly when one of `i32`, `i64`, `f32`, `f64`, `bool` starts the input after blanks; the token is then a Type token of a lexable annotation whose value is that annotation's display string |
| Scanner.LexArray | lib/syntax/scanner.rs:301-326 | succeeds exactly when `Array<` is followed by text that lexes as a type and then `>`; the token is `Type(Array(t))` for that element type t, with the value "Array<" + t + ">" |
| Scanner.LexTypeOfPrimitive | lib/syntax/scanner.rs:329-337 | `lex_type` tries the primitive type lexers first: when one matches, its token is the result |
| Scanner.LexTypeOfArray | lib/syntax/scanner.rs:329-337 | when no primitive type matches and `lex_array` does, its token is the result |
| Scanner.LexTypeOfString | lib/syntax/scanner.rs:329-337 | when neither a primitive type nor `lex_array` matches, `lex_type` tries `String` |
| Scanner.LexArrayRoundTrip | lib/syntax/scanner.rs:301-326 | `lex_array` on the display string of an array type t (followed by text not starting with a blank) yields `Type(t)` with value "Array<" + element + ">" and stops right after the text |
| Scanner.LexTypeDisplayRoundTrip | lib/syntax/scanner.rs:328-340 | `lex_type` on the display string of any annotation it can produce, followed by text not starting with a blank, yields `Type(t)` for exactly that annotation, with the display string as its value, and stops right after it |
| Scanner.LexKeyword | lib/syntax/scanner.rs:186-193 | the keyword alternation either fails recoverably or consumes input |
| Scanner.LexComparison | lib/syntax/scanner.rs:221-233 | the comparison alternation either fails recoverably or consumes input |
| Scanner.LexSymbol | lib/syntax/scanner.rs:195-219 | the symbol alternation either fails recoverably or consumes input |
| Scanner.LexStringContent | lib/syntax/scanner.rs:272-292 | string content is a non-empty run without '"', returned as a string literal token whose value is that content |
| Scanner.LexString | lib/syntax/scanner.rs:294-299 | a quoted string lexes to a string literal token and consumes input |
| Scanner.EntryIsFirstSuccess | lib/syntax/scanner.rs:168-178 | entry tries digit, type, identifier, keyword, string and symbol lexers in that order and answers with the first that does not fail recoverably |
| Scanner.Entry | lib/syntax/scanner.rs:168-178 | no contract of its own: `alt` over the digit, type, identifier, keyword, string and symbol lexers; Scanner.EntryIsFirstSuccess states the order; corrected behaviour of Findings row 2, as written in Scanner.AllowableIdentCharAsWritten and Scanner.LisDigitAsWritten |
| Scanner.Many1 | lib/syntax/scanner.rs:180-184 | many1 yields at least one item and extends the items collected so far |
| Scanner.Many1StopsAtError | lib/syntax/scanner.rs:181 | many1 stops only where the item parser fails recoverably |
| Scanner.Many1FailureComesFromItem | lib/syntax/scanner.rs:181 | an unrecoverable failure of many1 is one raised by the item parser |
| Scanner.Many1FirstItem | lib/syntax/scanner.rs:181 | many1 fails when the first item errors, fails when it consumes nothing, and passes on a first-item failure |
| Scanner.EofToken | lib/syntax/scanner.rs:182 | the token appended at the end has type Eof |
| Scanner.LexProgram | lib/syntax/scanner.rs:180-184 | a program lexes exactly when many1(entry) does, to its tokens followed by Eof; errors pass through unchanged; corrected behaviour of Findings row 2, as written in Scanner.AllowableIdentCharAsWritten and Scanner.LisDigitAsWritten |
| Scanner.LexProgramStops | lib/syntax/scanner.rs:180-184 | after a successful program lex no further entry token can be lexed from the rest |
| Scanner.ComparisonPrefersTwoCharacters | lib/syntax/scanner.rs:221-233 | a two-character comparison operator wins over its one-character prefix |
| Scanner.LessEqualIsOneToken | lib/syntax/scanner.rs:637-643 | "<=" lexes as one LessEqual token with lexeme "<=" |
| Scanner.KeywordIsNotIdentifier | lib/syntax/scanner.rs:244-250 | a word that is a keyword is refused by the identifier lexer with the keyword error |
| Scanner.KeywordsStartWithLetters | lib/syntax/scanner.rs:52-76 | every keyword is non-empty and starts with a lower-case letter |
| Scanner.LexIdentRejectsDigits | lib/syntax/scanner.rs:251-257 | an identifier starting with a digit is refused with the leading-digit error |
| Scanner.LoneDotIsNotANumber | lib/syntax/scanner.rs:351-357 | a digit run that is only "." raises the "only '.'" error |
| Scanner.DotMakesAFloat | lib/syntax/scanner.rs:358-368 | a digit run containing a dot, other than a lone ".", is lexed as a float |
| Scanner.TokenIter.constructor | lib/syntax/scanner.rs:27-33 | a new iterator covers the whole slice with window length 3 from position 0 |
| Scanner.TokenIter.Next | lib/syntax/scanner.rs:35-49 | next yields the window at the current position and advances only when it yielded one |
| Scanner.WindowAt | lib/syntax/scanner.rs:35-49 | a yielded window starts at the position and stays inside the slice |
| Scanner.WindowsCoverSlice | lib/syntax/scanner.rs:35-49 | every position before n-2 gets a full window of 3, position n-2 gets a window of 2, and later positions get none |
| Scanner.FixedToken | lib/syntax/scanner.rs:401-413 | retyping keeps span and value, and never creates or destroys an annotation start or a ')' |
| Scanner.Kept | lib/syntax/scanner.rs:414-422 | removing the unit-annotation ')' tokens never lengthens the prefix |
| Scanner.KeepStep | lib/syntax/scanner.rs:414-422 | the `retain` test on a retyped token drops it exactly when it is a removed `)` |
| Scanner.RetypeWindow | lib/syntax/scanner.rs:398-413 | one window retypes the token after an annotation start and reports whether the ')' that follows is to be removed |
| Scanner.RetypedWindowUntouched | lib/syntax/scanner.rs:398-413 | before the window at a position is handled, the tokens it reads still have their original types |
| Scanner.RetypedPrefixGrows | lib/syntax/scanner.rs:398-413 | handling one more window retypes exactly its second token, extending the retyped prefix by one |
| Scanner.MarkedGrows | lib/syntax/scanner.rs:409-412 | handling one more window records its third token exactly when that `)` is to be removed |
| Scanner.RetypedAll | lib/syntax/scanner.rs:396-413 | once every window is handled, every token is retyped and exactly the removed `)` indices are recorded |
| Scanner.RetypeWindows | lib/syntax/scanner.rs:396-413 | the window loop retypes every token as the specification says and records exactly the indices of the ')' tokens to remove |
| Scanner.FixupTypes | lib/syntax/scanner.rs:396-424 | fixup_types turns the token list into its specified fixed-up form and returns Ok |
| Scanner.RemovedCount | lib/syntax/scanner.rs:414-422 | no more tokens are removed than were considered |
| Scanner.KeptLength | lib/syntax/scanner.rs:414-422 | the fixed-up list is shorter by exactly the number of removed tokens |
| Scanner.KeptContainsSurvivors | lib/syntax/scanner.rs:414-422 | every token that is not removed appears, retyped, in the result |
| Scanner.KeptOnlySurvivors | lib/syntax/scanner.rs:414-422 | every token of the result is a retyped token that was not removed |
| Scanner.FixedTokenChanges | lib/syntax/scanner.rs:401-413 | a token changes only right after an annotation start: an identifier becomes a user type named after it, and a '(' followed by a removed ')' becomes the unit type |
| Scanner.FixupSpec | lib/syntax/scanner.rs:396-424 | no contract of its own: the tokens `fixup_types` leaves, each retyped and with the removed `)`s dropped; Scanner.FixupTypes is proved to produce it, and the lemmas above state what it keeps and changes |
| Scanner.UnitAnnotationExample | lib/syntax/scanner.rs:401-422 | ": ( )" becomes ": ()" with one unit Type token |
| Scanner.ScanResult | lib/syntax/scanner.rs:426-435 | scanning succeeds exactly when the program lexed; lex errors and failures become scan errors |
| Scanner.ScanEndsWithEof | lib/syntax/scanner.rs:426-435 | a successful scan ends with the Eof token |
| Scanner.ScanSpec | lib/syntax/scanner.rs:426-435 | no contract of its own: lexing from offset 0, line 1, column 0, then the fix-up; Scanner.Scanner.ScanTokens is proved to return it and Scanner.ScanEndsWithEof states its last token; corrected behaviour of Findings row 2, as written in Scanner.AllowableIdentCharAsWritten and Scanner.LisDigitAsWritten |
| Scanner.Scanner.constructor | lib/syntax/scanner.rs:389-394 | a new scanner holds the source and no tokens |
| Scanner.Scanner.ScanTokens | lib/syntax/scanner.rs:426-435 | scan_tokens returns the lexed, fixed-up tokens of the whole source, or the lexing error; corrected behaviour of Findings row 2, as written in Scanner.AllowableIdentCharAsWritten and Scanner.LisDigitAsWritten |
| Scanner.FinishScan | lib/syntax/scanner.rs:428-434 | finishing applies the fix-up to a successful lex and converts errors |
| Scanner.LastTokenSurvivesFixup | lib/syntax/scanner.rs:396-424 | a token list ending in Eof is safe for fix-up and still ends in Eof afterwards |
| Ast.NewLiteralExpr | lib/ast/expr.rs:119-123 | a new literal expression carries exactly the given typed value |
| Ast.UnitLiteral | lib/parser.rs:513-518 | the literal put in a value-less `return` holds the unit value with the unit type |
| Ast.UnitLiteralRecognised | lib/resolver.rs:281-287 | the unit literal compares equal to itself, so a value-less `return` is recognised and its value is not resolved |
| Ast.AsAssign | lib/ast/expr.rs:125-136 | projecting an assignment succeeds exactly on an assignment expression and gives back its contents; otherwise the internal error "expected assignment expression" |
| Ast.AssignIntoExpr | lib/ast/expr.rs:138-142 | converting an assignment into an expression yields an assignment expression |
| Ast.AssignRoundTrip | lib/ast/expr.rs:125-142 | projecting the expression built from an assignment gives that assignment back |
| Ast.AssignProjectionRoundTrip | lib/ast/expr.rs:125-142 | rebuilding an expression from its successful assignment projection gives the same expression |
| Ast.AsCall | lib/ast/expr.rs:144-155 | the call projection succeeds exactly on a call expression; otherwise "expected call expression" |
| Ast.AsGet | lib/ast/expr.rs:157-168 | the get projection succeeds exactly on a get expression; otherwise "expected get expression" |
| Ast.AsUnary | lib/ast/expr.rs:170-181 | the unary projection succeeds exactly on a unary expression; otherwise "expected unary expression" |
| Ast.AsLogical | lib/ast/expr.rs:183-194 | the logical projection succeeds exactly on a logical expression; otherwise "expected logical expression" |
| Ast.AsSet | lib/ast/expr.rs:196-207 | the set projection succeeds exactly on a set expression; otherwise "expected set expression" |
| Ast.AsSetArrayElement | lib/ast/expr.rs:209-220 | the array-element-set projection succeeds exactly on that expression kind; otherwise "expected set array element expression" |
| Ast.AsArray | lib/ast/expr.rs:222-233 | the array projection succeeds exactly on an array literal; otherwise "expected array expression" |
| Ast.AsIndex | lib/ast/expr.rs:235-246 | the index projection succeeds exactly on an index expression; otherwise "expected index expression" |
| Ast.NewVariableData | lib/ast/stmt.rs:31-38 | variable data holds exactly the given name token and annotation |
| Ast.IntoImpl | lib/ast/stmt.rs:133-141 | the owning impl conversion succeeds exactly on an impl statement; otherwise an internal error with an empty message |
| Ast.AsImpl | lib/ast/stmt.rs:143-153 | the borrowing impl projection succeeds exactly on an impl statement; otherwise "expected impl statement" |
| Ast.ImplProjectionsAgree | lib/ast/stmt.rs:133-153 | the owning and borrowing impl conversions succeed on the same statements with the same result, and differ only in their error message |
| Ast.AsImplTrait | lib/ast/stmt.rs:155-165 | the impl-trait projection succeeds exactly on an impl-trait statement; otherwise "expected impl trait statement" |
| Ast.AsTrait | lib/ast/stmt.rs:167-177 | the trait projection succeeds exactly on a trait statement; otherwise "expected trait statement" |
| Ast.AsStruct | lib/ast/stmt.rs:179-189 | the struct projection succeeds exactly on a struct statement; otherwise "expected struct statement" |
| Parser.CheckAt | lib/parser.rs:354-360 | `check` is false at the end of input; when true the cursor is before the last token |
| Parser.AdvancePos | lib/parser.rs:372-377 | `advance` moves the cursor by exactly one, except at the end of input where it stays |
| Parser.AdvanceToken | lib/parser.rs:372-393 | `advance` returns the token it stepped over, or the previous token when already at the end |
| Parser.MatchesPos | lib/parser.rs:342-350 | `matches` advances by one exactly when one of the listed types is at the cursor, and otherwise leaves it |
| Parser.MatchPos | lib/parser.rs:342-350 | `matches` with one token type advances by one exactly when that type is at the cursor |
| Parser.MatchPosIsMatchesPos | lib/parser.rs:342-350 | the single-type form is `matches` on a one-element list |
| Parser.PopExpectAt | lib/parser.rs:333-338 | `pop_expect` succeeds exactly when the expected type is at the cursor, returning that token and advancing by one; otherwise it fails at the current token with the given message and does not move |
| Parser.SynchronizeAt | lib/parser.rs:395-415 | `synchronize` stops after a ';', before a statement keyword, or at the end of input, never moving back |
| Parser.SkipToBoundary | lib/parser.rs:397-414 | the loop of `synchronize` stops after a ';', before a statement keyword, or at the end |
| Parser.CheckTypeToken | lib/parser.rs:571 | a type annotation token is accepted exactly when it is a type or an identifier, the verdict of `check_token_type2`; the error is the one `Lang.ErrorIr` is taken to build (see "Left out") |
| Parser.CheckTypeTokenIsCheckTokenType2 | lib/token.rs:53-66 | the parser's check is `check_token_type2` applied to the token's type, line and lexeme, with `Lang.ErrorIr` standing for `Lang::error_ir` |
| Parser.CheckTypeTokenVerdict | lib/token.rs:53-66 | whatever error builder stands for `Lang::error_ir`, the parser accepts the same tokens: the verdict does not rest on the assumed builder |
| Parser.PrefixKept | lib/parser.rs:173-181 | a loop result that extends the accumulator by one item also extends the accumulator before it |
| Parser.PreviousAt | lib/parser.rs:379-393 | `previous` is the token just before the cursor |
| Parser.LiteralOf | lib/parser.rs:199-213 | a literal expression holds exactly the given value and type |
| Parser.LevelOperators | lib/parser.rs:22-145 | every binary precedence level has at least one operator, none of them a type token |
| Parser.OpLevel | lib/parser.rs:22-145 | an operator's level is the one whose operator list contains it |
| Parser.OperatorsHaveTheirLevel | lib/parser.rs:22-145 | each operator in a level's list has that level: the levels do not share operators |
| Parser.NodeLevel | lib/parser.rs:22-145 | a node below the atom level is a binary or logical operator node |
| Parser.LevelNode | lib/parser.rs:22-145 | `or` and `and` build logical nodes, the other levels binary nodes, keeping left operand, operator and right operand, at the operator's own level |
| Parser.MatchedOperatorLevel | lib/parser.rs:24-145 | an operator matched at a level belongs to that level |
| Parser.ChainIsLeftNested | lib/parser.rs:24-31 | `a op b op c` built by the loop, `(a op b) op c`, is left-nested |
| Parser.RightNestingIsNotLeftNested | lib/parser.rs:24-31 | `a op (b op c)`, and any tree with such a node on its left chain, is not left-nested, so the loop never builds it |
| Parser.ExpressionAt | lib/parser.rs:18-20 | an expression parse never moves back, and a successful one consumes tokens |
| Parser.AssignTarget | lib/parser.rs:50-83 | `x = v` becomes an assignment, `o.f = v` a field set, `a[i] = v` an element set; any other target is "Invalid assignment target" at the '=' |
| Parser.AssignmentAt | lib/parser.rs:50-83 | assignment parsing never moves back and a success consumes tokens; what it builds is stated by Parser.AssignmentWithEqual and Parser.AssignmentWithoutEqual |
| Parser.CombineAssign | lib/parser.rs:55-82 | the value's error is passed on unchanged; otherwise the result is the assignment target applied to the parsed value and the '=' token, at the value's end |
| Parser.AssignmentWithoutEqual | lib/parser.rs:50-52 | when the `or` level fails or no '=' follows it, assignment is exactly that parse |
| Parser.AssignmentWithEqual | lib/parser.rs:50-83 | when '=' follows a successful `or` parse e, the result is AssignTarget(e, the assignment parsed after the '=', the '=' token), and a failing value's error is passed on |
| Parser.AssignmentToVariable | lib/parser.rs:50-60 | `x = rest` is the assignment of the value parsed from `rest` to `x` |
| Parser.AssignmentIsRightAssociative | lib/parser.rs:50-60 | `x = y = rest` is `x = (y = rest)`: the value assigned to x is the assignment of rest to y |
| Parser.VariableBeforeEqual | lib/parser.rs:22-145 | an identifier followed by '=' parses at every binary level to the variable it names, one token long |
| Parser.LevelAt | lib/parser.rs:22-145 | a precedence level parses to a tree nested to the left (`LeftNested`): along the chain of the level's own operator nodes down the left operands, every right operand binds tighter, so `a - b - c` is `(a - b) - c` and never `a - (b - c)` |
| Parser.OperandAt | lib/parser.rs:22-145 | the operand of a level binds tighter than that level |
| Parser.LevelLoopAt | lib/parser.rs:24-31 | the operator loop keeps the whole tree left-nested (`LeftNested`, recursive down the left operands), and returns the left operand unchanged when no operator follows |
| Parser.UnaryAt | lib/parser.rs:147-154 | a unary parse consumes tokens and never yields a binary or logical node |
| Parser.CallAt | lib/parser.rs:156-170 | a call parse consumes tokens and never yields a binary or logical node |
| Parser.CallLoopAt | lib/parser.rs:158-168 | the loop never moves back and yields either the callee itself (when neither '(' nor '.' follows) or a call or property-get node, never an operator node |
| Parser.CallStepAt | lib/parser.rs:159-164 | one loop step after '(' or '.' consumes tokens and yields a call or property-get node |
| Parser.PropertyAt | lib/parser.rs:161-164 | after '.', an identifier makes a `Get` of that name on the target, consuming it; otherwise "Expected property name after '.'" with the cursor left alone |
| Parser.FinishCallAt | lib/parser.rs:172-191 | `finish_call` yields a call of the given callee |
| Parser.CommaSeparatedAt | lib/parser.rs:175-180 | a comma-separated list has at least one more element than before, keeping the earlier ones |
| Parser.LiteralAnnotation | lib/parser.rs:214-252 | a number literal takes the narrow type exactly when a ';' follows it and the token three before the ';' is that type annotation; otherwise the wide type |
| Parser.ArrayTypeToken | lib/parser.rs:303-309 | an array literal's annotation is the token three before the cursor when that token is a type, and absent otherwise |
| Parser.PrimaryAt | lib/parser.rs:193-213 | a success consumes tokens and is not an operator node; a failure that consumed nothing is "Expected expression" at the current token; the literal each keyword gives is stated by Parser.PrimaryKeywordLiterals |
| Parser.PrimaryValueAt | lib/parser.rs:214-258 | a success consumes tokens and is not an operator node; a failure that consumed nothing is "Expected expression"; the value and annotation of each literal are stated by Parser.PrimaryValueLiterals |
| Parser.PrimaryKeywordLiterals | lib/parser.rs:193-213 | `self` parses to the self expression of its token, `false` and `true` to boolean literals typed bool, and `()` to the unit literal, each one token long |
| Parser.PrimaryValueLiterals | lib/parser.rs:214-258 | integer, float and string literals carry the token's value, one token long; integers are i32 or i64 and floats f32 or f64 as `LiteralAnnotation` chooses; strings are String |
| Parser.PrimaryCompoundAt | lib/parser.rs:259-331 | identifiers, groupings and array literals; otherwise "Expected expression" |
| Parser.IdentifierTailAt | lib/parser.rs:259-296 | an identifier followed by neither '[' nor '::' is a variable reference to it |
| Parser.EnumPathItemsAt | lib/parser.rs:274-283 | the path items are identifiers collected until a ';' or the end of input |
| Parser.ArrayLiteralAt | lib/parser.rs:302-328 | an array literal carries the annotation token the lookback finds |
| Parser.TrueLiteral | lib/parser.rs:491-495 | the condition of a `for` without one is the literal `true` |
| Parser.StatementAt | lib/parser.rs:525-550 | a statement parse never moves back and a success consumes tokens |
| Parser.StatementRestAt | lib/parser.rs:537-549 | the statement forms after `break`, `for` and `if` consume tokens on success |
| Parser.BreakStatementAt | lib/parser.rs:552-555 | `break` succeeds exactly when a ';' follows, with the error "expected ';' after 'break'" otherwise |
| Parser.TerminatedExpressionAt | lib/parser.rs:417-429 | an expression followed by ';' ends right after that ';' |
| Parser.PrintStatementAt | lib/parser.rs:417-421 | a print statement parses to a print node |
| Parser.ExpressionStatementAt | lib/parser.rs:423-429 | an expression statement parses to an expression node |
| Parser.ReturnStatementAt | lib/parser.rs:511-523 | a return keeps its keyword, and `return;` carries the unit literal |
| Parser.IfStatementAt | lib/parser.rs:431-447 | an if statement parses to an if node |
| Parser.IfBranchesAt | lib/parser.rs:436-446 | the if node keeps the parsed condition |
| Parser.WhileStatementAt | lib/parser.rs:449-455 | a while statement parses to a while node |
| Parser.ForDesugar | lib/parser.rs:479-508 | a `for` becomes `{ init; while (cond or true) { body; incr } }`, without the block when there is no initializer and without the increment block when there is no increment |
| Parser.ForStatementAt | lib/parser.rs:457-509 | a for statement consumes tokens on success |
| Parser.ForInitializerAt | lib/parser.rs:459-466 | an absent initializer is exactly an immediate ';', which is consumed |
| Parser.OptionalExpressionAt | lib/parser.rs:468-478 | an optional clause is absent exactly when the stop token is at the cursor, and then nothing is consumed |
| Parser.ForClausesAt | lib/parser.rs:468-509 | the `for` clauses consume tokens on success |
| Parser.ForIncrementAt | lib/parser.rs:474-509 | the result is the desugaring of the parsed clauses and body |
| Parser.TypedNameAt | lib/parser.rs:568-571 | `name : type` takes three tokens: an identifier, ':' and a type or identifier token; a missing name is reported with the given message |
| Parser.DefaultInitializer | lib/parser.rs:575-580 | a `let` without `=` is initialised with the default value of its declared type, and fails with the conversion error when the annotation is not a type |
| Parser.LetDeclarationAt | lib/parser.rs:567-590 | a `let` yields a variable statement with its name, its annotation token and an initializer |
| Parser.LetInitializerAt | lib/parser.rs:574-590 | without '=' the initializer is the default initializer of the annotation |
| Parser.BlockAt | lib/parser.rs:557-565 | a block ends right after its '}' |
| Parser.BlockLoopAt | lib/parser.rs:559-561 | the block loop keeps the statements already parsed and ends after '}'; corrected behaviour of Findings rows 3 and 4, as written in Parser.StructFieldsAsWrittenAt and Parser.EnumItemsAsWrittenAt |
| Parser.CloseBlockAt | lib/parser.rs:563 | a block closes exactly at '}', which is consumed |
| Parser.CommaRequiredBetweenFields | lib/parser.rs:806-821 | a field followed by neither ',' nor '}' makes the struct body fail with "need comma after field declaration" |
| Parser.TypedFieldOk | lib/parser.rs:805-808 | an identifier, ':' and a type token make a well-typed field name |
| Parser.AsWrittenFieldStep | lib/parser.rs:805-820 | one field of the as-written loop, with the comma count keeping up, continues after the field and its optional ',' with the field appended |
| Parser.AsWrittenAcceptsMissingComma | lib/parser.rs:809-821 | the as-written loop accepts `a: i32 b: i32, }`: one comma for two fields passes its count test |
| Parser.CommaRuleRefusesMissingComma | lib/parser.rs:806-821 | the comma rule refuses the same body at the field `b` |
| Parser.MissingCommaAcceptedAsWritten | lib/parser.rs:809-821 | on any field list shaped `a: i32 b: i32, }` the as-written comma count accepts the body while the comma rule refuses it |
| Parser.StructDeclarationAt | lib/parser.rs:795-826 | a struct declaration yields a struct node named after its identifier; corrected behaviour of Findings row 3, as written in Parser.StructFieldsAsWrittenAt |
| Parser.StructFieldsAt | lib/parser.rs:801-821 | the field loop keeps earlier fields and stops before '}' or at the end; corrected behaviour of Findings row 3, as written in Parser.StructFieldsAsWrittenAt |
| Parser.StructFieldsAsWrittenAt | lib/parser.rs:800-821 | the field loop as written, counting commas, keeps earlier fields; Parser.AsWrittenFieldStep and Parser.MissingCommaAcceptedAsWritten state how its count lets a missing ',' through |
| Parser.EnumDeclarationAt | lib/parser.rs:591-620 | an enum declaration yields an enum node named after its identifier; corrected behaviour of Findings row 4, as written in Parser.EnumItemsAsWrittenAt |
| Parser.EnumItemAt | lib/parser.rs:600-606 | an enum item is an identifier with an initializer exactly when '=' follows it |
| Parser.EnumItemsAt | lib/parser.rs:596-616 | the item loop keeps earlier items and stops before '}' or at the end; Parser.CommaRequiredBetweenEnumItems states its comma rule; corrected behaviour of Findings row 4, as written in Parser.EnumItemsAsWrittenAt |
| Parser.EnumItemsAsWrittenAt | lib/parser.rs:595-616 | the item loop as written, counting commas, keeps earlier items; Parser.AsWrittenEnumItemStep and Parser.MissingEnumCommaAcceptedAsWritten state how its count lets a missing ',' through |
| Parser.BareEnumItemOk | lib/parser.rs:601-607 | an identifier not followed by '=' is an enum item without initializer, one token long |
| Parser.CommaRequiredBetweenEnumItems | lib/parser.rs:600-615 | an enum item followed by neither ',' nor '}' makes the enum body fail with "need comma after enum item", whatever items came before |
| Parser.AsWrittenEnumItemStep | lib/parser.rs:600-615 | one item of the as-written loop: while the comma count is at least the item count less one, the loop goes on after the item and its ',' with the count raised by that ',' |
| Parser.MissingEnumCommaAcceptedAsWritten | lib/parser.rs:606-616 | on any enum body shaped `A B, }` the as-written comma count accepts it while the comma rule refuses it |
| Parser.ParamAt | lib/parser.rs:762-771 | one parameter is an identifier, ':' and a type token, three tokens in all, named by the identifier |
| Parser.ParamsAt | lib/parser.rs:763-777 | the parameter loop yields at least one more parameter, keeping the earlier ones |
| Parser.SignatureAt | lib/parser.rs:759-782 | a signature ends with a type token after '->'; with an immediate ')' it has no parameters |
| Parser.SignatureTailAt | lib/parser.rs:778-781 | `) -> type` takes three tokens and ends with a type token |
| Parser.ReturnTypeAt | lib/parser.rs:779-781 | '->' followed by a type token is required; a missing '->' is "Expected '->' after ')'" |
| Parser.TraitFunctionDeclarationAt | lib/parser.rs:715-747 | a trait function declaration yields a signature-only node named after its identifier |
| Parser.TraitDeclarationAt | lib/parser.rs:651-678 | a trait declaration yields a trait node named after its identifier |
| Parser.TraitFunctionsAt | lib/parser.rs:658-666 | the trait body loop yields at least one more declaration and stops before '}' |
| Parser.FunctionAt | lib/parser.rs:749-793 | a function declaration yields a function node named after its identifier; a missing name is "function: Expect <kind> name" |
| Parser.ImplDeclarationAt | lib/parser.rs:680-687 | `impl X for` gives a trait implementation and `impl X` a method implementation |
| Parser.TraitImplAt | lib/parser.rs:622-649 | a trait implementation keeps the trait name and the implementing type's name |
| Parser.MethodImplAt | lib/parser.rs:689-713 | a method implementation keeps the type's name |
| Parser.ImplBodyAt | lib/parser.rs:690-712 | an impl body ends after its '}' |
| Parser.CloseImplAt | lib/parser.rs:705-708 | the closing '}' of an impl body, already seen, is consumed and the declarations are kept |
| Parser.MethodsAt | lib/parser.rs:695-702 | the method loop yields at least one more function and stops before '}' |
| Parser.DeclarationAt | lib/parser.rs:828-870 | a declaration consumes tokens on success; a failed struct leaves the cursor synchronized; corrected behaviour of Findings rows 3 and 4, as written in Parser.StructFieldsAsWrittenAt and Parser.EnumItemsAsWrittenAt |
| Parser.DeclarationRestAt | lib/parser.rs:844-869 | after the struct and enum cases: a failed `let` or statement leaves the cursor synchronized |
| Parser.LocalDeclarationAt | lib/parser.rs:853-869 | a failed `let` or statement leaves the cursor at a synchronization point; a success consumes tokens |
| Parser.RecoverAt | lib/parser.rs:855-868 | a failed declaration keeps its error and moves the cursor on to a synchronization point; a successful one is returned unchanged |
| Parser.Synchronized | lib/parser.rs:832-835 | the error is kept and the cursor moved to a synchronization point |
| Parser.ParseAt | lib/parser.rs:872-878 | a successful parse consumes the whole input up to Eof; corrected behaviour of Findings rows 3 and 4, as written in Parser.StructFieldsAsWrittenAt and Parser.EnumItemsAsWrittenAt |
| Parser.ParseLoopAt | lib/parser.rs:874-876 | the declaration loop keeps the earlier statements and succeeds only at the end of input; corrected behaviour of Findings rows 3 and 4, as written in Parser.StructFieldsAsWrittenAt and Parser.EnumItemsAsWrittenAt |
| Parser.Parser.constructor | lib/parser.rs:14-16 | a new parser holds the tokens with the cursor at 0 |
| Parser.Parser.Advance | lib/parser.rs:372-377 | the method moves the cursor and returns the token as the `advance` function says |
| Parser.Parser.Matches | lib/parser.rs:342-350 | the method moves the cursor as `matches` says and reports whether it moved |
| Parser.Parser.PopExpect | lib/parser.rs:333-338 | the method's result and final cursor are those of `pop_expect` |
| Parser.Parser.Synchronize | lib/parser.rs:395-415 | the cursor ends where `synchronize` says, at a synchronization point |
| Parser.Parser.Parse | lib/parser.rs:872-878 | the method's result and final cursor are those of the declaration loop from the current cursor; corrected behaviour of Findings rows 3 and 4, as written in Parser.StructFieldsAsWrittenAt and Parser.EnumItemsAsWrittenAt |
| Values.DefaultValue | lib/value.rs:156-170 | each type's default value has that type: zero for the integers and floats, false, the empty string, the empty array, and unit for every other annotation |
| Values.TypeToStrInjective | lib/value.rs:172-190 | two values have the same type name exactly when they are of the same kind |
| Values.TypeToStr | lib/value.rs:172-190 | no contract of its own: `type_to_str`, the name of each kind of value; Values.TypeToStrInjective shows that the name determines the kind |
| Values.CheckedI64 | lib/value.rs:222 | an i64 result inside the 64-bit range is kept; outside it the debug build panics on overflow |
| Values.TruncDiv | lib/value.rs:287 | integer division truncates toward zero: the quotient's magnitude is the quotient of the magnitudes and its sign is negative exactly when the operands' signs differ |
| Values.TruncDivBounds | lib/value.rs:287 | the truncated quotient times the divisor is within one divisor of the dividend, in magnitude |
| Values.Add | lib/value.rs:216-238 | addition never reports an error: it yields a value, panics on overflow, or is outside the model for floats |
| Values.Sub | lib/value.rs:240-258 | subtraction never reports an error |
| Values.Mul | lib/value.rs:260-278 | multiplication never reports an error |
| Values.Div | lib/value.rs:280-298 | division never reports an error; dividing by zero panics |
| Values.IntegerArithmetic | lib/value.rs:216-298 | on i64 operands the four operations are the mathematical ones while the result fits in 64 bits; overflow and division by zero panic |
| Values.SubUndoesAdd | lib/value.rs:216-258 | subtracting what was added gives back the left operand when the sum fits |
| Values.DivUndoesMul | lib/value.rs:260-298 | dividing a product by a non-zero factor gives back the other factor when the product fits |
| Values.OtherLeftOperandUnchanged | lib/value.rs:216-298 | any left operand other than an i64 or f64 (or, for `+`, a string) comes back unchanged |
| Values.NonNumericRightOperand | lib/value.rs:220-224 | an i64 combined with a non-numeric right operand is returned unchanged |
| Values.StringAddition | lib/value.rs:231-234 | adding two strings concatenates them; adding anything else to a string leaves it unchanged |
| Values.DifferentKindsUnequal | lib/value.rs:303-350 | values of different kinds are never equal |
| Values.OpaqueValuesUnequal | lib/value.rs:306-333 | structs, self references, callables, traits and trait functions are unequal to everything, themselves included |
| Values.ValueEq | lib/value.rs:303-350 | no contract of its own: `PartialEq` for values; Values.DifferentKindsUnequal, Values.OpaqueValuesUnequal, Values.UnitAndArrayEquality and Values.ValueEqSymmetric state it |
| Values.UnitAndArrayEquality | lib/value.rs:340-348 | unit equals unit, and two arrays are equal exactly when they have the same length and pairwise equal elements |
| Values.ValueEqSymmetric | lib/value.rs:303-350 | value equality is symmetric |
| Values.CmpStrings | lib/value.rs:401-404 | string comparison reports Equal exactly for equal strings |
| Values.MismatchedKindsLess | lib/value.rs:395-467 | a value compared with a value of another kind is Less, whichever side it is on |
| Values.ArraysCompareByLength | lib/value.rs:448-459 | arrays are ordered by their lengths only |
| Values.NaturalOrders | lib/value.rs:409-447 | integers, strings and booleans compare by their natural order, false before true |
| Values.CmpStringsAntisymmetric | lib/value.rs:401-404 | one string is less than another exactly when the other is greater than it |
| Values.Cmp | lib/value.rs:395-467 | no contract of its own: `partial_cmp` for values, with float comparisons left undetermined; Values.MismatchedKindsLess, Values.ArraysCompareByLength, Values.NaturalOrders and Values.CmpStringsAntisymmetric state it |
| Values.CheckType | lib/value.rs:554-617 | a refused assignment reports "tried to assign value of type A to value of type B" with the two annotations |
| Values.CheckTypeAccepts | lib/value.rs:554-617 | an assignment is accepted exactly when the annotations match, the new value is unit, or the target's annotation is one that accepts anything |
| Values.AssignChecked | lib/value.rs:548-552 | an accepted assignment replaces the value by the new one; a refused one leaves it and reports the type error |
| Values.AssignCheckedIdempotent | lib/value.rs:548-552 | repeating an accepted assignment of the same value changes nothing more |
| Values.AsUsize | lib/value.rs:621 | an i64 cast to usize keeps non-negative values and wraps negative ones modulo 2^64 |
| Values.AsArrayIndex | lib/value.rs:619-634 | an index is an i64 cast to usize or a boolean as 0 or 1; any other kind except f64 is refused with "Tried to index an array with incorrect type '...'" |
| Values.ValueAsArrayIndex | lib/value.rs:192-203 | the same conversion on a bare value, whose error names the value's display form |
| Values.ArrayIndexConversionsAgree | lib/value.rs:192-203 | the two index conversions accept the same values and agree on the index |
| Values.NatToString | lib/value.rs:786-787 | a number prints as a non-empty run of decimal digits without leading zeros |
| Values.IntToString | lib/value.rs:786-787 | an integer prints with a leading '-' exactly when it is negative |
| Values.DisplayArray | lib/value.rs:793-800 | an array prints as its elements' display forms joined by single spaces, and unit prints as "unit" |
| Values.Display | lib/value.rs:774-801 | no contract of its own: `Display` for values; Values.DisplayArray states the array and unit cases |
| Values.StructValue.constructor | lib/value.rs:650-663 | a new struct value holds the given fields and instance name and no methods |
| Values.StructValue.SetField | lib/value.rs:762-771 | setting an unknown field is an undefined-variable error and changes nothing; setting a known field is a checked assignment of that field only |
| Values.StructValue.DefineMethod | lib/value.rs:733-737 | defining a method records it under its name, replacing any earlier one, and leaves the fields alone |
| TypeChecker.CheckType | lib/type_checker.rs:8-22 | the type check passes exactly when the two annotations are equal; otherwise an invalid-type-assignment runtime error "expected type A, found B" |
| TypeChecker.OpaqueAnnotationsNeverPass | lib/type_checker.rs:8-22 | function, trait and self annotations never compare equal, so a check involving one always fails, even against itself |
| TypeChecker.UserAndUnitPass | lib/type_checker.rs:8-22 | a user type and the unit type pass the type check in either order |
| TypeChecker.CheckTypeVerdictSymmetric | lib/type_checker.rs:8-22 | the verdict does not depend on the order of the operands |
| TypeChecker.CheckTypeAgainstItself | lib/type_checker.rs:8-22 | an annotation passes against itself exactly when it contains no function, trait or self annotation |
| TypeChecker.StricterThanAssignment | lib/type_checker.rs:8-22 | unlike a checked assignment, the type check refuses unit for i32; it accepts equal array types but not arrays of functions |
| Mem.EntryValue | lib/mem.rs:14-60 | reading an entry gives its value exactly when it is occupied, and the internal error "tried to index an empty arena entry" otherwise |
| Mem.InsertAt | lib/mem.rs:88-89 | inserting into a vector puts the element at the index and shifts the later elements up by one |
| Mem.RemoveAt | lib/mem.rs:95 | removing from a vector drops the element at the index and shifts the later elements down by one |
| Mem.RemoveUndoesInsert | lib/mem.rs:84-96 | removing at the index where an element was inserted restores the vector |
| Mem.InsertUndoesRemove | lib/mem.rs:94-100 | inserting a removed element back at its index restores the vector |
| Mem.InsertAtEnd | lib/mem.rs:84-92 | inserting at the end appends |
| Mem.Arena.New | lib/mem.rs:122-128 | a new arena has no entries, zero length and offset, and no capacity |
| Mem.Arena.WithCapacity | lib/mem.rs:106-112 | an arena made with a capacity has no entries, its length set to the capacity, offset 0, and that capacity |
| Mem.Arena.Reserve | lib/mem.rs:118-120 | reserving leaves the entries alone and guarantees room for the requested number of further entries |
| Mem.Arena.Insert | lib/mem.rs:84-92 | insert puts the element at the offset, returns that index and advances offset and length; on a packed arena it appends |
| Mem.Arena.Get | lib/mem.rs:94-96 | get returns the entry at the index and removes it from the vector, shifting the later entries down |
| Mem.Arena.Remove | lib/mem.rs:98-100 | remove inserts an empty entry at the index, shifting the later entries up |
| Mem.Arena.UpdateEntry | lib/mem.rs:130-145 | update_entry applies the closure to the occupied entry in place and returns the closure's result |
| Mem.InsertThree | lib/mem.rs:161-170 | after reserving, three inserts return indices 0, 1 and 2, each reading back as occupied |
| Env.Chain | lib/env.rs:127-143 | for any entry whose enclosing walk ends (`ChainEnds`, not only in a `Linked` environment), the chain starts at the entry, follows enclosing links and ends at an entry without one |
| Env.LinkedChainsEnd | lib/env.rs:245-249 | when every enclosing link points to an earlier entry, as `new`, `new_entry` and `entry_from` leave them, every entry's chain ends within the bound |
| Env.SelfLoopNeverEnds | lib/env.rs:127-143 | the walk from an entry that encloses itself ends within no bound, so `get_two` would recurse forever for a name it does not bind |
| Env.GetAtTwo | lib/env.rs:100-125 | get_at_two finds a name only in the entry at the index; a missing entry and an unbound name give their own runtime errors |
| Env.GetAtTwoAgreesWithGetTwo | lib/env.rs:100-143 | when the entry itself binds the name, get_at_two and get_two give the same slot |
| Env.GetTwo | lib/env.rs:127-143 | a failed lookup is the undefined-variable error "(get_two) Tried to get a variable: '...'" |
| Env.GetTwoFindsFirstBinding | lib/env.rs:127-143 | get_two succeeds exactly when some entry on the chain binds the name, and returns the slot of the nearest such entry |
| Env.FirstBindingShifts | lib/env.rs:127-143 | when an entry does not bind the name, the nearest binding on its enclosing chain is the nearest on its own chain, one step further |
| Env.UnboundShifts | lib/env.rs:127-143 | when an entry does not bind the name and its enclosing chain does not either, its own chain does not |
| Env.InnerBindingShadows | lib/env.rs:132-133 | a binding in the entry itself shadows any enclosing one |
| Env.SlotInBounds | lib/env.rs:164-199 | no contract of its own: the slot `get_two` finds lies inside the arena, which the source indexes without a check |
| Env.IsDefinedIffGetSucceeds | lib/env.rs:255-263 | is_defined_two holds exactly when get_two succeeds |
| Env.IsDefinedTwo | lib/env.rs:255-263 | no contract of its own: a name is defined when the entry or, along the enclosing links, an enclosing entry binds it; Env.IsDefinedIffGetSucceeds shows this is exactly when `get_two` succeeds |
| Env.LinkedAfterAppend | lib/env.rs:91-98 | appending an entry keeps every chain finite exactly when its enclosing entry already exists |
| Env.LinkedAfterRemovingLast | lib/env.rs:251-253 | removing the newest entry keeps every chain finite |
| Env.RemovingInnerEntryCanMakeALoop | lib/env.rs:251-253 | removing an entry that is not the newest shifts the later ones, so an enclosing link can come to point at its own entry; the walk from that entry never ends while the root's still does, so the lookups from the root stay inside the model |
| Env.Bind | lib/env.rs:161 | binding a name changes only that entry's map, at that name |
| Env.GetAfterBind | lib/env.rs:145-162 | after binding, the name is found at its new slot in that entry, lookups of other names are unchanged from every entry whose chain ends, and binding leaves every walk as it was |
| Env.AssignSpec | lib/env.rs:164-199 | assignment changes only the slot get_two finds, to the new value; a failed assignment changes nothing |
| Env.AssignSucceedsIff | lib/env.rs:164-199 | assignment succeeds exactly when the name is bound on the chain, its slot is occupied and the value is implicitly convertible or of the same type; an unbound name gives "tried to assign an undefined variable" |
| Env.Environment.constructor | lib/env.rs:77-90 | a new environment holds only the root entry, at index 0 |
| Env.Environment.NewEntry | lib/env.rs:91-98 | new_entry appends an entry without bindings or enclosing entry and returns its index |
| Env.Environment.EntryFrom | lib/env.rs:245-249 | entry_from appends an entry enclosed by the given one and returns its index |
| Env.Environment.RemoveEntry | lib/env.rs:251-253 | remove_entry deletes the entry at the index, shifting the later ones |
| Env.Environment.DefineTwo | lib/env.rs:145-162 | define_two stores the value in the arena at its offset and binds the name to that slot in the entry |
| Env.Environment.AssignTwo | lib/env.rs:164-199 | the method's result and new arena are those of the assignment specification |
| Env.Environment.AssignIndexEntryTwo | lib/env.rs:201-243 | an element assignment needs the name bound in the entry itself to an array and the index in bounds, and is then a checked assignment of that element; each failure has its own error and changes nothing |
| Env.Environment.UpdateValueTwo | lib/env.rs:265-286 | the closure is applied to the value bound in the entry itself; an unbound name is silently ignored |
| Resolver.NotInScope | lib/resolver.rs:181-186 | reading a name whose declaration is still incomplete is an internal error naming the identifier |
| Resolver.New | lib/resolver.rs:29-37 | a fresh resolver has exactly one empty scope, is at top level and has resolved nothing |
| Resolver.BeginScope | lib/resolver.rs:56-59 | opening a scope pushes one empty scope on top of the unchanged stack |
| Resolver.EndScope | lib/resolver.rs:61-64 | closing a scope drops exactly the innermost scope, and does nothing on an empty stack |
| Resolver.EndScopeUndoesBeginScope | lib/resolver.rs:56-64 | closing a scope right after opening one gives back the state it started from |
| Resolver.Declare | lib/resolver.rs:68-89 | declaring panics exactly on an empty stack; otherwise it succeeds even for a name already in the innermost scope (the redeclaration error is disabled), adds the name to the innermost scope only, marks a new name as not yet defined and leaves every existing flag alone |
| Resolver.Define | lib/resolver.rs:92-98 | defining panics exactly on an empty stack; otherwise the name is in the innermost scope and marked defined, and no other entry or scope changes |
| Resolver.DeclareThenDefine | lib/resolver.rs:68-98 | declaring then defining a name, with at least one scope, succeeds and leaves the name defined in the innermost scope |
| Resolver.ResolveLocal | lib/resolver.rs:119-130 | a reference to a name bound in any scope is reported to the interpreter once, with depth scope-count minus one; an unbound (global) name is not reported; scopes do not change |
| Resolver.ResolvedDepthIgnoresBindingScope | lib/resolver.rs:124-127 | the depth reported is the same whichever scope actually binds the name |
| Resolver.ExprStep | lib/resolver.rs:133-209 | resolving an expression never panics and never changes the scopes or the function type; it only appends to the resolved list |
| Resolver.VariableStep | lib/resolver.rs:178-191 | reading a variable fails exactly when the innermost scope holds the name as declared but not defined, with the not-in-scope error and no state change; otherwise the reference is resolved as a local |
| Resolver.ExprsStep | lib/resolver.rs:143-149 | resolving a list of expressions (call arguments, array elements) keeps the scopes and only appends to the resolved list |
| Resolver.StmtsStep | lib/resolver.rs:39-44 | resolving a statement list stops at the first error, keeps the outer scopes and only appends to the resolved list; on success depth and function type are as before |
| Resolver.ParamsStep | lib/resolver.rs:108-111 | declaring and defining the parameters keeps the stack depth and outer scopes and succeeds whenever a scope exists; on an empty stack it panics exactly when there is a parameter |
| Resolver.FunctionStep | lib/resolver.rs:100-117 | resolving a function body keeps the outer scopes, only appends to the resolved list and, on success, leaves depth and function type as before |
| Resolver.StmtStep | lib/resolver.rs:212-312 | every statement visit keeps the outer scopes, never makes the stack shallower, only appends to the resolved list, and on success restores depth and function type |
| Resolver.BlockStep | lib/resolver.rs:251-257 | a block resolves its statements in a scope of its own, with the same settledness guarantee |
| Resolver.IfStep | lib/resolver.rs:242-250 | an `if` resolves its condition, then branch and else branch in order with the same settledness guarantee: outer scopes kept, stack never shallower, resolved list only appended, depth and function type restored on success |
| Resolver.WhileStep | lib/resolver.rs:291-295 | a `while` resolves its condition then its body with the same settledness guarantee |
| Resolver.FunctionDeclarationStep | lib/resolver.rs:296-301 | a function declaration declares and defines its name before resolving the function, with the same settledness guarantee |
| Resolver.StructStep | lib/resolver.rs:258-268 | a struct declaration declares and defines its name with the same settledness guarantee |
| Resolver.ReturnStep | lib/resolver.rs:274-290 | a return at top level fails with "Cannot return from top-level code" and no state change; inside a function a unit-literal value is skipped and any other value is resolved as an expression |
| Resolver.VarStep | lib/resolver.rs:302-309 | a variable declaration keeps the outer scopes, only appends to the resolved list and on success keeps depth and function type |
| Resolver.BlockRestoresScopes | lib/resolver.rs:251-257 | a block that resolves successfully leaves exactly the scope stack and function type it found |
| Resolver.FunctionRestoresFunctionType | lib/resolver.rs:100-117 | a function that resolves successfully restores the enclosing function type and scope stack |
| Resolver.ParamsAllDefined | lib/resolver.rs:108-111 | after the parameter loop the innermost scope holds its old names plus every parameter name, each parameter defined, and every other entry unchanged |
| Resolver.ParametersScope | lib/resolver.rs:105-111 | the scope a function body is resolved in holds exactly the parameter names, all defined, on top of the untouched enclosing stack |
| Resolver.SelfReferenceInInitializerFails | lib/resolver.rs:178-191 | `let a = a;` for a name new to the innermost scope fails with the not-in-scope error |
| Resolver.RedeclarationMayReadOldBinding | lib/resolver.rs:76-82 | re-declaring a name already defined in the innermost scope, with an initializer reading that name, is accepted |
| Resolver.NestedTopLevelReturnFails | lib/resolver.rs:274-280 | a top-level return fails however deeply it is nested in blocks |
| Resolver.Resolver.constructor | lib/resolver.rs:29-37 | the constructed resolver's state is the fresh state |
| Resolver.Resolver.BeginScopeM | lib/resolver.rs:56-59 | the fields change exactly as opening a scope says |
| Resolver.Resolver.EndScopeM | lib/resolver.rs:61-64 | the fields change exactly as closing a scope says |
| Resolver.Resolver.DeclareM | lib/resolver.rs:68-89 | status and new fields are those of the declare step |
| Resolver.Resolver.DefineM | lib/resolver.rs:92-98 | status and new fields are those of the define step |
| Resolver.Resolver.ResolveLocalM | lib/resolver.rs:119-130 | the scope loop leaves the fields exactly as the local-resolution step says |
| Resolver.Resolver.VisitExpr | lib/resolver.rs:133-209 | status and new fields are those of the expression step |
| Resolver.Resolver.VisitExprs | lib/resolver.rs:143-149 | the loop over expressions ends in the status and fields of the list step |
| Resolver.Resolver.Resolve | lib/resolver.rs:39-44 | the loop over statements ends in the status and fields of the statement-list step |
| Resolver.Resolver.ResolveFunction | lib/resolver.rs:100-117 | status and new fields are those of the function step |
| Resolver.Resolver.VisitStmt | lib/resolver.rs:212-312 | status and new fields are those of the statement step |
| Resolver.Resolver.VisitBlock | lib/resolver.rs:251-257 | status and new fields are those of the block step |
| Resolver.Resolver.DeclareStruct | lib/resolver.rs:258-268 | status and new fields are those of the struct step |
| Resolver.Resolver.VisitReturn | lib/resolver.rs:274-290 | status and new fields are those of the return step |
| Resolver.Resolver.DeclareVar | lib/resolver.rs:302-309 | status and new fields are those of the variable-declaration step |
| Resolver.Resolver.VisitIf | lib/resolver.rs:242-250 | status and new fields are those of the `if` step |
| Resolver.Resolver.VisitWhile | lib/resolver.rs:291-295 | status and new fields are those of the `while` step |
| Resolver.Resolver.DeclareFunction | lib/resolver.rs:296-301 | status and new fields are those of the function-declaration step |
| Interpreter.IsTruthy | lib/interpreter.rs:65-74 | a value is truthy exactly when it is neither the unit value nor `false` |
| Interpreter.Annotate | lib/interpreter.rs:114-117 | an arithmetic result keeps its value under the given annotation, and an arithmetic failure passes through unchanged |
| Interpreter.Compare | lib/interpreter.rs:118-133 | an ordering comparison yields a boolean exactly when the operands are ordered, true when their ordering is one the operator accepts; otherwise the result is left undetermined |
| Interpreter.ExecuteBinaryOp | lib/interpreter.rs:107-146 | `+` succeeds exactly when the value addition does and gives its sum; `-`, `*` and `/` are the value subtraction, multiplication and truncating division under the left operand's annotation; `<`, `<=`, `>` and `>=` are true exactly when `partial_cmp` gives Less, Less or Equal, Greater, Greater or Equal (a bool), undetermined only for floats; `==`/`!=` always succeed with (in)equality of the values; any other operator token is the internal error "attempted to execute a binary operation with an incorrect token" |
| Interpreter.IntegerComparisonsAgree | lib/interpreter.rs:118-133 | on 64-bit integers `>=` is the negation of `<`, `a > b` is `b < a`, and `<` is integer order |
| Interpreter.UnaryOp | lib/interpreter.rs:288-306 | `!` gives the negated truthiness as a boolean; `-` negates 32- and 64-bit integers keeping their annotation, panicking exactly on the minimum value; `-` on a float is undetermined; `-` on anything else and any other operator give the unit value |
| Interpreter.NegationInvolutive | lib/interpreter.rs:292-294 | negating an integer other than its type's minimum twice gives it back |
| Interpreter.DoubleBangIsTruthiness | lib/interpreter.rs:301-304 | `!!x` is the boolean truthiness of `x` |
| Interpreter.ArrayLiteral | lib/interpreter.rs:383-397 | an array literal holds exactly its elements, with the last element's annotation as the element type, or unit when it is empty |
| Interpreter.IndexInto | lib/interpreter.rs:399-422 | indexing succeeds exactly for an array and an index below its length, giving that element; past the end it is the out-of-bounds error with index and length; a non-array value gives the "Tried to index a non-array value" error |
| Interpreter.NewMachine | lib/interpreter.rs:42-50 | a new interpreter has one fresh environment entry, current, an empty arena and nothing printed |
| Interpreter.LookupFrom | lib/interpreter.rs:437-458 | a value read is always the contents of an occupied arena slot; a name bound in the starting entry to a slot inside the arena reads that slot's value, or the internal error "tried to index an empty arena entry" when the slot is empty |
| Interpreter.LookupIsGetTwo | lib/interpreter.rs:437-458 | when the current entry's chain ends within the lookup's bound and the bindings are inside the arena, reading a variable is the environment's chain lookup followed by reading its arena slot: undefined names give the undefined-variable error and nothing panics |
| Interpreter.DefineHere | lib/interpreter.rs:668-669 | defining a value puts it in a new arena slot and binds the name to that slot in the current entry, changing nothing else; with no current entry it panics |
| Interpreter.ReadAfterDefine | lib/interpreter.rs:656-670 | a name read right after it was defined gives the value just defined |
| Interpreter.Eval | lib/interpreter.rs:275-320 | a binary expression yields a value only when both operands do, since both are evaluated first; a logical expression's result is always its left or its right operand's evaluation, never a coerced boolean; Interpreter.ShortCircuitIgnoresRight and Interpreter.NoShortCircuitIsRight say which |
| Interpreter.EvalAll | lib/interpreter.rs:387-389 | evaluating a list yields one value per expression, each its evaluation, or else the failure of the first expression that fails |
| Interpreter.ShortCircuits | lib/interpreter.rs:309-320 | no contract of its own: `or` stops at a truthy left operand and every other logical operator at a falsy one; Interpreter.ShortCircuitIgnoresRight and Interpreter.NoShortCircuitIsRight state what stopping means |
| Interpreter.ShortCircuitIgnoresRight | lib/interpreter.rs:309-320 | when the left operand decides `or`/`and`, the result is the left value whatever the right operand is |
| Interpreter.NoShortCircuitIsRight | lib/interpreter.rs:309-320 | when the left operand does not decide, the result is the right operand's evaluation |
| Interpreter.LogicalTruthiness | lib/interpreter.rs:309-320 | `or` and `and` give back one of their operands, but its truthiness is the disjunction or conjunction of the operands' truthiness |
| Interpreter.ArrayLiteralThenIndex | lib/interpreter.rs:383-422 | an evaluated array literal has one item per element expression and indexing it at `i` gives the evaluation of the `i`-th element |
| Interpreter.Exec | lib/interpreter.rs:575-673 | every statement but `return` that completes yields the unit value; a `return` yields its expression's evaluation, or unit for the literal `()`, and changes nothing; corrected behaviour of Findings row 1 for `if`, as written in Interpreter.ExecIfAsWritten |
| Interpreter.ExecIf | lib/interpreter.rs:624-633 | a condition that fails is the statement's failure, with nothing run and nothing changed; an `if` that completes yields unit; Interpreter.IfChoosesBranch states which branch runs; corrected behaviour of Findings row 1, as written in Interpreter.ExecIfAsWritten |
| Interpreter.ExecVar | lib/interpreter.rs:656-671 | `let` fails with the initializer's failure; otherwise with the annotation's conversion error, or with the type-mismatch error "Tried to assign a variable of type A with an initializer of type B" when the annotation differs from the initializer's type; otherwise it defines the value (unit when there is no initializer) in the current entry; a `let` never prints |
| Interpreter.WhileLoop | lib/interpreter.rs:639-655 | a falsy condition ends the loop with nothing changed; a control-flow error (a `break`) from the body ends the loop normally in the body's state; any other error ends it with that error; a completed loop yields unit |
| Interpreter.ExecuteBlock | lib/interpreter.rs:461-484 | a block whose statements fail leaves that failure and the block's entry current; one that completes removes its entry and makes the previous entry current again, keeping the statements' value |
| Interpreter.BlockBody | lib/interpreter.rs:466-483 | an empty block yields unit and changes nothing; Interpreter.BlockWithoutReturnIsUnit, Interpreter.BlockStopsAtFirstReturn and Interpreter.BlockReturnsFirstReturnValue state the rest |
| Interpreter.Interpret | lib/interpreter.rs:425-430 | running a program that completes yields unit; corrected behaviour of Findings row 1, as written in Interpreter.ExecIfAsWritten |
| Interpreter.InterpretSequential | lib/interpreter.rs:425-430 | running a program in two parts is running the first and, when it completes, the second from where the first left off |
| Interpreter.BlockWithoutReturnIsUnit | lib/interpreter.rs:466-483 | a block with no `return` statement that completes has the unit value |
| Interpreter.BlockStopsAtFirstReturn | lib/interpreter.rs:469-475 | statements after the first `return` of a block never run |
| Interpreter.BlockReturnsFirstReturnValue | lib/interpreter.rs:466-476 | when the statements before the first `return` complete, the block is that `return` run where they left off: its value is the `return` expression's evaluation there (unit for `()`) |
| Interpreter.BlockRestoresEnvironmentId | lib/interpreter.rs:590-594 | a block statement that completes leaves the current entry as it found it and yields unit |
| Interpreter.LetWithMismatchedInitializerFails | lib/interpreter.rs:656-667 | a `let` annotated `i32` whose initializer is the literal `false` fails with the type-mismatch error and changes nothing |
| Interpreter.MismatchedInitializer | lib/interpreter.rs:661-667 | the `let` step on such a declaration fails with the i32/bool type-mismatch error from the unchanged state |
| Interpreter.LetThenRead | lib/interpreter.rs:656-670 | after a `let` whose initializer has the declared type, reading the name gives the initializer's value |
| Interpreter.BreakEndsLoop | lib/interpreter.rs:639-655 | `while true { break }` with a bare break ends normally and changes nothing |
| Interpreter.BreakFromBlockKeepsBodyEntry | lib/interpreter.rs:461-484 | a `break` inside a block body ends the loop but leaves the block's new entry current, since the error returns before the entry is removed |
| Interpreter.FalsyConditionSkipsLoop | lib/interpreter.rs:639-641 | a loop whose condition is falsy does nothing |
| Interpreter.ExecKeepsOutput | lib/interpreter.rs:575-673 | output is only appended to: whatever a statement does, and whether or not it completes, the lines printed before it are still the start of the output |
| Interpreter.IfKeepsOutput | lib/interpreter.rs:624-633 | an `if` keeps the lines printed before it |
| Interpreter.WhileKeepsOutput | lib/interpreter.rs:639-655 | a `while` loop keeps the lines printed before it |
| Interpreter.BlockBodyKeepsOutput | lib/interpreter.rs:466-483 | the statements of a block keep the lines printed before them |
| Interpreter.ExecuteBlockKeepsOutput | lib/interpreter.rs:461-484 | `execute_block` keeps the lines printed before it |
| Interpreter.InterpretKeepsOutput | lib/interpreter.rs:425-430 | running a program keeps the lines printed before it |
| Interpreter.ExecIfAsWritten | lib/interpreter.rs:624-633 | as written, when the condition is truthy, the then branch completes and there is an else branch, the else branch runs as well, from the state the then branch left |
| Interpreter.PrintString | lib/interpreter.rs:634-638 | no contract of its own: the `print` statement of a string literal; Interpreter.PrintStringAppends states what running it does |
| Interpreter.PrintStringAppends | lib/interpreter.rs:634-638 | `print` of a string literal completes and appends exactly that string to the output |
| Interpreter.IfAsWrittenRunsBothBranches | lib/interpreter.rs:624-633 | as written, `if (true) print "then"; else print "else";` prints both lines |
| Interpreter.IfRunsOneBranch | lib/interpreter.rs:624-633 | with the intended `if`, the same statement prints only "then" |
| Interpreter.IfChoosesBranch | lib/interpreter.rs:624-633 | the intended `if` runs exactly the then branch for a truthy condition, exactly the else branch otherwise, and nothing when a falsy condition has no else |
| Interpreter.Interpreter.constructor | lib/interpreter.rs:42-50 | the constructed interpreter's state is the new-interpreter state |
| Interpreter.Interpreter.ExecuteBlockM | lib/interpreter.rs:461-484 | the statement loop with its early exit on `return` ends in the outcome and state of the block function |
| Interpreter.Interpreter.WhileM | lib/interpreter.rs:639-655 | the loop ends in the outcome and state of the `while` statement's specification |
| Interpreter.Interpreter.IfM | lib/interpreter.rs:624-633 | the `if` arm ends in the outcome and state of the `if` statement's specification; corrected behaviour of Findings row 1, as written in Interpreter.ExecIfAsWritten |
| Interpreter.Interpreter.VarM | lib/interpreter.rs:656-671 | the `let` arm ends in the outcome and state of the `let` step |
| Interpreter.Interpreter.VisitStmt | lib/interpreter.rs:575-673 | every statement arm ends in the outcome and state the statement function gives; corrected behaviour of Findings row 1, as written in Interpreter.ExecIfAsWritten |
| Interpreter.Interpreter.InterpretM | lib/interpreter.rs:425-430 | the statement loop ends in the outcome and state of running the program; corrected behaviour of Findings row 1, as written in Interpreter.ExecIfAsWritten |
| Lang.Report | lib/lang.rs:113-117 | a report is a generic runtime error whose reason is "[line N] Error LOCATION: MESSAGE" |
| Lang.Error | lib/lang.rs:106-111 | an error at the end-of-file token is reported "at end ", any other token "at 'lexeme'", on the token's line |
| Lang.ErrorIr | lib/token.rs:57-64 | the error `check_token_type2` returns is a generic runtime error (`Lang::error_ir` itself is not defined in the source; see "Left out") |
| Lang.ErrorIrIsErrorAtToken | lib/lang.rs:106-111 | for a token other than the end of the file, the assumed `error_ir` at its line and lexeme is exactly `Lang::error` at that token |
| Lang.ReportEndsWithMessage | lib/lang.rs:113-117 | every report starts with "[line N" and ends with ": " followed by the message |
| Lang.ErrorDistinguishesEnd | lib/lang.rs:106-111 | on the same line and with the same message, an error at end of file differs from an error at any other token |
| Lang.New | lib/lang.rs:24-34 | a `Lang` has a scanner exactly when a script is given, holding that script |
| Lang.BuildStatements | lib/lang.rs:52-62 | with no script the program is empty; otherwise a scan error is returned as is, and the parse of the scanned tokens is the result |
| Lang.NoScriptBuildsNothing | lib/lang.rs:52-62 | a `Lang` made without a script builds the empty program |
| Lang.Run | lib/lang.rs:64-77 | a build error is returned unchanged; otherwise the resolver's error if any, else the interpreter's result |
| Lang.NoScriptRunsEmptyProgram | lib/lang.rs:24-77 | running a `Lang` made without a script resolves and interprets the empty program |
| Lang.BuildAndRunStatements | lib/lang.rs:79-88 | a scan error or a parse error is returned unchanged, and success means every stage succeeded |
| Lang.BuildAndRunIsRunOfScript | lib/lang.rs:24-88 | on a fresh interpreter, running one prompt line gives the same result as running a `Lang` built from that line |

## Left out

- Input and output are not modelled. Printing becomes a list of output lines, and the generator's fixture directory becomes a map from path to contents. Creating that directory is a flag in the same value. The command line, `run_prompt`, `read_file`, `setup_logging` and the AST printer are not part of this model.
- The generator's `slugify` comes from the python-slugify package. It is a function parameter, so nothing is claimed about its output beyond what callers pass in.
- Floating point is left out. A float is kept as the text it prints. Float arithmetic, ordering, equality, negation, the float branch of `get_value` and float-to-index casts give `Unmodelled`.
- Address-based `Hash` implementations and `Enum` values are left out, because the source leaves `Enum` values `unimplemented!` in equality, cloning and display.
- The interpreter's callables, closures, structs, traits and impls are left out. These cover calls, field access, assignment, set expressions, `self`, user-type literals and the function, struct, trait and impl statements, which evaluate to `Unmodelled`. They go through environment and struct APIs that differ between the revisions of the source.
- Interpreter.Eval: variables are read along the environment chain from the current entry. `look_up_variable`'s table of resolved depths (`locals`, filled by `Interpreter::resolve`) is keyed by a hash of the expression and is not part of this model. Because of that, the model does not capture the absolute entry index the source derives from a resolver depth.
- Interpreter.Eval: a grouping evaluates to the unit value without evaluating its inner expression, as the visitor returns it.
- Interpreter.Exec: each `while` loop gets a fuel bound on its iterations, and a loop that would run longer ends as `Unmodelled`. Language programs may loop forever, and the model must terminate.
- Interpreter.DefineHere, Interpreter.LookupFrom: lib/interpreter.rs calls `env_entries.define` and `env_entries.get` (lines 401, 443-455 and 668-669), which lib/env.rs does not define, and `Interpreter` has no arena field. The model takes `define` to be `define_two` on an arena that only grows, and `get` to be `get_two` followed by a read of the slot.
- Interpreter.LookupFrom: a chain of enclosing entries longer than the number of entries is treated as a panic. Such a chain can only be a cycle, on which the Rust recursion overflows the stack.
- Resolver.ResolveLocal: the resolver's calls to `Interpreter::resolve` are recorded as an ordered list of (expression, depth) pairs instead of the interpreter's hash map.
- Resolver.Declare: the "no scopes" internal error the source builds is unreachable behind its `assert!`. An empty scope stack is modelled as the panic of that assertion.
- Scanner: where nom builds an error value itself, through `ParseError::from_error_kind` and `append` for `LangError`, the error carries no payload. That conversion is not part of this model.
- Types.CheckTokenType2: the error is built by `Lang::error_ir`, which is not defined in the source files of this model. It is a parameter.
- Parser.CheckTypeToken: the parser calls `TypeAnnotation::check_token_type`, which is not defined in the source files of this model either. It is taken to be `check_token_type2` on the token. Its error builder is taken to be `Lang.ErrorIr`, the report at the quoted lexeme. Only the verdict (which tokens are accepted) follows the source text. `Parser.CheckTypeTokenVerdict` shows that the verdict does not depend on that choice.
- Lang.ErrorIr: `Lang::error_ir` is not defined in lib/lang.rs. It is taken to be the report that `Lang::error` makes at a token other than the end of the file, because a line and a lexeme are all it receives.
- Errors.EscapeChar, Errors.DebugString: only the quote, the backslash and the control characters (U+0000 to U+001F and U+007F to U+009F) are escaped. Rust's `{:?}` also writes other non-printable characters and grapheme extenders as `\u{..}`. The model writes those raw, because it does not include Unicode's printability and grapheme tables.
- Span.Offset: requires the second span not to start before the first. The source subtracts unsigned offsets (lib/syntax/span.rs:104-109), which would underflow otherwise; nom only asks for the offset of a later slice of the same span, which meets it (`Span.OffsetOfSlice`).
- SyntaxToken.GetValue: models `Token::get_value` (lib/syntax/token.rs:39-72). lib/syntax/scanner.rs builds token values with `Value::from_str` (lines 84, 258, 280, 311 and 369), which is not defined in the source files of this model; it is taken to do what `get_value` does for the same value type and text.
- Span: offsets are counted in characters, while the source counts bytes. The two agree on ASCII text. `bytecount` is modelled as a count of newlines.
- Scanner.TokenIter.Next: requires a non-empty token slice. The source computes `len() - 1` on an unsigned length, which underflows on an empty slice.
- Scanner.FixupTypes: `fixup_types` is specified for token vectors that end with the end-of-file token the lexer always appends (`FixupSafe`). On other vectors the source can index past the end of the last window.
- Parser.ArrayTypeToken: the source reads the token at `current - 3` with unsigned arithmetic. A debug build panics when the cursor is below 3, for example on `print [1];`. The model takes the release-build wrap-around, which reads no token, and returns no annotation.
- Parser: the cursor functions require the token vector to end with the end-of-file token and the cursor to be inside it. The source indexes the vector unchecked and would panic otherwise.
- Env: operations require their entry index to be in range. The source indexes its vector unchecked and panics otherwise.
- Env.Environment.AssignTwo: `can_convert_implicitly` is not part of this revision of the type checker. It is a function parameter.
- Mem.Arena: the capacity asked of the vector is recorded as `reserved`. The Rust vector's actual capacity is allocator behaviour and is not modelled.
- Mem.Arena.Get, Mem.Arena.Remove: modelled as written. `get` removes the entry and `remove` inserts an empty one, so both shift later indices. The environment does not use them.
- Lang.Run, Lang.BuildAndRunIsRunOfScript: the interpreter's state that persists across prompt lines is not part of this value. `build_and_run_statements` keeps one interpreter for every line, so its globals carry over from one line to the next; the model runs each line as if on a fresh interpreter. The scanner, parser, resolver and interpreter are function parameters of the pipeline.
- The JIT backend, the stub parser and AST under lib/syntax, the dependency resolver that reads imported files from disk, and the trait glue (accept, visitor, value_traits) are not part of this model.

## Findings

| source | as written | input that shows it | evidently intended | confidence | as-written member | corrected member |
|---|---|---|---|---|---|---|
| lib/interpreter.rs:624-633 | the else branch of an `if` runs whenever it exists, also after the then branch has run | `if (true) print "then"; else print "else";` prints both lines | exactly one branch runs: then for a truthy condition, else otherwise | high (not executed) | Interpreter.IfAsWrittenRunsBothBranches | Interpreter.IfChoosesBranch |
| lib/syntax/scanner.rs:235-237, lib/syntax/scanner.rs:342-344 | the character tests cast `c as u8`, truncating any non-ASCII character to its low byte | `š` (U+0161) truncates to `a` and lexes as an identifier character; `İ` (U+0130) truncates to `0` and lexes as a digit | identifiers and numbers are ASCII only, as the comment at scanner.rs:239 says | high (not executed) | Scanner.AsWrittenAcceptsNonAscii | Scanner.LexIdent |
| lib/parser.rs:809-821 | a struct body checks only that the number of commas reaches the number of fields minus one, not where they are | `struct S { a: i32 b: i32, }` is accepted without a comma after `a` | every field but the last is followed by `,`, otherwise "need comma after field declaration" | medium (not executed) | Parser.MissingCommaAcceptedAsWritten | Parser.CommaRequiredBetweenFields |
| lib/parser.rs:606-616 | an enum body checks only that the number of commas reaches the number of items minus one, not where they are | `enum E { A B, }` is accepted without a comma after `A` | every item but the last is followed by `,`, otherwise "need comma after enum item" | medium (not executed) | Parser.MissingEnumCommaAcceptedAsWritten | Parser.CommaRequiredBetweenEnumItems |
