/**
 * The scanner (lib/syntax/scanner.rs): nom-style lexers over a `Span`,
 * the program lexer that collects their tokens, and the fix-up pass that
 * retypes type annotations.
 *
 * nom's combinators are modelled by what they do on a span:
 * `multispace0` is `SkipSpace`, `tag` is `Tag`, `take_while1(p)` is
 * `split_at_position1_complete(!p)`, `position` is an empty slice at the
 * current point, `alt` returns the first result that is not a
 * recoverable `Error`, and `many1` collects tokens until the first
 * `Error`. Where nom builds an error value itself (through
 * `ParseError::from_error_kind`/`append`, whose implementation for
 * `LangError` is not part of this model) the error carries no payload.
 */
module Scanner {
  import opened Wrappers
  import opened Errors
  import opened Types
  import opened Span
  import opened SyntaxToken
  import Values

  // ---------------------------------------------------------------- combinators

  predicate IsMultispace(c: char)
  {
    c == ' ' || c == '\t' || c == '\r' || c == '\n'
  }

  predicate NotMultispace(c: char)
  {
    !IsMultispace(c)
  }

  /** The number of blanks `text` starts with. */
  function LeadingBlanks(text: string): (n: nat)
    ensures n <= |text|
    ensures forall j :: 0 <= j < n ==> IsMultispace(text[j])
    ensures n == |text| || NotMultispace(text[n])
  {
    if text != [] && IsMultispace(text[0]) then 1 + LeadingBlanks(text[1..]) else 0
  }

  /**
   * What is left after `multispace0`: the span without its leading
   * blanks. Each lexer below skips blanks once before its text; the
   * source's second `multispace0` there finds none.
   */
  function SkipSpace(s: Span): (r: Span)
    ensures |r.input| <= |s.input|
    ensures r.input == s.input[|s.input| - |r.input|..]
    ensures r.input == [] || NotMultispace(r.input[0])
  {
    SliceFrom(s, LeadingBlanks(s.input))
  }

  /** `SkipSpace` is `multispace0`, which is a complete split before the first non-blank. */
  lemma SkipSpaceIsMultispace0(s: Span)
    ensures SkipSpace(s) == SplitAtPositionComplete(s, NotMultispace).rest
  {
    var n := LeadingBlanks(s.input);
    var split := SplitAtPositionComplete(s, NotMultispace);
    var m := |split.out.input|;
    assert split.out.input == s.input[..m];
    assert m == n;
  }

  /** `tag(t)` (complete input): the text must start with `t`. */
  function Tag(s: Span, t: string): (r: IResult<Span>)
    ensures r.Done? || r == Error(None)
    ensures r.Done? <==> t <= s.input
    ensures r.Done? ==> r.out.input == t && r.rest == SliceFrom(s, |t|) && r.out == SliceTo(s, |t|)
  {
    if t <= s.input then Done(SliceFrom(s, |t|), SliceTo(s, |t|)) else Error(None)
  }

  /**
   * `alt` of two lexers whose only outcomes are tokens and recoverable
   * errors: the first token wins; when both fail, nom appends to the error.
   */
  function Alt(a: IResult<Token>, b: IResult<Token>): (r: IResult<Token>)
    ensures !a.Error? ==> r == a
    ensures a.Error? && !b.Error? ==> r == b
    ensures a.Error? && b.Error? ==> r == Error(None)
  {
    if !a.Error? then a else if !b.Error? then b else Error(None)
  }

  /**
   * `gen_lex_token!`: optional blanks, the fixed text `t`, optional
   * blanks. The token's value is the matched text as a `Value::String`
   * (a string conversion cannot fail).
   */
  function LexFixed(s: Span, t: string, tokenType: TokenType): (r: IResult<Token>)
    requires |t| > 0
    ensures r.Done? || r == Error(None)
    ensures r.Done? <==> t <= SkipSpace(s).input
    ensures r.Done? ==> r.out.tokenType == tokenType && r.out.span.content.input == t
    ensures r.Done? ==> r.out.value == Values.Value.String(t)
    ensures r.Done? ==> r.rest == SkipSpace(SliceFrom(SkipSpace(s), |t|))
    ensures r.Done? ==> |r.rest.input| < |s.input|
  {
    var s1 := SkipSpace(s);
    var tagged := Tag(s1, t);
    if !tagged.Done? then Error(None)
    else
      var s3 := SkipSpace(tagged.rest);
      Done(s3, Token(tokenType, SourceSpan(SliceTo(s1, 0), tagged.out, SliceTo(s3, 0)),
                     Values.Value.String(tagged.out.input)))
  }

  /** The index of the first table entry whose text starts `text`. */
  function FirstMatch(text: string, table: seq<(string, TokenType)>): (r: Option<nat>)
    ensures r.Some? ==> r.value < |table| && table[r.value].0 <= text
    ensures r.Some? ==> forall i :: 0 <= i < r.value ==> !(table[i].0 <= text)
    ensures r.None? ==> forall i :: 0 <= i < |table| ==> !(table[i].0 <= text)
  {
    if table == [] then None
    else if table[0].0 <= text then Some(0)
    else
      var m := FirstMatch(text, table[1..]);
      assert forall i :: 1 <= i < |table| ==> table[i] == table[1..][i - 1];
      if m.None? then None else Some(m.value + 1)
  }

  /**
   * `alt` over a table of fixed-text lexers, tried in table order: the
   * entry that matches is the first whose text starts the input.
   */
  function LexTable(s: Span, table: seq<(string, TokenType)>): (r: IResult<Token>)
    requires forall i :: 0 <= i < |table| ==> |table[i].0| > 0
    ensures r.Done? || r == Error(None)
    ensures r.Done? <==> FirstMatch(SkipSpace(s).input, table).Some?
    ensures r.Done? ==> |r.rest.input| < |s.input|
  {
    if table == [] then Error(None)
    else
      var first := LexFixed(s, table[0].0, table[0].1);
      var rest := LexTable(s, table[1..]);
      Alt(first, rest)
  }

  /** The token `LexTable` returns is the one of the first entry whose text starts the input. */
  lemma {:induction false} LexTableFirstMatch(s: Span, table: seq<(string, TokenType)>)
    requires forall i :: 0 <= i < |table| ==> |table[i].0| > 0
    requires FirstMatch(SkipSpace(s).input, table).Some?
    ensures var k := FirstMatch(SkipSpace(s).input, table).value;
      LexTable(s, table) == LexFixed(s, table[k].0, table[k].1)
  {
    if FirstMatch(SkipSpace(s).input, table) != Some(0) {
      LexTableFirstMatch(s, table[1..]);
    }
  }

  /** A table whose every entry makes a type token lexes only type tokens. */
  lemma {:induction false} LexTableOfTypes(s: Span, table: seq<(string, TokenType)>)
    requires forall i :: 0 <= i < |table| ==> |table[i].0| > 0
    requires forall i :: 0 <= i < |table| ==> table[i].1.Type?
    requires LexTable(s, table).Done?
    ensures LexTable(s, table).out.tokenType.Type?
  {
    if !LexFixed(s, table[0].0, table[0].1).Done? {
      assert forall i :: 1 <= i < |table| ==> table[1..][i - 1] == table[i];
      LexTableOfTypes(s, table[1..]);
    }
  }

  // ---------------------------------------------------------------- tables

  /** The keys of `KEYWORDS`. */
  const KEYWORDS: set<string> := {
    "let", "struct", "if", "else", "break", "enum", "for", "while", "fn", "or",
    "and", "impl", "trait", "true", "false", "self", "return", "print", "import"
  }

  /** `lex_keyword`'s alternatives, in order. */
  const KEYWORD_LEXERS: seq<(string, TokenType)> := [
    ("let", Let), ("struct", Struct), ("if", If), ("else", Else), ("break", TokenType.Break),
    ("enum", Enum), ("fn", FnKw), ("for", For), ("while", While), ("or", Or),
    ("impl", Impl), ("trait", TraitKw), ("true", True), ("false", False),
    ("self", SelfIdent), ("print", Print), ("return", Return), ("and", And),
    ("import", Import)
  ]

  /** `lex_comparison`'s alternatives, in order: each two-character operator before its one-character prefix. */
  const COMPARISON_LEXERS: seq<(string, TokenType)> := [
    ("!=", BangEqual), ("!", Bang), ("==", EqualEqual), ("=", Equal),
    ("<=", LessEqual), ("<", Less), (">=", GreaterEqual), (">", Greater)
  ]

  /** `lex_symbol`'s alternatives before `lex_comparison`. */
  const BRACKET_LEXERS: seq<(string, TokenType)> := [
    ("{", LeftBrace), ("}", RightBrace), (")", RightParen), ("(", LeftParen),
    ("[", LeftBracket), ("]", RightBracket)
  ]

  /** `lex_symbol`'s alternatives after `lex_comparison`. */
  const PUNCTUATION_LEXERS: seq<(string, TokenType)> := [
    (",", Comma), (".", Dot), ("->", ReturnType), ("-", Minus), ("+", Plus),
    ("::", PathSeparator), (":", Colon), (";", SemiColon), ("*", Star),
    ("/", Slash), ("|", Or), ("&", And), ("?", Ternary)
  ]

  /** `lex_type`'s fixed-text alternatives before `lex_array`. */
  const PRIMITIVE_TYPE_LEXERS: seq<(string, TokenType)> := [
    ("i32", Type(I32)), ("i64", Type(I64)), ("f32", Type(F32)), ("f64", Type(F64)),
    ("bool", Type(Bool))
  ]

  /**
   * Every entry of `PRIMITIVE_TYPE_LEXERS` makes a type token, and its text
   * is the display string of that token's annotation.
   */
  lemma PrimitiveTypesAreTypes()
    ensures forall k :: 0 <= k < |PRIMITIVE_TYPE_LEXERS| ==> PRIMITIVE_TYPE_LEXERS[k].1.Type?
    ensures forall k :: 0 <= k < |PRIMITIVE_TYPE_LEXERS| ==>
      Lexable(PRIMITIVE_TYPE_LEXERS[k].1.annotation) &&
      DisplayType(PRIMITIVE_TYPE_LEXERS[k].1.annotation) == PRIMITIVE_TYPE_LEXERS[k].0
  {
  }

  // ---------------------------------------------------------------- character classes

  /** nom's `is_digit` on a byte. */
  predicate IsDigitByte(b: int)
  {
    0x30 <= b <= 0x39
  }

  /** nom's `is_alphanumeric` on a byte. */
  predicate IsAlphanumericByte(b: int)
  {
    (0x41 <= b <= 0x5A) || (0x61 <= b <= 0x7A) || IsDigitByte(b)
  }

  /** Rust's `c as u8`: the low eight bits of the code point. */
  function AsU8(c: char): (b: int)
    ensures 0 <= b < 256
    ensures (c as int) < 256 ==> b == c as int
  {
    (c as int) % 256
  }

  /** `allowable_ident_char` as written: the character is cut down to a byte before the test. */
  predicate AllowableIdentCharAsWritten(c: char)
  {
    IsAlphanumericByte(AsU8(c)) || c == '_'
  }

  /** `lis_digit` as written. */
  predicate LisDigitAsWritten(c: char)
  {
    IsDigitByte(AsU8(c)) || c == '.'
  }

  /**
   * Identifier characters: ASCII letters and digits, and `_`. Every one of
   * them passes the test as written too.
   */
  predicate AllowableIdentChar(c: char)
    ensures AllowableIdentChar(c) ==> (c as int) < 128 && AllowableIdentCharAsWritten(c)
  {
    ('a' <= c <= 'z') || ('A' <= c <= 'Z') || ('0' <= c <= '9') || c == '_'
  }

  predicate NotIdentChar(c: char)
  {
    !AllowableIdentChar(c)
  }

  /** Number characters: ASCII digits and `.`. Every one of them passes the test as written too. */
  predicate LisDigit(c: char)
    ensures LisDigit(c) ==> (c as int) < 128 && LisDigitAsWritten(c)
  {
    ('0' <= c <= '9') || c == '.'
  }

  predicate NotLisDigit(c: char)
  {
    !LisDigit(c)
  }

  predicate IsQuote(c: char)
  {
    c == '"'
  }

  /** The byte-truncating tests accept characters far outside ASCII. */
  lemma AsWrittenAcceptsNonAscii()
    ensures AllowableIdentCharAsWritten('š') && !AllowableIdentChar('š')
    ensures LisDigitAsWritten('İ') && !LisDigit('İ')
  {
    assert AsU8('š') == 0x61;
    assert AsU8('İ') == 0x30;
  }

  /** On characters below 256 the as-written tests and the ASCII ones agree. */
  lemma CharClassesAgreeOnBytes(c: char)
    requires (c as int) < 256
    ensures AllowableIdentCharAsWritten(c) <==> AllowableIdentChar(c)
    ensures LisDigitAsWritten(c) <==> LisDigit(c)
  {
  }

  // ---------------------------------------------------------------- lexers

  /**
   * The shape shared by `lex_ident`, `lex_digit` and `lex_string_content`:
   * optional blanks, a non-empty run of characters on which `stop` fails,
   * optional blanks. Returns the remainder and the begin, content and end spans.
   */
  function LexRun(s: Span, stop: char -> bool): (r: Option<(Span, SourceSpan)>)
    ensures r.Some? <==> SkipSpace(s).input != [] && !stop(SkipSpace(s).input[0])
    ensures r.Some? ==> |r.value.1.content.input| > 0 && |r.value.0.input| < |s.input|
    ensures r.Some? ==> forall j :: 0 <= j < |r.value.1.content.input| ==> !stop(r.value.1.content.input[j])
    ensures r.Some? ==> r.value.1.content.input <= SkipSpace(s).input
    ensures r.Some? ==> (|r.value.1.content.input| == |SkipSpace(s).input| ||
                         stop(SkipSpace(s).input[|r.value.1.content.input|]))
    ensures r.Some? ==> r.value.0 == SkipSpace(SliceFrom(SkipSpace(s), |r.value.1.content.input|))
  {
    var s1 := SkipSpace(s);
    var begin := SliceTo(s1, 0);
    var run := SplitAtPosition1Complete(s1, stop);
    if !run.Done? then None
    else
      var s3 := SkipSpace(run.rest);
      assert run.out.input + run.rest.input == s1.input;
      assert s1.input[..|run.out.input|] == run.out.input;
      assert run.rest.input != [] ==> s1.input[|run.out.input|] == run.rest.input[0];
      Some((s3, SourceSpan(begin, run.out, SliceTo(s3, 0))))
  }

  /** `lex_ident`: a run of identifier characters that is neither a keyword nor starts with a digit. */
  function LexIdent(s: Span): (r: IResult<Token>)
    ensures r.Done? || r.Error?
    ensures r.Done? ==> |r.rest.input| < |s.input|
    ensures r.Done? ==>
      var id := r.out.span.content.input;
      r.out.tokenType == Identifier && r.out.value == Values.Value.String(id) &&
      |id| > 0 && id !in KEYWORDS && !('0' <= id[0] <= '9') &&
      (forall j :: 0 <= j < |id| ==> AllowableIdentChar(id[j]))
    ensures r.Done? ==> r.out.span.content.input <= SkipSpace(s).input
    ensures r.Done? ==>
      var id := r.out.span.content.input;
      |id| == |SkipSpace(s).input| || !AllowableIdentChar(SkipSpace(s).input[|id|])
    ensures r.Error? && r.raised.Some? ==>
      r.raised.value in {ParserError("Identifiers may not be a keyword"), ParserError("Identifiers may not begin with digits")}
  {
    var run := LexRun(s, NotIdentChar);
    if run.None? then Error(None)
    else
      var rest := run.value.0;
      var span := run.value.1;
      var id := span.content.input;
      if id in KEYWORDS then Error(Some(ParserError("Identifiers may not be a keyword")))
      else if '0' <= id[0] <= '9' then Error(Some(ParserError("Identifiers may not begin with digits")))
      else
        assert |id| == |SkipSpace(s).input| || NotIdentChar(SkipSpace(s).input[|id|]);
        assert forall j :: 0 <= j < |id| ==> AllowableIdentChar(id[j]) by {
          forall j | 0 <= j < |id| ensures AllowableIdentChar(id[j]) {
            assert !NotIdentChar(id[j]);
          }
        }
        Done(rest, Token(Identifier, span, Values.Value.String(id)))
  }

  /**
   * What `lex_digit` makes of a run of digits and dots: an error for a
   * lone dot, a float (whose value the model does not compute) for a run
   * with a dot, and otherwise an integer converted by `get_value`, whose
   * parse errors end the whole scan.
   */
  function DigitToken(rest: Span, span: SourceSpan): (r: IResult<Token>)
    requires forall j :: 0 <= j < |span.content.input| ==> !NotLisDigit(span.content.input[j])
    ensures r.Done? || r.Error? || r.Failure? || r.Unmodelled?
    ensures r.Done? ==> r.rest == rest && r.out.span == span && r.out.tokenType == Integer
    ensures r.Done? ==> forall j :: 0 <= j < |span.content.input| ==> '0' <= span.content.input[j] <= '9'
    ensures r.Done? ==> GetValue(IntegerValue, span.content.input) == Values.Yield(r.out.value)
    ensures r.Failure? ==> GetValue(IntegerValue, span.content.input) == Values.Fail(r.cause)
    ensures r.Error? <==> span.content.input == "."
    ensures r.Error? ==> r == Error(Some(ParserError("Attempted to lex a digit that was only '.'")))
    ensures r.Unmodelled? <==> '.' in span.content.input && span.content.input != "."
  {
    var digits := span.content.input;
    if |digits| == 1 && '.' in digits then
      Error(Some(ParserError("Attempted to lex a digit that was only '.'")))
    else if '.' in digits then
      // A float: `get_value` would parse it with `str::parse::<f64>`.
      Unmodelled
    else
      assert forall j :: 0 <= j < |digits| ==> '0' <= digits[j] <= '9' by {
        forall j | 0 <= j < |digits| ensures '0' <= digits[j] <= '9' {
          assert !NotLisDigit(digits[j]) && digits[j] in digits;
        }
      }
      var value := GetValue(IntegerValue, digits);
      if value.Yield? then Done(rest, Token(Integer, span, value.value))
      else Failure(value.error)
  }

  /** `lex_digit`: a run of digits and dots, classified by `DigitToken`. */
  function LexDigit(s: Span): (r: IResult<Token>)
    ensures r.Done? || r.Error? || r.Failure? || r.Unmodelled?
    ensures LexRun(s, NotLisDigit).None? ==> r == Error(None)
    ensures LexRun(s, NotLisDigit).Some? ==> r == DigitToken(LexRun(s, NotLisDigit).value.0, LexRun(s, NotLisDigit).value.1)
    ensures r.Done? ==> |r.rest.input| < |s.input|
  {
    var run := LexRun(s, NotLisDigit);
    if run.None? then Error(None)
    else
      DigitToken(run.value.0, run.value.1)
  }

  /** The annotations `lex_type` can produce: the five primitives, `String`, and arrays of these. */
  predicate Lexable(t: TypeAnnotation)
  {
    match t
    case I32 => true
    case I64 => true
    case F32 => true
    case F64 => true
    case Bool => true
    case String => true
    case Array(e) => Lexable(e)
    case _ => false
  }

  /**
   * `lex_type` (fixed-text alternatives, then `lex_array`, then `String`).
   * A type token's annotation is one `lex_type` can spell, and its value
   * is that annotation's display string.
   */
  function LexType(s: Span): (r: IResult<Token>)
    ensures r.Done? || r.Error? || r.Failure?
    ensures r.Done? ==> r.out.tokenType.Type? && |r.rest.input| < |s.input|
    ensures r.Done? ==> Lexable(r.out.tokenType.annotation)
    ensures r.Done? ==> r.out.value == Values.Value.String(DisplayType(r.out.tokenType.annotation))
    decreases |s.input|, 1
  {
    var primitive := LexPrimitive(s);
    if primitive.Done? then
      primitive
    else
      var arrayType := LexArray(s);
      var stringType := LexFixed(s, "String", Type(String));
      assert arrayType.Done? || arrayType.Error? || arrayType.Failure?;
      assert stringType.Done? || stringType == Error(None);
      Alt(primitive, Alt(arrayType, stringType))
  }

  /**
   * `lex_type`'s first five alternatives, `lex_i32_type` to `lex_bool_type`:
   * a primitive type lexes to the annotation whose display string is its text.
   */
  function LexPrimitive(s: Span): (r: IResult<Token>)
    ensures r.Done? || r == Error(None)
    ensures r.Done? <==> FirstMatch(SkipSpace(s).input, PRIMITIVE_TYPE_LEXERS).Some?
    ensures r.Done? ==> |r.rest.input| < |s.input|
    ensures r.Done? ==> r.out.tokenType.Type? && Lexable(r.out.tokenType.annotation)
    ensures r.Done? ==> r.out.value == Values.Value.String(DisplayType(r.out.tokenType.annotation))
  {
    PrimitiveTypesAreTypes();
    var r := LexTable(s, PRIMITIVE_TYPE_LEXERS);
    if r.Done? then LexTableOfDisplayedTypes(s, PRIMITIVE_TYPE_LEXERS); r else r
  }

  /**
   * A table whose every entry is a type token spelled as its annotation's
   * display string lexes only such tokens, with that string as the value.
   */
  lemma LexTableOfDisplayedTypes(s: Span, table: seq<(string, TokenType)>)
    requires forall i :: 0 <= i < |table| ==> |table[i].0| > 0
    requires forall i :: 0 <= i < |table| ==> table[i].1.Type?
    requires forall i :: 0 <= i < |table| ==> Lexable(table[i].1.annotation) && DisplayType(table[i].1.annotation) == table[i].0
    requires LexTable(s, table).Done?
    ensures LexTable(s, table).out.tokenType.Type?
    ensures Lexable(LexTable(s, table).out.tokenType.annotation)
    ensures LexTable(s, table).out.value == Values.Value.String(DisplayType(LexTable(s, table).out.tokenType.annotation))
  {
    LexTableFirstMatch(s, table);
  }

  /**
   * `lex_array`: `Array<`, an element type, `>`. It succeeds exactly when
   * the text after `Array<` lexes as a type followed by `>`; the token is
   * `Type(Array(t))` for that element type `t`, with the value
   * `"Array<" + t + ">"`.
   */
  function LexArray(s: Span): (r: IResult<Token>)
    ensures r.Done? || r.Error? || r.Failure?
    ensures r.Done? ==> r.out.tokenType.Type? && r.out.tokenType.annotation.Array? && |r.rest.input| < |s.input|
    ensures r.Done? <==> (
      "Array<" <= SkipSpace(s).input && LexType(SliceFrom(SkipSpace(s), 6)).Done? &&
      ">" <= SkipSpace(LexType(SliceFrom(SkipSpace(s), 6)).rest).input)
    ensures r.Done? ==> r.out.tokenType == Type(Array(LexType(SliceFrom(SkipSpace(s), 6)).out.tokenType.annotation))
    ensures r.Done? ==> (
      r.out.value == Values.Value.String("Array<" + DisplayType(r.out.tokenType.annotation.element) + ">"))
    decreases |s.input|, 0
  {
    var s1 := SkipSpace(s);
    var begin := SliceTo(s1, 0);
    var arr := Tag(s1, "Array<");
    if !arr.Done? then Error(None)
    else
      match LexType(arr.rest)
      case Done(afterType, element) =>
        (var close := Tag(SkipSpace(afterType), ">");
         if !close.Done? then Error(None)
         else
           var s5 := SkipSpace(close.rest);
           match ToTypeAnnotation(element.tokenType)
           case Err(e) => Failure(e)
           case Ok(t) =>
             Done(s5, Token(Type(Array(t)), SourceSpan(begin, arr.out, SliceTo(s5, 0)),
                            Values.Value.String("Array<" + DisplayType(t) + ">")))
        )
      case Error(e) => Error(e)
      case Failure(e) => Failure(e)
      case Incomplete => Incomplete
      case Unmodelled => Unmodelled
  }

  /** Blanks are skipped only where there are some. */
  lemma SkipNoSpace(s: Span)
    requires s.input == [] || NotMultispace(s.input[0])
    ensures SkipSpace(s) == s
  {
  }

  /**
   * Lexing a type's display string gives that type back: `lex_type` on the
   * text of `t`, followed by text that does not start with a blank, yields
   * `Type(t)` with the display string as its value and stops right after it.
   */
  lemma {:induction false} LexTypeDisplayRoundTrip(t: TypeAnnotation, s: Span, rest: string)
    requires Lexable(t)
    requires s.input == DisplayType(t) + rest
    requires rest == [] || NotMultispace(rest[0])
    ensures LexType(s).Done?
    ensures LexType(s).out.tokenType == Type(t)
    ensures LexType(s).out.value == Values.Value.String(DisplayType(t))
    ensures LexType(s).rest.input == rest
    decreases t, 2
  {
    if t.Array? {
      LexArrayDisplayRoundTrip(t, s, rest);
    } else if t.String? {
      LexStringTypeRoundTrip(s, rest);
    } else {
      LexPrimitiveTypeRoundTrip(t, s, rest);
    }
  }

  lemma LexArrayDisplayRoundTrip(t: TypeAnnotation, s: Span, rest: string)
    requires t.Array? && Lexable(t)
    requires s.input == DisplayType(t) + rest
    requires rest == [] || NotMultispace(rest[0])
    ensures LexType(s).Done?
    ensures LexType(s).out.tokenType == Type(t)
    ensures LexType(s).out.value == Values.Value.String(DisplayType(t))
    ensures LexType(s).rest.input == rest
    decreases t, 1
  {
    LexArrayRoundTrip(t, s, rest);
    NoPrimitiveMatch(s.input);
    LexTypeOfArray(s);
  }

  /** `lex_array` on an array type's display string gives that array type back. */
  lemma LexArrayRoundTrip(t: TypeAnnotation, s: Span, rest: string)
    requires t.Array? && Lexable(t)
    requires s.input == DisplayType(t) + rest
    requires rest == [] || NotMultispace(rest[0])
    ensures |s.input| > 0 && s.input[0] == 'A'
    ensures LexArray(s).Done?
    ensures LexArray(s).out.tokenType == Type(t)
    ensures LexArray(s).out.value == Values.Value.String(DisplayType(t))
    ensures LexArray(s).rest.input == rest
    decreases t, 0
  {
    ArrayDisplaySplit(t, rest);
    SkipNoSpace(s);
    var inner := SliceFrom(s, 6);
    LexTypeDisplayRoundTrip(t.element, inner, ">" + rest);
    var after := LexType(inner).rest;
    SkipNoSpace(after);
    SkipNoSpace(SliceFrom(after, 1));
    LexArrayParts(s);
  }

  /** An array type's display string is `Array<`, the element's display string, then `>`. */
  lemma ArrayDisplaySplit(t: TypeAnnotation, rest: string)
    requires t.Array?
    ensures DisplayType(t) + rest == "Array<" + (DisplayType(t.element) + (">" + rest))
    ensures "Array<" <= DisplayType(t) + rest && (DisplayType(t) + rest)[0] == 'A'
    ensures (DisplayType(t) + rest)[6..] == DisplayType(t.element) + (">" + rest)
  {
    var text := DisplayType(t) + rest;
    assert text == "Array<" + (DisplayType(t.element) + (">" + rest));
    assert text[..6] == "Array<";
  }

  /** What `lex_array` returns once its three parts have matched. */
  lemma LexArrayParts(s: Span)
    requires "Array<" <= SkipSpace(s).input
    requires LexType(SliceFrom(SkipSpace(s), 6)).Done?
    requires ">" <= SkipSpace(LexType(SliceFrom(SkipSpace(s), 6)).rest).input
    ensures LexArray(s).rest
      == SkipSpace(SliceFrom(SkipSpace(LexType(SliceFrom(SkipSpace(s), 6)).rest), 1))
  {
  }

  lemma LexStringTypeRoundTrip(s: Span, rest: string)
    requires s.input == DisplayType(String) + rest
    requires rest == [] || NotMultispace(rest[0])
    ensures LexType(s).Done?
    ensures LexType(s).out.tokenType == Type(String)
    ensures LexType(s).out.value == Values.Value.String(DisplayType(String))
    ensures LexType(s).rest.input == rest
  {
    assert s.input[..6] == "String";
    SkipNoSpace(s);
    NoPrimitiveMatch(s.input);
    assert !("Array<" <= s.input) by { assert s.input[0] == 'S'; }
    SkipNoSpace(SliceFrom(s, 6));
    LexTypeOfString(s);
  }

  /** No primitive type starts with `S` or `A`. */
  lemma NoPrimitiveMatch(text: string)
    requires |text| > 0 && (text[0] == 'S' || text[0] == 'A')
    ensures FirstMatch(text, PRIMITIVE_TYPE_LEXERS).None?
  {
    forall i | 0 <= i < |PRIMITIVE_TYPE_LEXERS| ensures !(PRIMITIVE_TYPE_LEXERS[i].0 <= text) {
      assert PRIMITIVE_TYPE_LEXERS[i].0[0] != text[0];
    }
  }

  /** When no primitive type matches but an array type does, `lex_type` returns the array. */
  lemma LexTypeOfArray(s: Span)
    requires !LexPrimitive(s).Done? && LexArray(s).Done?
    ensures LexType(s) == LexArray(s)
  {
  }

  /** When neither a primitive nor an array type matches, `lex_type` tries `String`. */
  lemma LexTypeOfString(s: Span)
    requires !LexPrimitive(s).Done? && LexArray(s).Error?
    ensures LexType(s) == LexFixed(s, "String", Type(String))
  {
  }

  /** The primitive table's entry for a primitive annotation. */
  function PrimitiveIndex(t: TypeAnnotation): (k: nat)
    requires t.I32? || t.I64? || t.F32? || t.F64? || t.Bool?
    ensures k < |PRIMITIVE_TYPE_LEXERS| && PRIMITIVE_TYPE_LEXERS[k] == (DisplayType(t), Type(t))
  {
    if t.I32? then 0 else if t.I64? then 1 else if t.F32? then 2 else if t.F64? then 3 else 4
  }

  lemma PrimitiveFirstMatch(t: TypeAnnotation, text: string)
    requires t.I32? || t.I64? || t.F32? || t.F64? || t.Bool?
    requires DisplayType(t) <= text
    ensures FirstMatch(text, PRIMITIVE_TYPE_LEXERS) == Some(PrimitiveIndex(t))
  {
    var k := PrimitiveIndex(t);
    assert text[0] == DisplayType(t)[0] && text[1] == DisplayType(t)[1];
    forall i | 0 <= i < k ensures !(PRIMITIVE_TYPE_LEXERS[i].0 <= text) {
      var other := PRIMITIVE_TYPE_LEXERS[i].0;
      assert other[0] != text[0] || other[1] != text[1];
    }
  }

  /** A table lexes text that starts with the first entry to match it to that entry's token. */
  lemma LexTableEntry(s: Span, table: seq<(string, TokenType)>, k: nat, rest: string)
    requires forall i :: 0 <= i < |table| ==> |table[i].0| > 0
    requires k < |table| && FirstMatch(s.input, table) == Some(k)
    requires s.input == table[k].0 + rest
    requires NotMultispace(s.input[0])
    requires rest == [] || NotMultispace(rest[0])
    ensures LexTable(s, table).Done?
    ensures LexTable(s, table).out.tokenType == table[k].1
    ensures LexTable(s, table).out.value == Values.Value.String(table[k].0)
    ensures LexTable(s, table).rest.input == rest
  {
    SkipNoSpace(s);
    LexTableFirstMatch(s, table);
    SkipNoSpace(SliceFrom(s, |table[k].0|));
  }

  /** The primitive table lexes a primitive's display string to its type token. */
  lemma PrimitiveTableEntry(t: TypeAnnotation, s: Span, rest: string)
    requires t.I32? || t.I64? || t.F32? || t.F64? || t.Bool?
    requires s.input == DisplayType(t) + rest
    requires rest == [] || NotMultispace(rest[0])
    ensures LexTable(s, PRIMITIVE_TYPE_LEXERS).Done?
    ensures LexTable(s, PRIMITIVE_TYPE_LEXERS).out.tokenType == Type(t)
    ensures LexTable(s, PRIMITIVE_TYPE_LEXERS).out.value == Values.Value.String(DisplayType(t))
    ensures LexTable(s, PRIMITIVE_TYPE_LEXERS).rest.input == rest
  {
    assert s.input[0] == DisplayType(t)[0];
    PrimitiveFirstMatch(t, s.input);
    LexTableEntry(s, PRIMITIVE_TYPE_LEXERS, PrimitiveIndex(t), rest);
  }

  /** So do the primitive type alternatives. */
  lemma PrimitiveTableRoundTrip(t: TypeAnnotation, s: Span, rest: string)
    requires t.I32? || t.I64? || t.F32? || t.F64? || t.Bool?
    requires s.input == DisplayType(t) + rest
    requires rest == [] || NotMultispace(rest[0])
    ensures LexPrimitive(s).Done?
    ensures LexPrimitive(s).out.tokenType == Type(t)
    ensures LexPrimitive(s).out.value == Values.Value.String(DisplayType(t))
    ensures LexPrimitive(s).rest.input == rest
  {
    PrimitiveTableEntry(t, s, rest);
  }

  lemma LexPrimitiveTypeRoundTrip(t: TypeAnnotation, s: Span, rest: string)
    requires t.I32? || t.I64? || t.F32? || t.F64? || t.Bool?
    requires s.input == DisplayType(t) + rest
    requires rest == [] || NotMultispace(rest[0])
    ensures LexType(s).Done?
    ensures LexType(s).out.tokenType == Type(t)
    ensures LexType(s).out.value == Values.Value.String(DisplayType(t))
    ensures LexType(s).rest.input == rest
  {
    PrimitiveTableRoundTrip(t, s, rest);
    LexTypeOfPrimitive(s);
  }

  /** When a primitive type matches, `lex_type` returns it. */
  lemma LexTypeOfPrimitive(s: Span)
    requires LexPrimitive(s).Done?
    ensures LexType(s) == LexPrimitive(s)
  {
  }

  /** `lex_keyword`. */
  function LexKeyword(s: Span): (r: IResult<Token>)
    ensures r.Done? || r == Error(None)
    ensures r.Done? ==> |r.rest.input| < |s.input|
  {
    LexTable(s, KEYWORD_LEXERS)
  }

  /** `lex_comparison`. */
  function LexComparison(s: Span): (r: IResult<Token>)
    ensures r.Done? || r == Error(None)
    ensures r.Done? ==> |r.rest.input| < |s.input|
  {
    LexTable(s, COMPARISON_LEXERS)
  }

  /** `lex_symbol`. */
  function LexSymbol(s: Span): (r: IResult<Token>)
    ensures r.Done? || r == Error(None)
    ensures r.Done? ==> |r.rest.input| < |s.input|
  {
    var brackets := LexTable(s, BRACKET_LEXERS);
    var comparison := LexComparison(s);
    var punctuation := LexTable(s, PUNCTUATION_LEXERS);
    assert brackets.Done? || brackets == Error(None);
    assert comparison.Done? || comparison == Error(None);
    assert punctuation.Done? || punctuation == Error(None);
    Alt(brackets, Alt(comparison, punctuation))
  }

  /** `lex_string_content`: everything up to the next double quote, which must be at least one character. */
  function LexStringContent(s: Span): (r: IResult<Token>)
    ensures r.Done? || r == Error(None)
    ensures r.Done? ==> |r.rest.input| < |s.input|
    ensures r.Done? ==>
      r.out.tokenType == StringLit &&
      r.out.value == Values.Value.String(r.out.span.content.input) &&
      |r.out.span.content.input| > 0 && '"' !in r.out.span.content.input
  {
    match LexRun(s, IsQuote)
    case None => Error(None)
    case Some((rest, span)) =>
      assert forall j :: 0 <= j < |span.content.input| ==> !IsQuote(span.content.input[j]);
      Done(rest, Token(StringLit, span, Values.Value.String(span.content.input)))
  }

  /**
   * `lex_string`: a quote, the content, a quote. The blanks after the
   * opening quote are skipped, so they are not part of the string.
   */
  function LexString(s: Span): (r: IResult<Token>)
    ensures r.Done? || r == Error(None)
    ensures r.Done? ==> |r.rest.input| < |s.input|
    ensures r.Done? ==> r.out.tokenType == StringLit
  {
    var open := LexFixed(s, "\"", DoubleQuote);
    if !open.Done? then Error(None)
    else
      var content := LexStringContent(open.rest);
      if !content.Done? then Error(None)
      else
        var close := LexFixed(content.rest, "\"", DoubleQuote);
        if !close.Done? then Error(None)
        else Done(close.rest, content.out)
  }

  /** `entry`: digits, types, identifiers, keywords, strings, symbols, in that order. */
  function Entry(s: Span): IResult<Token>
  {
    Alt(LexDigit(s), Alt(LexType(s), Alt(LexIdent(s), Alt(LexKeyword(s), Alt(LexString(s), LexSymbol(s))))))
  }

  /** `entry` is one of its lexers' results, or nom's error when all of them fail. */
  lemma EntryIsFirstSuccess(s: Span)
    ensures !LexDigit(s).Error? ==> Entry(s) == LexDigit(s)
    ensures LexDigit(s).Error? && !LexType(s).Error? ==> Entry(s) == LexType(s)
    ensures LexDigit(s).Error? && LexType(s).Error? && !LexIdent(s).Error? ==> Entry(s) == LexIdent(s)
    ensures (LexDigit(s).Error? && LexType(s).Error? && LexIdent(s).Error? && LexKeyword(s).Error? &&
             LexString(s).Error? && LexSymbol(s).Error?) ==> Entry(s) == Error(None)
  {
  }

  /**
   * `many1(item)`, continued from the tokens `acc` collected so far:
   * collect tokens until `item` reports a recoverable error, which with
   * nothing collected yet is nom's `Many1` error. A step that consumes
   * nothing is nom's no-progress error. nom checks progress from the
   * second item on, but an item that consumed nothing the first time
   * consumes nothing when it is called again on the same span, so the
   * outcome is the same. No lexer lengthens its input, so `>=` on the
   * lengths stands for nom's test for an unchanged span.
   */
  function Many1(item: Span -> IResult<Token>, s: Span, acc: seq<Token>): (r: IResult<seq<Token>>)
    ensures r.Done? ==> |r.out| >= 1 && |r.out| >= |acc| && r.out[..|acc|] == acc
    decreases |s.input|
  {
    var e := item(s);
    if e.Error? then (if acc == [] then Error(None) else Done(s, acc))
    else if e.Done? then
      if |e.rest.input| >= |s.input| then Error(None)
      else
        var r := Many1(item, e.rest, acc + [e.out]);
        assert r.Done? ==> r.out[..|acc|] == (r.out[..|acc| + 1])[..|acc|];
        r
    else if e.Failure? then Failure(e.cause)
    else if e.Incomplete? then Incomplete
    else Unmodelled
  }

  /** `many1` stops only where `item` reports a recoverable error, and keeps the rest from there. */
  lemma {:induction false} Many1StopsAtError(item: Span -> IResult<Token>, s: Span, acc: seq<Token>)
    ensures Many1(item, s, acc).Done? ==> item(Many1(item, s, acc).rest).Error?
    decreases |s.input|
  {
    var e := item(s);
    if e.Done? && |e.rest.input| < |s.input| {
      Many1StopsAtError(item, e.rest, acc + [e.out]);
    }
  }

  /** A failure of `many1` is a failure `item` reported on some span. */
  lemma {:induction false} Many1FailureComesFromItem(item: Span -> IResult<Token>, s: Span, acc: seq<Token>)
    ensures Many1(item, s, acc).Failure? ==> exists x :: item(x) == Failure(Many1(item, s, acc).cause)
    decreases |s.input|
  {
    var e := item(s);
    if e.Done? && |e.rest.input| < |s.input| {
      Many1FailureComesFromItem(item, e.rest, acc + [e.out]);
    } else if e.Failure? {
      assert item(s) == Failure(Many1(item, s, acc).cause);
    }
  }

  /** An error on the first item is nom's `Many1` error; a first item that consumes nothing is too. */
  lemma Many1FirstItem(item: Span -> IResult<Token>, s: Span)
    ensures item(s).Error? ==> Many1(item, s, []) == Error(None)
    ensures item(s).Done? && |item(s).rest.input| >= |s.input| ==> Many1(item, s, []) == Error(None)
    ensures item(s).Failure? ==> Many1(item, s, []) == Failure(item(s).cause)
  {
  }

  /** The end-of-input token `lex_program` appends. */
  function EofToken(): (t: Token)
    ensures t.tokenType == Eof
  {
    New2(Eof, "EoF")
  }

  /**
   * `lex_program`: the tokens, then `Eof`. Lexing stops at the first
   * text no lexer accepts; what remains is returned unread.
   */
  function LexProgram(s: Span): (r: IResult<seq<Token>>)
    ensures r.Done? <==> Many1(Entry, s, []).Done?
    ensures r.Done? ==> r.out == Many1(Entry, s, []).out + [EofToken()] && r.rest == Many1(Entry, s, []).rest
    ensures r.Done? ==> EndsInEof(r.out)
    ensures !r.Done? ==> r == Many1(Entry, s, [])
  {
    var m := Many1(Entry, s, []);
    if m.Done? then Done(m.rest, m.out + [EofToken()]) else m
  }

  /** At least one token, and `Eof` last: the shape of every vector `lex_program` returns. */
  predicate EndsInEof(ts: seq<Token>)
  {
    |ts| >= 2 && ts[|ts| - 1].tokenType == Eof
  }

  /** Lexing stops at the first text no lexer accepts. */
  lemma LexProgramStops(s: Span)
    ensures LexProgram(s).Done? ==> Entry(LexProgram(s).rest).Error?
  {
    Many1StopsAtError(Entry, s, []);
  }

  // ---------------------------------------------------------------- properties of the lexers

  /** Each two-character comparison wins over its one-character prefix. */
  lemma ComparisonPrefersTwoCharacters(text: string, k: nat)
    requires k < |COMPARISON_LEXERS| && |COMPARISON_LEXERS[k].0| == 2
    requires COMPARISON_LEXERS[k].0 <= text
    ensures FirstMatch(text, COMPARISON_LEXERS) == Some(k)
  {
    forall i | 0 <= i < k
      ensures !(COMPARISON_LEXERS[i].0 <= text)
    {
      assert COMPARISON_LEXERS[i].0[0] != COMPARISON_LEXERS[k].0[0];
    }
  }

  /** So `lex_comparison` reads `<=` as one token, not `<` then `=`. */
  lemma LessEqualIsOneToken(s: Span)
    requires "<=" <= SkipSpace(s).input
    ensures LexComparison(s).Done? && LexComparison(s).out.tokenType == LessEqual
    ensures LexComparison(s).out.span.content.input == "<="
  {
    ComparisonPrefersTwoCharacters(SkipSpace(s).input, 4);
    LexTableFirstMatch(s, COMPARISON_LEXERS);
  }

  /** A run that spells a keyword is not an identifier. */
  lemma KeywordIsNotIdentifier(s: Span)
    requires LexRun(s, NotIdentChar).Some? && LexRun(s, NotIdentChar).value.1.content.input in KEYWORDS
    ensures LexIdent(s) == Error(Some(ParserError("Identifiers may not be a keyword")))
  {
  }

  /** No keyword starts with a digit. */
  lemma KeywordsStartWithLetters(w: string)
    requires w in KEYWORDS
    ensures w != [] && 'a' <= w[0] <= 'z'
  {
  }

  /** Text whose first non-blank character is a digit is not an identifier, and says why. */
  lemma LexIdentRejectsDigits(s: Span)
    requires SkipSpace(s).input != [] && '0' <= SkipSpace(s).input[0] <= '9'
    ensures LexIdent(s) == Error(Some(ParserError("Identifiers may not begin with digits")))
  {
    var run := LexRun(s, NotIdentChar);
    var id := run.value.1.content.input;
    assert id[0] == SkipSpace(s).input[0];
    if id in KEYWORDS {
      KeywordsStartWithLetters(id);
    }
  }

  /** A lone dot is not a number. */
  lemma LoneDotIsNotANumber(s: Span)
    requires LexRun(s, NotLisDigit).Some? && LexRun(s, NotLisDigit).value.1.content.input == "."
    ensures LexDigit(s) == Error(Some(ParserError("Attempted to lex a digit that was only '.'")))
  {
  }

  /** A run of digits with a dot, other than a lone dot, is a float. */
  lemma DotMakesAFloat(s: Span)
    requires LexRun(s, NotLisDigit).Some?
    requires '.' in LexRun(s, NotLisDigit).value.1.content.input
    requires LexRun(s, NotLisDigit).value.1.content.input != "."
    ensures LexDigit(s).Unmodelled?
  {
  }

  // ---------------------------------------------------------------- TokenIter

  /**
   * `TokenIter`: a cursor handing out overlapping windows of three
   * tokens over a slice of `sliceLength` tokens. A window is returned as
   * its start index and length.
   */
  class TokenIter {
    const sliceLength: nat
    const windowLength: nat
    var position: nat

    /** `TokenIter::new`. */
    constructor (sliceLength: nat)
      ensures this.sliceLength == sliceLength && windowLength == 3 && position == 0
    {
      this.sliceLength := sliceLength;
      windowLength := 3;
      position := 0;
    }

    /**
     * `TokenIter::next`. The source first computes `len() - 1` in
     * `usize`, which underflows on an empty slice.
     */
    method Next() returns (w: Option<(nat, nat)>)
      requires sliceLength >= 1 && windowLength == 3
      modifies this
      ensures w == WindowAt(sliceLength, old(position))
      ensures position == old(position) + (if w.Some? then 1 else 0)
    {
      var upperBound := sliceLength + windowLength / 2;
      if upperBound >= sliceLength {
        upperBound := sliceLength - 1;
      }
      if position + windowLength / 2 < upperBound {
        position := position + 1;
        w := Some((position - 1, windowLength));
      } else if position + windowLength / 2 <= upperBound {
        position := position + 1;
        w := Some((position - 1, windowLength - 1));
      } else {
        w := None;
      }
    }
  }

  /** The window handed out at position `p` of a slice of `n` tokens: three tokens while they fit, then two, then none. */
  function WindowAt(n: nat, p: nat): (w: Option<(nat, nat)>)
    ensures w.Some? ==> w.value.0 == p && w.value.0 + w.value.1 <= n
  {
    if p + 3 <= n then Some((p, 3)) else if p + 2 <= n then Some((p, 2)) else None
  }

  /** For two or more tokens, the windows start at 0 … n-2, all of length three but the last, then stop. */
  lemma WindowsCoverSlice(n: nat)
    requires n >= 2
    ensures forall p: nat :: p < n - 2 ==> WindowAt(n, p) == Some((p, 3))
    ensures WindowAt(n, n - 2) == Some(((n - 2) as nat, 2))
    ensures forall p: nat :: p >= n - 1 ==> WindowAt(n, p).None?
  {
  }

  // ---------------------------------------------------------------- fixup_types

  predicate IsAnnotationStart(t: TokenType)
  {
    t.Colon? || t.ReturnType?
  }

  /** The only slice `fixup_types` cannot handle: its last window has two tokens, `:`/`->` and `(`, and the source reads a third. */
  predicate FixupSafe(tokens: seq<Token>)
  {
    |tokens| >= 1 &&
    !(|tokens| >= 2 && IsAnnotationStart(tokens[|tokens| - 2].tokenType) && tokens[|tokens| - 1].tokenType.LeftParen?)
  }

  /**
   * The token at `i` after the retyping loop: after `:` or `->`, an
   * identifier becomes the user type it names and a `(` directly closed by
   * `)` becomes the unit type.
   */
  function FixedToken(tokens: seq<Token>, i: nat): (t: Token)
    requires i < |tokens|
    ensures t.span == tokens[i].span && t.value == tokens[i].value
    ensures IsAnnotationStart(t.tokenType) <==> IsAnnotationStart(tokens[i].tokenType)
    ensures t.tokenType.RightParen? <==> tokens[i].tokenType.RightParen?
  {
    var tok := tokens[i];
    if i >= 1 && IsAnnotationStart(tokens[i - 1].tokenType) then
      if tok.tokenType.Identifier? then tok.(tokenType := Type(User(Values.Display(tok.value))))
      else if tok.tokenType.LeftParen? && i + 1 < |tokens| && tokens[i + 1].tokenType.RightParen? then
        tok.(tokenType := Type(Unit))
      else tok
    else tok
  }

  /** The `)` of a `:`/`->` followed by `()`, which the fix-up removes. */
  predicate Removed(tokens: seq<Token>, j: nat)
  {
    2 <= j < |tokens| && IsAnnotationStart(tokens[j - 2].tokenType) &&
    tokens[j - 1].tokenType.LeftParen? && tokens[j].tokenType.RightParen?
  }

  /** The fixed tokens among the first `k`, without the removed ones. */
  function Kept(tokens: seq<Token>, k: nat): (r: seq<Token>)
    requires k <= |tokens|
    ensures |r| <= k
  {
    if k == 0 then []
    else Kept(tokens, k - 1) + (if Removed(tokens, k - 1) then [] else [FixedToken(tokens, k - 1)])
  }

  /** What `fixup_types` leaves in the vector. */
  function FixupSpec(tokens: seq<Token>): seq<Token>
  {
    Kept(tokens, |tokens|)
  }

  /** The tokens of `ts` after position 0 and up to `done` are retyped, and the rest are as scanned. */
  predicate RetypedUpTo(tokens: seq<Token>, ts: seq<Token>, done: nat)
  {
    |ts| == |tokens| &&
    forall i :: 0 <= i < |tokens| ==> ts[i] == (if 1 <= i <= done then FixedToken(tokens, i) else tokens[i])
  }

  /** `indices` records exactly the removed `)`s up to `bound`. */
  ghost predicate MarkedUpTo(tokens: seq<Token>, indices: seq<nat>, bound: nat)
  {
    forall j: nat :: j in indices <==> j <= bound && Removed(tokens, j)
  }

  /**
   * What the window starting at `start` sees of `ts`: its first token
   * starts an annotation exactly when the scanned one does, and its other
   * tokens are as scanned.
   */
  predicate WindowUntouched(tokens: seq<Token>, ts: seq<Token>, start: nat)
  {
    |ts| == |tokens| && start + 1 < |tokens| &&
    (IsAnnotationStart(ts[start].tokenType) <==> IsAnnotationStart(tokens[start].tokenType)) &&
    ts[start + 1] == tokens[start + 1] &&
    (start + 2 < |tokens| ==> ts[start + 2] == tokens[start + 2])
  }

  /** Before the window at `start` is handled, the tokens it reads are untouched. */
  lemma RetypedWindowUntouched(tokens: seq<Token>, ts: seq<Token>, start: nat)
    requires start + 1 < |tokens| && RetypedUpTo(tokens, ts, start)
    ensures WindowUntouched(tokens, ts, start)
  {
    assert ts[start + 1] == tokens[start + 1];
    assert ts[start].tokenType == tokens[start].tokenType || ts[start] == FixedToken(tokens, start);
  }

  /**
   * The body of the retyping loop for the window `ts[start..start + len]`,
   * where the windows before it have already been handled: it retypes the
   * window's second token and reports whether it found a `()` annotation.
   */
  method RetypeWindow(tokens: seq<Token>, ts: seq<Token>, start: nat, len: nat) returns (ts': seq<Token>, unit: bool)
    requires FixupSafe(tokens) && WindowAt(|tokens|, start) == Some((start, len))
    requires WindowUntouched(tokens, ts, start)
    ensures ts' == ts[start + 1 := FixedToken(tokens, start + 1)]
    ensures unit <==> Removed(tokens, start + 2)
  {
    var first, tok := ts[start], ts[start + 1];
    unit := false;
    var isTypeAnnotation := IsAnnotationStart(first.tokenType);
    if isTypeAnnotation && tok.tokenType.Identifier? {
      tok := tok.(tokenType := Type(User(Values.Display(tok.value))));
    }
    if isTypeAnnotation && tok.tokenType.LeftParen? {
      // a `(` after `:` or `->` is never the last token, so the window has a third one
      assert len == 3;
      if ts[start + 2].tokenType.RightParen? {
        tok := tok.(tokenType := Type(Unit));
        unit := true;
      }
    }
    assert tok == FixedToken(tokens, start + 1);
    ts' := ts[start + 1 := tok];
  }

  /** One more window handled: the retyped prefix grows by the window's second token. */
  lemma RetypedPrefixGrows(tokens: seq<Token>, before: seq<Token>, ts: seq<Token>, done: nat)
    requires done + 1 < |tokens| && RetypedUpTo(tokens, before, done)
    requires ts == before[done + 1 := FixedToken(tokens, done + 1)]
    ensures RetypedUpTo(tokens, ts, done + 1)
  {
    forall i | 0 <= i < |tokens|
      ensures ts[i] == (if 1 <= i <= done + 1 then FixedToken(tokens, i) else tokens[i])
    {
      if i != done + 1 {
        assert ts[i] == before[i];
      }
    }
  }

  /** One more window handled: the recorded `)` indices grow by the window's third token when it closes a `()`. */
  lemma MarkedGrows(tokens: seq<Token>, marked: seq<nat>, indices: seq<nat>, unit: bool, done: nat)
    requires MarkedUpTo(tokens, marked, done + 1)
    requires unit <==> Removed(tokens, done + 2)
    requires indices == if unit then marked + [done + 2] else marked
    ensures MarkedUpTo(tokens, indices, done + 2)
  {
    forall j: nat
      ensures j in indices <==> j <= done + 2 && Removed(tokens, j)
    {
      assert j in indices <==> j in marked || (unit && j == done + 2);
    }
  }

  /** Once every window is handled, every token is retyped and every removed `)` recorded. */
  lemma RetypedAll(tokens: seq<Token>, ts: seq<Token>, indices: seq<nat>, done: nat)
    requires done + 1 >= |tokens| && RetypedUpTo(tokens, ts, done) && MarkedUpTo(tokens, indices, done + 1)
    ensures |ts| == |tokens|
    ensures forall i :: 0 <= i < |tokens| ==> ts[i] == FixedToken(tokens, i)
    ensures forall j: nat :: j in indices <==> Removed(tokens, j)
  {
    if |tokens| > 0 {
      assert FixedToken(tokens, 0) == tokens[0];
    }
  }

  /**
   * The retyping loop of `Scanner::fixup_types`: every window whose first
   * token starts an annotation retypes its second token, and a `()`
   * records the index of its `)`.
   */
  method RetypeWindows(tokens: seq<Token>) returns (ts: seq<Token>, unitTypeIndices: seq<nat>)
    requires FixupSafe(tokens)
    ensures |ts| == |tokens|
    ensures forall i :: 0 <= i < |tokens| ==> ts[i] == FixedToken(tokens, i)
    ensures forall j: nat :: j in unitTypeIndices <==> Removed(tokens, j)
  {
    var n := |tokens|;
    ts := tokens;
    unitTypeIndices := [];
    var window := new TokenIter(n);
    var next := window.Next();
    // The number of windows handled so far; the next one starts there.
    ghost var done: nat := 0;
    while next.Some?
      invariant window.sliceLength == n && window.windowLength == 3
      invariant window.position == done + (if next.Some? then 1 else 0)
      invariant next == WindowAt(n, done)
      invariant RetypedUpTo(tokens, ts, done)
      invariant MarkedUpTo(tokens, unitTypeIndices, done + 1)
      decreases n - done
    {
      var (start, len) := next.value;
      assert start == done && window.position == done + 1;
      ghost var before := ts;
      ghost var marked := unitTypeIndices;
      var unit;
      RetypedWindowUntouched(tokens, ts, start);
      ts, unit := RetypeWindow(tokens, ts, start, len);
      if unit {
        unitTypeIndices := unitTypeIndices + [window.position + 1];
      }
      RetypedPrefixGrows(tokens, before, ts, done);
      MarkedGrows(tokens, marked, unitTypeIndices, unit, done);
      done := done + 1;
      next := window.Next();
    }
    RetypedAll(tokens, ts, unitTypeIndices, done);
  }

  /** The `retain` test on the retyped token at `index` drops exactly the removed `)`s. */
  lemma KeepStep(tokens: seq<Token>, ts: seq<Token>, indices: seq<nat>, index: nat)
    requires index < |ts| == |tokens|
    requires forall i :: 0 <= i < |tokens| ==> ts[i] == FixedToken(tokens, i)
    requires forall j: nat :: j in indices <==> Removed(tokens, j)
    ensures ts[index] == FixedToken(tokens, index)
    ensures (ts[index].tokenType.RightParen? && index in indices) <==> Removed(tokens, index)
  {
    assert ts[index] == FixedToken(tokens, index);
  }

  /**
   * `Scanner::fixup_types`: the retyping pass over the windows, then the
   * `retain` pass with its index counter. It always returns `Ok`.
   */
  method FixupTypes(tokens: seq<Token>) returns (result: seq<Token>, r: Result<(), LangError>)
    requires FixupSafe(tokens)
    ensures result == FixupSpec(tokens) && r == Ok(())
  {
    var ts, unitTypeIndices := RetypeWindows(tokens);
    var index := 0;
    result := [];
    while index < |ts|
      invariant index <= |ts|
      invariant result == Kept(tokens, index)
    {
      KeepStep(tokens, ts, unitTypeIndices, index);
      if !(ts[index].tokenType.RightParen? && index in unitTypeIndices) {
        result := result + [ts[index]];
      }
      index := index + 1;
    }
    r := Ok(());
  }

  /** How many of the first `k` tokens the fix-up removes. */
  function RemovedCount(tokens: seq<Token>, k: nat): (c: nat)
    requires k <= |tokens|
    ensures c <= k
  {
    if k == 0 then 0 else RemovedCount(tokens, k - 1) + (if Removed(tokens, k - 1) then 1 else 0)
  }

  /** The fix-up shortens the vector by exactly the removed `)`s. */
  lemma {:induction false} KeptLength(tokens: seq<Token>, k: nat)
    requires k <= |tokens|
    ensures |Kept(tokens, k)| == k - RemovedCount(tokens, k)
    decreases k
  {
    if k > 0 {
      KeptLength(tokens, k - 1);
    }
  }

  /** Every token that is not removed survives, retyped. */
  lemma {:induction false} KeptContainsSurvivors(tokens: seq<Token>, k: nat, i: nat)
    requires i < k <= |tokens| && !Removed(tokens, i)
    ensures FixedToken(tokens, i) in Kept(tokens, k)
    decreases k
  {
    if i < k - 1 {
      KeptContainsSurvivors(tokens, k - 1, i);
    }
  }

  /** Nothing but retyped survivors is kept. */
  lemma {:induction false} KeptOnlySurvivors(tokens: seq<Token>, k: nat, t: Token)
    requires k <= |tokens| && t in Kept(tokens, k)
    ensures exists i :: 0 <= i < k && !Removed(tokens, i) && t == FixedToken(tokens, i)
    decreases k
  {
    if t in Kept(tokens, k - 1) {
      KeptOnlySurvivors(tokens, k - 1, t);
    }
  }

  /** The retyping changes only identifiers and `(`s right after an annotation start, and nothing but their types. */
  lemma FixedTokenChanges(tokens: seq<Token>, i: nat)
    requires i < |tokens|
    ensures FixedToken(tokens, i) != tokens[i] ==>
      i >= 1 && IsAnnotationStart(tokens[i - 1].tokenType) &&
      ((tokens[i].tokenType == Identifier &&
        FixedToken(tokens, i).tokenType == Type(User(Values.Display(tokens[i].value)))) ||
       (tokens[i].tokenType == LeftParen && Removed(tokens, i + 1) &&
        FixedToken(tokens, i).tokenType == Type(Unit)))
    ensures i >= 1 && IsAnnotationStart(tokens[i - 1].tokenType) && tokens[i].tokenType == Identifier ==>
      FixedToken(tokens, i).tokenType == Type(User(Values.Display(tokens[i].value)))
  {
  }

  /** `: ()` followed by the end of input becomes `:` and the unit type. */
  lemma UnitAnnotationExample(colon: Token, open: Token, close: Token, eof: Token)
    requires colon.tokenType == Colon && open.tokenType == LeftParen && close.tokenType == RightParen
    requires eof.tokenType == Eof
    ensures FixupSpec([colon, open, close, eof]) == [colon, open.(tokenType := Type(Unit)), eof]
  {
    var ts := [colon, open, close, eof];
    assert Kept(ts, 1) == [colon];
    assert FixedToken(ts, 1) == open.(tokenType := Type(Unit));
    assert Kept(ts, 2) == [colon, open.(tokenType := Type(Unit))];
    assert Removed(ts, 2);
    assert Kept(ts, 3) == Kept(ts, 2);
    assert FixedToken(ts, 3) == eof;
  }

  // ---------------------------------------------------------------- scan_tokens

  /** A lexing error as nom reports it; its conversion to `LangError` is not part of this model. */
  datatype ScanError = LexError(raised: Option<LangError>) | LexFailure(cause: LangError) | LexIncomplete | LexUnmodelled

  /** What `scan_tokens` makes of a lexing outcome: the tokens, fixed up, or the lexing error. */
  function ScanResult(lexed: IResult<seq<Token>>): (r: Result<seq<Token>, ScanError>)
    ensures r.Ok? <==> lexed.Done?
    ensures lexed.Error? ==> r == Err(LexError(lexed.raised))
    ensures lexed.Failure? ==> r == Err(LexFailure(lexed.cause))
  {
    match lexed
    case Done(_, ts) => Ok(FixupSpec(ts))
    case Error(e) => Err(LexError(e))
    case Failure(e) => Err(LexFailure(e))
    case Incomplete => Err(LexIncomplete)
    case Unmodelled => Err(LexUnmodelled)
  }

  /** What `scan_tokens` returns for `source`: lexing starts at offset 0, line 1, column 0. */
  function ScanSpec(source: string): Result<seq<Token>, ScanError>
  {
    ScanResult(LexProgram(New(source, 0, 1, 0)))
  }

  /** A successful scan ends with the `Eof` token, and fails exactly when lexing does. */
  lemma ScanEndsWithEof(lexed: IResult<seq<Token>>)
    requires lexed.Done? ==> EndsInEof(lexed.out)
    ensures ScanResult(lexed).Ok? <==> lexed.Done?
    ensures ScanResult(lexed).Ok? ==>
      |ScanResult(lexed).value| >= 1 && ScanResult(lexed).value[|ScanResult(lexed).value| - 1].tokenType == Eof
  {
    if lexed.Done? {
      LastTokenSurvivesFixup(lexed.out);
    }
  }

  // ---------------------------------------------------------------- Scanner

  /** `Scanner`: the program text. */
  class Scanner {
    const source: string
    var tokens: seq<Token>

    /** `Scanner::new`. */
    constructor (source: string)
      ensures this.source == source && tokens == []
    {
      this.source := source;
      tokens := [];
    }

    /** `scan_tokens`: lex from line 1, then fix up the types. */
    method ScanTokens() returns (r: Result<seq<Token>, ScanError>)
      ensures r == ScanSpec(source)
    {
      var lexed := LexProgram(New(source, 0, 1, 0));
      r := FinishScan(lexed);
    }
  }

  /** The part of `scan_tokens` after lexing: `fixup_types` on success, the error otherwise. */
  method FinishScan(lexed: IResult<seq<Token>>) returns (r: Result<seq<Token>, ScanError>)
    requires lexed.Done? ==> EndsInEof(lexed.out)
    ensures r == ScanResult(lexed)
  {
    match lexed
    case Done(_, ts) =>
      LastTokenSurvivesFixup(ts);
      var fixed, _ := FixupTypes(ts);
      r := Ok(fixed);
    case Error(e) => r := Err(LexError(e));
    case Failure(e) => r := Err(LexFailure(e));
    case Incomplete => r := Err(LexIncomplete);
    case Unmodelled => r := Err(LexUnmodelled);
  }

  /** A vector ending in `Eof` can be fixed up, and the `Eof` survives. */
  lemma LastTokenSurvivesFixup(ts: seq<Token>)
    requires EndsInEof(ts)
    ensures FixupSafe(ts)
    ensures |FixupSpec(ts)| >= 1 && FixupSpec(ts)[|FixupSpec(ts)| - 1].tokenType == Eof
  {
  }
}
