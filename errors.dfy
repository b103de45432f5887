/**
 * Error values of the interpreter (lib/error.rs): the fixed message
 * templates, the error kinds and their `Display`/`Debug` renderings.
 */
module Errors {

  /** The message templates of `error_message`. */
  datatype ErrMessage =
    | ExpectValueType(typeName: string)
    | ExpectExpr(exprName: string)
    | ExpectStmt(stmtName: string)
    | IncorrectIndexType(indexType: string)

  /** `error_message`: the payload is framed by a fixed prefix and suffix per template. */
  function ErrorMessage(m: ErrMessage): (r: string)
    ensures m.ExpectValueType? ==> r == "expected a " + m.typeName + " value"
    ensures m.ExpectExpr? ==> r == "expected " + m.exprName + " expression"
    ensures m.ExpectStmt? ==> r == "expected " + m.stmtName + " statement"
    ensures m.IncorrectIndexType? ==>
      r == "tried to index an array with an incorrect type '" + m.indexType + "'"
  {
    match m
    case ExpectValueType(t) => "expected a " + t + " value"
    case ExpectExpr(e) => "expected " + e + " expression"
    case ExpectStmt(s) => "expected " + s + " statement"
    case IncorrectIndexType(t) => "tried to index an array with an incorrect type '" + t + "'"
  }

  /**
   * Recovers the template and its payload from a rendered message. The
   * four templates end in four different characters, so the last one
   * tells them apart; the payload lies between the fixed prefix and suffix.
   */
  function ParseErrorMessage(s: string): (r: ErrMessage)
  {
    var n := |s|;
    if n >= 49 && s[n - 1] == '\'' then IncorrectIndexType(s[48..n - 1])
    else if n >= 20 && s[n - 1] == 'n' then ExpectExpr(s[9..n - 11])
    else if n >= 19 && s[n - 1] == 't' then ExpectStmt(s[9..n - 10])
    else if n >= 17 then ExpectValueType(s[11..n - 6])
    else IncorrectIndexType(s)
  }

  lemma ValueTypeRoundTrip(t: string)
    ensures ParseErrorMessage(ErrorMessage(ExpectValueType(t))) == ExpectValueType(t)
  {
    var s := ErrorMessage(ExpectValueType(t));
    assert s[|s| - 1] == 'e';
    assert s[11..|s| - 6] == t;
  }

  lemma ExprRoundTrip(e: string)
    ensures ParseErrorMessage(ErrorMessage(ExpectExpr(e))) == ExpectExpr(e)
  {
    var s := ErrorMessage(ExpectExpr(e));
    assert s[|s| - 1] == 'n';
    assert s[9..|s| - 11] == e;
  }

  lemma StmtRoundTrip(t: string)
    ensures ParseErrorMessage(ErrorMessage(ExpectStmt(t))) == ExpectStmt(t)
  {
    var s := ErrorMessage(ExpectStmt(t));
    assert s[|s| - 1] == 't';
    assert s[9..|s| - 10] == t;
  }

  lemma IndexTypeRoundTrip(t: string)
    ensures ParseErrorMessage(ErrorMessage(IncorrectIndexType(t))) == IncorrectIndexType(t)
  {
    var s := ErrorMessage(IncorrectIndexType(t));
    assert s[|s| - 1] == '\'';
    assert s[48..|s| - 1] == t;
  }

  /** Every rendered message determines its template and payload. */
  lemma ErrorMessageRoundTrip(m: ErrMessage)
    ensures ParseErrorMessage(ErrorMessage(m)) == m
  {
    match m
    case ExpectValueType(t) => ValueTypeRoundTrip(t);
    case ExpectExpr(e) => ExprRoundTrip(e);
    case ExpectStmt(t) => StmtRoundTrip(t);
    case IncorrectIndexType(t) => IndexTypeRoundTrip(t);
  }

  /** Consequently `error_message` is injective. */
  lemma ErrorMessageInjective(a: ErrMessage, b: ErrMessage)
    ensures ErrorMessage(a) == ErrorMessage(b) <==> a == b
  {
    if ErrorMessage(a) == ErrorMessage(b) {
      ErrorMessageRoundTrip(a);
      ErrorMessageRoundTrip(b);
    }
  }

  /** `RuntimeErrorType`: every kind carries a reason. */
  datatype RuntimeErrorType =
    | UndefinedVariable(reason: string)
    | ResolutionError(reason: string)
    | CallError(reason: string)
    | IoError(reason: string)
    | LogError(reason: string)
    | FnArityError(reason: string)
    | InvalidTypeAssignmentError(reason: string)
    | InvalidFunctionArgumentType(reason: string)
    | InvalidFunctionReturnType(reason: string)
    | GenericError(reason: string)

  /** `ControlFlow`: the only control-flow signal is `break`. */
  datatype Flow = Break

  datatype LangError =
    | ParserError(reason: string)
    | InternalError(reason: string)
    | RuntimeError(subtype: RuntimeErrorType)
    | ControlFlow(flow: Flow)

  function DisplayRuntimeErrorType(e: RuntimeErrorType): (r: string)
    ensures |e.reason| <= |r| && r[|r| - |e.reason|..] == e.reason
  {
    match e
    case UndefinedVariable(r) => "Undefined variable: " + r
    case ResolutionError(r) => "Resolution error: " + r
    case CallError(r) => "Call error: " + r
    case IoError(r) => "IO error: " + r
    case LogError(r) => "Log error: " + r
    case FnArityError(r) => "Function arity error: " + r
    case InvalidTypeAssignmentError(r) => "Invalid assignment type target: " + r
    case InvalidFunctionArgumentType(r) => "Invalid function argument type: " + r
    case InvalidFunctionReturnType(r) => "Invalid function return type: " + r
    case GenericError(r) => r
  }

  function DisplayFlow(f: Flow): string { "Break" }

  /** `Display` for `LangError`. */
  function DisplayLangError(e: LangError): (r: string)
    ensures e.RuntimeError? && e.subtype.GenericError? ==> r == "Runtime error: " + e.subtype.reason
  {
    match e
    case ParserError(r) => "Parser error: " + r
    case InternalError(r) => "IIE: " + r
    case RuntimeError(s) => "Runtime error: " + DisplayRuntimeErrorType(s)
    case ControlFlow(f) => "Control flow: " + DisplayFlow(f)
  }

  /**
   * The control characters, C0 and C1 and DEL: those that Rust's `{:?}`
   * does not write with a letter escape it writes as `\u{..}`.
   */
  predicate IsControl(c: char)
  {
    (c as int) < 32 || 127 <= (c as int) <= 159
  }

  /** A lower-case hexadecimal digit. */
  function HexDigit(d: nat): (h: char)
    requires d < 16
    ensures HexValue(h) == d
  {
    "0123456789abcdef"[d]
  }

  /** The value of a lower-case hexadecimal digit (0 for any other character). */
  function HexValue(h: char): (d: nat)
    ensures d < 16
  {
    if '0' <= h <= '9' then (h as int) - ('0' as int)
    else if 'a' <= h <= 'f' then (h as int) - ('a' as int) + 10
    else 0
  }

  /** A code point below 256 in hexadecimal, without leading zeros, as `\u{..}` writes it. */
  function Hex(n: nat): (h: string)
    requires 0 < n < 256
    ensures 1 <= |h| <= 2
    ensures |h| == 1 <==> n < 16
  {
    if n < 16 then [HexDigit(n)] else [HexDigit(n / 16), HexDigit(n % 16)]
  }

  /**
   * Rust's `{:?}` escaping of one character inside a string literal: the
   * quote, the backslash and the letter escapes, then `\u{..}` for the
   * other control characters.
   */
  function EscapeChar(c: char): (r: string)
    ensures |r| == 1 <==> c != '"' && c != '\\' && !IsControl(c)
    ensures |r| == 1 ==> r == [c]
    ensures |r| > 1 ==> r[0] == '\\'
  {
    if c == '"' then "\\\""
    else if c == '\\' then "\\\\"
    else if c == '\n' then "\\n"
    else if c == '\r' then "\\r"
    else if c == '\t' then "\\t"
    else if c == '\0' then "\\0"
    else if IsControl(c) then "\\u{" + Hex(c as int) + "}"
    else [c]
  }

  function EscapeBody(s: string): string
  {
    if s == [] then [] else EscapeChar(s[0]) + EscapeBody(s[1..])
  }

  /** Rust's `{:?}` rendering of a `String`: quoted, with escapes. */
  function DebugString(s: string): (r: string)
    ensures |r| >= 2 && r[0] == '"' && r[|r| - 1] == '"'
    ensures Unescape(r[1..|r| - 1]) == s
  {
    UnescapeEscapeBody(s);
    var r := "\"" + EscapeBody(s) + "\"";
    assert r[1..|r| - 1] == EscapeBody(s);
    r
  }

  function UnescapeChar(c: char): char
  {
    match c
    case 'n' => '\n'
    case 'r' => '\r'
    case 't' => '\t'
    case '0' => '\0'
    case _ => c
  }

  /** Reads back an escaped body. */
  function Unescape(t: string): string
  {
    if t == [] then []
    else if |t| >= 5 && t[0] == '\\' && t[1] == 'u' && t[2] == '{' && t[4] == '}' then
      [HexValue(t[3]) as char] + Unescape(t[5..])
    else if |t| >= 6 && t[0] == '\\' && t[1] == 'u' && t[2] == '{' && t[5] == '}' then
      [(HexValue(t[3]) * 16 + HexValue(t[4])) as char] + Unescape(t[6..])
    else if t[0] == '\\' && |t| >= 2 then [UnescapeChar(t[1])] + Unescape(t[2..])
    else [t[0]] + Unescape(t[1..])
  }

  /** Unescaping reads one escaped character back off the front. */
  lemma UnescapeEscapeChar(c: char, rest: string)
    ensures Unescape(EscapeChar(c) + rest) == [c] + Unescape(rest)
  {
    if c == '"' || c == '\\' || c == '\n' || c == '\r' || c == '\t' || c == '\0' {
      var t := EscapeChar(c) + rest;
      assert t[0] == '\\' && t[1] != 'u' && UnescapeChar(t[1]) == c && t[2..] == rest;
    } else if IsControl(c) {
      UnescapeHexEscape(c, rest);
    } else {
      var t := EscapeChar(c) + rest;
      assert t[0] == c && t[1..] == rest;
    }
  }

  /** A `\u{..}` escape reads back to its control character. */
  lemma UnescapeHexEscape(c: char, rest: string)
    requires IsControl(c) && c != '\0' && c != '\t' && c != '\n' && c != '\r'
    ensures Unescape("\\u{" + Hex(c as int) + "}" + rest) == [c] + Unescape(rest)
  {
    var n := c as int;
    var t := "\\u{" + Hex(n) + "}" + rest;
    if n < 16 {
      assert t[0] == '\\' && t[1] == 'u' && t[2] == '{' && t[3] == HexDigit(n) && t[4] == '}';
      assert t[5..] == rest;
      assert HexValue(t[3]) as char == c;
    } else {
      assert t[0] == '\\' && t[1] == 'u' && t[2] == '{' && t[3] == HexDigit(n / 16) && t[4] == HexDigit(n % 16) && t[5] == '}';
      assert t[4] != '}';
      assert t[6..] == rest;
      assert (HexValue(t[3]) * 16 + HexValue(t[4])) as char == c;
    }
  }

  /** U+0001 and DEL have no letter escape: they are written `\u{1}` and `\u{7f}`. */
  lemma ControlCharactersEscapeInHex()
    ensures DebugString([1 as char]) == "\"\\u{1}\""
    ensures DebugString([127 as char]) == "\"\\u{7f}\""
  {
    assert EscapeBody([1 as char]) == EscapeChar(1 as char);
    assert EscapeBody([127 as char]) == EscapeChar(127 as char);
  }

  lemma {:induction false} UnescapeEscapeBody(s: string)
    ensures Unescape(EscapeBody(s)) == s
  {
    if s != [] {
      UnescapeEscapeBody(s[1..]);
      UnescapeEscapeChar(s[0], EscapeBody(s[1..]));
    }
  }

  /** `Debug` for `LangError`. */
  function DebugLangError(e: LangError): string
  {
    match e
    case RuntimeError(s) => "runtime error " + s.reason
    case InternalError(r) => "IIE " + DebugString(r)
    case ParserError(r) => "parser error " + DebugString(r)
    case ControlFlow(f) => DisplayFlow(f) + " must be used within a loop"
  }

  /** A tag followed by a `Debug`-quoted string: the quotes enclose text that unescapes to the string. */
  lemma QuotedAfterTag(tag: string, r: string)
    ensures var d := tag + DebugString(r);
      |d| >= |tag| + 2 && d[..|tag|] == tag && d[|tag|] == '"' && d[|d| - 1] == '"' &&
      Unescape(d[|tag| + 1..|d| - 1]) == r
  {
    var body := EscapeBody(r);
    UnescapeEscapeBody(r);
    var d := tag + DebugString(r);
    assert d == tag + "\"" + body + "\"";
    assert d[|tag| + 1..|d| - 1] == body;
  }

  /**
   * The `Debug` rendering: a control-flow error reads "Break must be used
   * within a loop", a runtime error is its reason after "runtime error ",
   * and internal and parser errors quote their reason so that it can be
   * read back.
   */
  lemma DebugLangErrorShape(e: LangError)
    ensures e.ControlFlow? ==> DebugLangError(e) == "Break" + " must be used within a loop"
    ensures e.RuntimeError? ==> DebugLangError(e) == "runtime error " + e.subtype.reason
    ensures e.InternalError? ==>
      var d := DebugLangError(e);
      |d| >= 6 && d[..4] == "IIE " && d[4] == '"' && d[|d| - 1] == '"' && Unescape(d[5..|d| - 1]) == e.reason
    ensures e.ParserError? ==>
      var d := DebugLangError(e);
      |d| >= 15 && d[..13] == "parser error " && d[13] == '"' && d[|d| - 1] == '"' && Unescape(d[14..|d| - 1]) == e.reason
  {
    match e
    case InternalError(r) => QuotedAfterTag("IIE ", r);
    case ParserError(r) => QuotedAfterTag("parser error ", r);
    case _ =>
  }

  /** `LangError::new_parser_error`. */
  function NewParserError(reason: string): (e: LangError)
    ensures e.ParserError? && e.reason == reason
  {
    ParserError(reason)
  }

  /** `LangError::new_iie_error`. */
  function NewIieError(reason: string): (e: LangError)
    ensures e.InternalError? && e.reason == reason
  {
    InternalError(reason)
  }

  /** `LangError::new_runtime_error`. */
  function NewRuntimeError(subtype: RuntimeErrorType): (e: LangError)
    ensures e.RuntimeError? && e.subtype == subtype
  {
    RuntimeError(subtype)
  }
}
