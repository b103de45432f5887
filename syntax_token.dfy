/**
 * Scanner tokens (lib/syntax/token.rs): a token type, the spans it came
 * from, and the value the scanner attached to it.
 *
 * `get_value` relies on Rust's `str::parse::<i64>` and `str::parse::<bool>`;
 * both are modelled here, with the error texts their `description()`
 * returns. The integer parser is the standard library's
 * `from_str_radix` for radix 10 as it stood in 2019: an optional sign,
 * then decimal digits read left to right with an overflow check at every
 * step, where a sign with no digits after it counts as an empty string.
 */
module SyntaxToken {
  import opened Wrappers
  import opened Errors
  import opened Types
  import opened Span
  import Values

  /** `SourceSpan`. */
  datatype SourceSpan = SourceSpan(begin: Span, content: Span, end: Span)

  /** `Token` (the scanner's token, which knows its spans but not its line). */
  datatype Token = Token(tokenType: TokenType, span: SourceSpan, value: Values.Value)

  /** `ValueType`: what kind of value a lexeme is converted to. */
  datatype ValueType = StringValue | IntegerValue | FloatValue | BooleanValue

  /** `std::num::IntErrorKind`, as far as radix-10 parsing can produce it. */
  datatype IntErrorKind = Empty | InvalidDigit | PosOverflow | NegOverflow

  /** `ParseIntError::description`. */
  function IntErrorDescription(k: IntErrorKind): string
  {
    match k
    case Empty => "cannot parse integer from empty string"
    case InvalidDigit => "invalid digit found in string"
    case PosOverflow => "number too large to fit in target type"
    case NegOverflow => "number too small to fit in target type"
  }

  const BOOL_ERROR: string := "provided string was not `true` or `false`"

  predicate IsDecimalDigit(c: char)
  {
    '0' <= c <= '9'
  }

  /**
   * The digit loop of `from_str_radix`: each digit multiplies the
   * accumulator by ten and adds (or, for a negative number, subtracts) the
   * digit, failing as soon as the accumulator leaves the `i64` range.
   */
  function ParseDigits(digits: string, acc: int, positive: bool): (r: Result<int, IntErrorKind>)
    requires Values.I64_MIN <= acc <= Values.I64_MAX
    requires if positive then acc >= 0 else acc <= 0
    ensures r.Ok? ==> Values.I64_MIN <= r.value <= Values.I64_MAX
    ensures r.Ok? ==> if positive then r.value >= 0 else r.value <= 0
    ensures r.Ok? ==> forall i :: 0 <= i < |digits| ==> IsDecimalDigit(digits[i])
    ensures r.Err? ==> r.error != Empty
    ensures r.Err? && r.error == PosOverflow ==> positive
    ensures r.Err? && r.error == NegOverflow ==> !positive
    decreases |digits|
  {
    if digits == [] then Ok(acc)
    else
      var c := digits[0];
      if !IsDecimalDigit(c) then Err(InvalidDigit)
      else
        var d := (c as int) - ('0' as int);
        var next := if positive then acc * 10 + d else acc * 10 - d;
        if next > Values.I64_MAX then Err(PosOverflow)
        else if next < Values.I64_MIN then Err(NegOverflow)
        else ParseDigits(digits[1..], next, positive)
  }

  /** `str::parse::<i64>`. */
  function ParseI64(s: string): (r: Result<int, IntErrorKind>)
    ensures r.Ok? ==> Values.I64_MIN <= r.value <= Values.I64_MAX
    ensures r == Err(Empty) <==> s == [] || s == "+" || s == "-"
  {
    if s == [] then Err(Empty)
    else
      var positive := s[0] != '-';
      var digits := if s[0] == '+' || s[0] == '-' then s[1..] else s;
      if digits == [] then Err(Empty) else ParseDigits(digits, 0, positive)
  }

  /** `str::parse::<bool>`. */
  function ParseBool(s: string): (r: Result<bool, string>)
    ensures r.Ok? <==> s == "true" || s == "false"
    ensures r.Ok? ==> (r.value <==> s == "true")
    ensures r.Err? ==> r.error == BOOL_ERROR
  {
    if s == "true" then Ok(true) else if s == "false" then Ok(false) else Err(BOOL_ERROR)
  }

  /** `i64 as i32`: keep the low 32 bits, read as two's complement. */
  function TruncateToI32(x: int): (r: Values.i32)
    ensures Values.I32_MIN <= x <= Values.I32_MAX ==> r == x
    ensures (r - x) % 0x1_0000_0000 == 0
  {
    var low := (x - Values.I32_MIN) % 0x1_0000_0000;
    low + Values.I32_MIN
  }

  /**
   * `Token::get_value`. A parse error becomes a nom `Failure` carrying a
   * `ParserError` with the standard library's description: `Fail` here.
   * Float lexemes are `Unmodelled`.
   */
  function GetValue(valueType: ValueType, lexeme: string): (r: Values.Outcome<Values.Value>)
    ensures valueType == StringValue ==> r == Values.Yield(Values.Value.String(lexeme))
    ensures valueType == FloatValue ==> r.Unmodelled?
    ensures valueType == BooleanValue ==>
      (r.Yield? <==> lexeme == "true" || lexeme == "false") &&
      (r.Yield? ==> r.value == Values.Boolean(lexeme == "true")) &&
      (!r.Yield? ==> r == Values.Fail(ParserError(BOOL_ERROR)))
    ensures valueType == IntegerValue ==>
      (r.Yield? <==> ParseI64(lexeme).Ok?) &&
      (r.Yield? ==> r.value == Values.Int32(TruncateToI32(ParseI64(lexeme).value))) &&
      (!r.Yield? ==> r == Values.Fail(ParserError(IntErrorDescription(ParseI64(lexeme).error))))
  {
    match valueType
    case StringValue => Values.Yield(Values.Value.String(lexeme))
    case IntegerValue =>
      var p := ParseI64(lexeme);
      if p.Err? then Values.Fail(NewParserError(IntErrorDescription(p.error)))
      else
        // The range test is applied to the truncated value, so it always
        // holds and the source's `Int64` branch cannot be reached.
        var truncated := TruncateToI32(p.value);
        if truncated <= Values.I32_MAX && truncated >= Values.I32_MIN then Values.Yield(Values.Int32(truncated))
        else assert false; Values.Unmodelled
    case FloatValue => Values.Unmodelled
    case BooleanValue =>
      var b := ParseBool(lexeme);
      if b.Err? then Values.Fail(NewParserError(b.error)) else Values.Yield(Values.Boolean(b.value))
  }

  /** An integer lexeme never yields an `Int64`: the second branch of the range test is dead. */
  lemma IntegerLexemesAreInt32(lexeme: string)
    ensures !GetValue(IntegerValue, lexeme).Yield? || GetValue(IntegerValue, lexeme).value.Int32?
  {
  }

  /** Parsing the digits of `s + t` parses `s` first and carries its value on into `t`. */
  lemma {:induction false} ParseDigitsAppend(s: string, t: string, acc: int, positive: bool)
    requires Values.I64_MIN <= acc <= Values.I64_MAX
    requires if positive then acc >= 0 else acc <= 0
    requires ParseDigits(s, acc, positive).Ok?
    ensures ParseDigits(s + t, acc, positive) == ParseDigits(t, ParseDigits(s, acc, positive).value, positive)
    decreases |s|
  {
    if s != [] {
      assert (s + t)[0] == s[0];
      assert (s + t)[1..] == s[1..] + t;
      var d := (s[0] as int) - ('0' as int);
      var next := if positive then acc * 10 + d else acc * 10 - d;
      ParseDigitsAppend(s[1..], t, next, positive);
    } else {
      assert s + t == t;
    }
  }

  /** The digit character of `d` stands for `d`. */
  lemma DigitCharValue(d: nat)
    requires d < 10
    ensures (Values.DigitChar(d) as int) - ('0' as int) == d
  {
    assert "0123456789"[d] as int == '0' as int + d;
  }

  /** One last digit, which keeps the accumulator in range, is taken on. */
  lemma ParseLastDigit(d: nat, acc: int, positive: bool)
    requires d < 10
    requires Values.I64_MIN <= acc <= Values.I64_MAX
    requires if positive then acc >= 0 else acc <= 0
    requires Values.I64_MIN <= (if positive then acc * 10 + d else acc * 10 - d) <= Values.I64_MAX
    ensures ParseDigits([Values.DigitChar(d)], acc, positive) == Ok(if positive then acc * 10 + d else acc * 10 - d)
  {
    DigitCharValue(d);
    assert [Values.DigitChar(d)][1..] == [];
  }

  /** The digits of `n` parse back to `n` (or `-n` for a negative sign), as long as that fits in an `i64`. */
  lemma {:induction false} ParseNatToString(n: nat, positive: bool)
    requires n <= (if positive then Values.I64_MAX else -Values.I64_MIN)
    ensures ParseDigits(Values.NatToString(n), 0, positive) == Ok(if positive then n as int else -(n as int))
    decreases n
  {
    if n >= 10 {
      var q := n / 10;
      var d := n % 10;
      assert n == q * 10 + d;
      assert Values.NatToString(n) == Values.NatToString(q) + [Values.DigitChar(d)];
      ParseNatToString(q, positive);
      ParseDigitsAppend(Values.NatToString(q), [Values.DigitChar(d)], 0, positive);
      ParseLastDigit(d, if positive then q as int else -(q as int), positive);
    } else {
      ParseLastDigit(n, 0, positive);
    }
  }

  /** Every `i64`, printed with `{}`, parses back to itself. */
  lemma ParseI64RoundTrip(x: Values.i64)
    ensures ParseI64(Values.IntToString(x)) == Ok(x)
  {
    var s := Values.IntToString(x);
    if x < 0 {
      var m: nat := -(x as int);
      var digits := Values.NatToString(m);
      assert s == "-" + digits;
      assert s[0] == '-' && s[1..] == digits;
      ParseNatToString(m, false);
    } else {
      var digits := Values.NatToString(x);
      assert s == digits && '0' <= s[0] <= '9';
      ParseNatToString(x, true);
    }
  }

  /** An `i32` literal becomes exactly that `Int32`; a wider one wraps around. */
  lemma IntegerValueRoundTrip(x: Values.i64)
    ensures GetValue(IntegerValue, Values.IntToString(x)) == Values.Yield(Values.Int32(TruncateToI32(x)))
    ensures Values.I32_MIN <= x <= Values.I32_MAX ==>
      GetValue(IntegerValue, Values.IntToString(x)) == Values.Yield(Values.Int32(x))
  {
    ParseI64RoundTrip(x);
  }

  /** `Token::new2`: the value is the token type's display text, and all three spans are the lexeme at the origin. */
  function New2(tokenType: TokenType, lexeme: string): (t: Token)
    ensures t.tokenType == tokenType
    ensures t.value == Values.Value.String(DisplayTokenType(tokenType))
    ensures t.span.begin == t.span.content == t.span.end == New(lexeme, 0, 0, 0)
  {
    var s := New(lexeme, 0, 0, 0);
    Token(tokenType, SourceSpan(s, s, s), Values.Value.String(DisplayTokenType(tokenType)))
  }
}
